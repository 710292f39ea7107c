/** The store of gate fragments: a JSON file holding the fragments newest
    first, pruned of fragments older than a day whenever it is read, and kept
    to at most 200 entries. */
module Gate {
  import opened Prelude

  datatype Fragment = Fragment(id: string, text: string, createdAt: string)

  /** The store file: not there yet, text that `JSON.parse` rejects, or a list
      of fragments. */
  datatype Disk = Absent | Corrupt | Holds(items: seq<Fragment>)

  /** 24 hours in milliseconds. */
  const TTL_MS: int := 24 * 60 * 60 * 1000

  const MAX_FRAGMENTS: nat := 200

  /** The test of `prune`: the creation time parses and is at most a day
      before `now`. `parse` stands for `Date.parse`, None for NaN. */
  predicate Live(it: Fragment, now: int, parse: string -> Option<int>)
  {
    match parse(it.createdAt)
    case None => false
    case Some(t) => now - t <= TTL_MS
  }

  function LiveTest(now: int, parse: string -> Option<int>): Fragment -> bool
  {
    it => Live(it, now, parse)
  }

  /** `prune(items)` at the time `now`. */
  function Prune(items: seq<Fragment>, now: int, parse: string -> Option<int>): seq<Fragment>
  {
    Filter(items, LiveTest(now, parse))
  }

  /** `prune` keeps exactly the live fragments, in their order, and pruning
      again at the same time changes nothing. */
  lemma PruneFacts(items: seq<Fragment>, now: int, parse: string -> Option<int>)
    ensures var r := Prune(items, now, parse);
      && (forall x :: x in r <==> x in items && Live(x, now, parse))
      && Subseq(r, items)
      && |r| <= |items|
      && (|r| == |items| <==> forall k :: 0 <= k < |items| ==> Live(items[k], now, parse))
      && Prune(r, now, parse) == r
  {
    var p := LiveTest(now, parse);
    forall x ensures x in Prune(items, now, parse) <==> x in items && Live(x, now, parse) {
      FilterMember(items, p, x);
    }
    FilterSubseq(items, p);
    FilterLength(items, p);
    FilterIdempotent(items, p);
  }

  /** When nothing is pruned, the pruned list is the list itself. */
  lemma PruneNothing(items: seq<Fragment>, now: int, parse: string -> Option<int>)
    requires |Prune(items, now, parse)| == |items|
    ensures Prune(items, now, parse) == items
  {
    FilterLength(items, LiveTest(now, parse));
    FilterAll(items, LiveTest(now, parse));
  }

  /** The list that `readFragments` starts from: a missing file is created
      holding `[]`, and a file that does not parse counts as `[]`. */
  function Loaded(d: Disk): (r: seq<Fragment>)
    ensures d.Holds? ==> r == d.items
    ensures !d.Holds? ==> r == []
  {
    if d.Holds? then d.items else []
  }

  /** The file after `ensureFile`. */
  function Ensured(d: Disk): (r: Disk)
    ensures d.Absent? ==> r == Holds([])
    ensures !d.Absent? ==> r == d
  {
    if d.Absent? then Holds([]) else d
  }

  /** `[item, ...items].slice(0, 200)`. */
  function Prepend(item: Fragment, items: seq<Fragment>): seq<Fragment>
  {
    Take([item] + items, MAX_FRAGMENTS)
  }

  /** The new fragment comes first, the kept fragments follow in their order,
      and the list holds at most 200. */
  lemma PrependFacts(item: Fragment, items: seq<Fragment>)
    ensures var r := Prepend(item, items);
      && r != [] && r[0] == item
      && r[1..] <= items
      && |r| == (if |items| < MAX_FRAGMENTS then |items| + 1 else MAX_FRAGMENTS)
  {
    var r := Prepend(item, items);
    assert ([item] + items)[1..] == items;
    assert r[1..] == ([item] + items)[1..|r|];
  }

  class GateStore {
    var disk: Disk

    constructor(d: Disk)
      ensures disk == d
    {
      disk := d;
    }

    /** `readFragments()` at the time `now`: the pruned list; the file is
        rewritten only when pruning removed something, and afterwards holds
        exactly the pruned list. */
    method ReadFragments(now: int, parse: string -> Option<int>) returns (cleaned: seq<Fragment>)
      modifies this
      ensures cleaned == Prune(Loaded(old(disk)), now, parse)
      ensures disk == (if |cleaned| != |Loaded(old(disk))| then Holds(cleaned) else Ensured(old(disk)))
      ensures Loaded(disk) == cleaned
    {
      disk := Ensured(disk);
      var items := Loaded(disk);
      cleaned := Prune(items, now, parse);
      if |cleaned| != |items| {
        disk := Holds(cleaned);
      } else {
        PruneNothing(items, now, parse);
      }
    }

    /** `addFragment(text)`: `id` stands for `crypto.randomUUID()` and
        `createdAt` for `new Date().toISOString()`. */
    method AddFragment(text: string, id: string, createdAt: string, now: int, parse: string -> Option<int>)
      returns (item: Fragment)
      modifies this
      ensures item == Fragment(id, text, createdAt)
      ensures disk == Holds(Prepend(item, Prune(Loaded(old(disk)), now, parse)))
    {
      var items := ReadFragments(now, parse);
      item := Fragment(id, text, createdAt);
      disk := Holds(Prepend(item, items));
    }
  }
}

/** The gate route: `GET` lists the newest fragments, `POST` cleans the text
    and refuses short texts and texts that look like contact details. */
module Gete {
  import opened Prelude
  import opened Text
  import opened Regex
  import opened Gate

  const MAX_TEXT: nat := 120
  const MIN_TEXT: nat := 6
  const TOO_SHORT := "too short"
  const PERSONAL := "no personal identifiers"
  const BAD_REQUEST := "bad request"

  /** `sanitize`: trimmed, cut to 120 characters, every white-space run made
      one space. */
  function Sanitize(input: string): string
  {
    Replace(Take(Trim(input), MAX_TEXT), Spaces, " ")
  }

  lemma SanitizeFacts(input: string)
    ensures var r := Sanitize(input);
      && |r| <= MAX_TEXT
      && NoDoubleSpace(r)
      && (forall k :: 0 <= k < |r| && IsSpace(r[k]) ==> r[k] == ' ')
      && (r != [] ==> !IsSpace(r[0]))
      && (r == [] <==> IsBlank(input))
  {
    var t := Trim(input);
    var c := Take(t, MAX_TEXT);
    CollapseFacts(c);
    assert c != [] ==> c[0] == t[0];
  }

  /** `/\d{2,}-\d{2,}/.test(s)`: some hyphen has two digits right before it
      and two right after it. */
  predicate DashedDigits(s: string)
  {
    exists i :: 2 <= i && i + 2 < |s| && IsDigit(s[i - 2]) && IsDigit(s[i - 1]) && s[i] == '-'
      && IsDigit(s[i + 1]) && IsDigit(s[i + 2])
  }

  /** The contact-detail test of `POST`. */
  predicate LooksPersonal(s: string)
  {
    Contains(s, "@") || DashedDigits(s)
  }

  /** The request body as far as `POST` reads it: not JSON, no `text` (or a
      null one), a string `text`, or a `text` that is not a string. */
  datatype Body = Malformed | NoText | Given(value: string) | NotString

  /** What the checks of `POST` decide before anything is stored. */
  datatype Verdict = Accept(text: string) | Refuse(reason: string)

  /** The guards of `POST`, in their order. */
  function Check(body: Body): Verdict
  {
    match body
    case Malformed => Refuse(BAD_REQUEST)
    case NotString => Refuse(BAD_REQUEST)
    case NoText => Refuse(TOO_SHORT)
    case Given(v) =>
      var text := Sanitize(v);
      if |text| < MIN_TEXT then Refuse(TOO_SHORT)
      else if LooksPersonal(text) then Refuse(PERSONAL)
      else Accept(text)
  }

  /** A text is accepted exactly when its sanitised form has at least six
      characters and no contact-like part, and then it is stored as sanitised. */
  lemma CheckFacts(body: Body)
    ensures Check(body).Accept? <==>
      body.Given? && |Sanitize(body.value)| >= MIN_TEXT && !LooksPersonal(Sanitize(body.value))
    ensures Check(body).Accept? ==> Check(body).text == Sanitize(body.value)
    ensures body.Given? && |Sanitize(body.value)| < MIN_TEXT ==> Check(body) == Refuse(TOO_SHORT)
    ensures body.Given? && |Sanitize(body.value)| >= MIN_TEXT && LooksPersonal(Sanitize(body.value)) ==>
      Check(body) == Refuse(PERSONAL)
    ensures body.Malformed? || body.NotString? ==> Check(body) == Refuse(BAD_REQUEST)
  {
  }

  /** An accepted text is between 6 and 120 characters and has neither an
      "@" nor a digit-hyphen-digit run. */
  lemma AcceptedText(body: Body)
    requires Check(body).Accept?
    ensures MIN_TEXT <= |Check(body).text| <= MAX_TEXT
    ensures !Contains(Check(body).text, "@") && !DashedDigits(Check(body).text)
  {
    SanitizeFacts(body.value);
  }

  datatype Reply = Stored(item: Fragment) | Refused(reason: string)

  /** `POST`: a refused text gets status 400 and leaves the store alone; an
      accepted one is added to the store. */
  method Post(store: GateStore, body: Body, id: string, createdAt: string, now: int,
    parse: string -> Option<int>) returns (status: int, reply: Reply)
    modifies store
    ensures Check(body).Refuse? ==>
      status == 400 && reply == Refused(Check(body).reason) && store.disk == old(store.disk)
    ensures Check(body).Accept? ==>
      && status == 200 && reply == Stored(Fragment(id, Check(body).text, createdAt))
      && store.disk == Holds(Prepend(reply.item, Prune(Loaded(old(store.disk)), now, parse)))
  {
    var v := Check(body);
    if v.Refuse? {
      return 400, Refused(v.reason);
    }
    var item := store.AddFragment(v.text, id, createdAt, now, parse);
    return 200, Stored(item);
  }

  /** The limit of `GET`: `Math.min(Number(limit ?? "5"), 30)`, with `number`
      standing for `Number`. */
  function Limit(param: Option<string>, number: string -> Num): Num
  {
    MinNum(if param.None? then Finite(5) else number(param.value), 30)
  }

  /** Without a parameter the limit is 5; it is never more than 30, and a
      limit that is not a negative number gives at most 30 items (a negative
      one slices from the end; see `NegativeLimitPassesCap`). */
  lemma LimitFacts(param: Option<string>, number: string -> Num, items: seq<Fragment>)
    ensures param.None? ==> Limit(param, number) == Finite(5)
    ensures Limit(param, number).Finite? ==> Limit(param, number).v <= 30
    ensures !Limit(param, number).PosInf?
    ensures var n := Limit(param, number);
      n.Finite? && n.v >= 0 ==> |SlicePrefix(items, n)| <= n.v <= 30
    ensures var n := Limit(param, number);
      (n.Finite? && n.v >= 0) || n.NaN? || n.NegInf? ==> |SlicePrefix(items, n)| <= 30
  {
  }

  /** `?limit=-1` on a store of 200 fragments lists 199 of them: the cap of 30
      does not hold for a negative limit, which `slice` counts from the end. */
  lemma NegativeLimitPassesCap(number: string -> Num, items: seq<Fragment>)
    requires number("-1") == Finite(-1)
    requires |items| == 200
    ensures |SlicePrefix(items, Limit(Some("-1"), number))| == 199
  {
  }

  /** The limit clamped at 0 as well as at 30, as the cap evidently intends. */
  function ClampedLimit(param: Option<string>, number: string -> Num): (n: Num)
    ensures n.Finite? ==> 0 <= n.v <= 30
    ensures !n.PosInf?
    ensures param.None? ==> n == Finite(5)
    ensures n != Limit(param, number) ==> Limit(param, number).Finite? && Limit(param, number).v < 0 && n == Finite(0)
  {
    AtLeastZero(Limit(param, number))
  }

  /** With the clamped limit no request lists more than 30 fragments. */
  lemma ClampedLimitBound(param: Option<string>, number: string -> Num, items: seq<Fragment>)
    ensures |SlicePrefix(items, ClampedLimit(param, number))| <= 30
  {
    SliceAtLeastZeroBound(items, Limit(param, number), 30);
  }

  /** `GET`: the first fragments of the pruned store, newest first. */
  method Get(store: GateStore, param: Option<string>, number: string -> Num, now: int,
    parse: string -> Option<int>) returns (items: seq<Fragment>)
    modifies store
    ensures items == SlicePrefix(Prune(Loaded(old(store.disk)), now, parse), Limit(param, number))
    ensures Loaded(store.disk) == Prune(Loaded(old(store.disk)), now, parse)
  {
    var all := store.ReadFragments(now, parse);
    items := SlicePrefix(all, Limit(param, number));
  }
}
