/** The Constraint Forge page: up to five constraints chosen from five fields,
    a pairwise tension score, the domains the choice sacrifices, three
    prompts, and warnings for near-incompatible pairs. */
module ConstraintForge {
  import opened Prelude
  import opened Text

  datatype FieldKey = A | B | C | D | E

  datatype Choice = Choice(field: FieldKey, value: string)

  const MAX_SELECTED: nat := 5
  const MAX_WARNINGS: nat := 5

  function FieldName(f: FieldKey): (r: string)
    ensures |r| == 1
  {
    match f
    case A => "A"
    case B => "B"
    case C => "C"
    case D => "D"
    case E => "E"
  }

  /** `keyFor`: `field::value`. */
  function KeyFor(c: Choice): string
  {
    FieldName(c.field) + "::" + c.value
  }

  /** Two choices have the same key exactly when they are the same choice. */
  lemma KeyForInjective(a: Choice, b: Choice)
    ensures KeyFor(a) == KeyFor(b) <==> a == b
  {
    if KeyFor(a) == KeyFor(b) {
      assert FieldName(a.field) == KeyFor(a)[..1] == KeyFor(b)[..1] == FieldName(b.field);
      assert a.field == b.field;
      assert a.value == KeyFor(a)[3..] == KeyFor(b)[3..] == b.value;
    }
  }

  /** `clamp(n, a, b)`: `Math.max(a, Math.min(b, n))`. */
  function Clamp(n: int, a: int, b: int): (r: int)
    ensures a <= b ==> a <= r <= b
    ensures a <= n <= b ==> r == n
    ensures n < a ==> r == a
    ensures a <= b < n ==> r == b
  {
    var m := if b < n then b else n;
    if a < m then m else a
  }

  /** The field-level base tensions; the key `X:Y` of the page is the pair
      `(X, Y)` here. */
  const BASE: map<(FieldKey, FieldKey), int> :=
    map[(A, C) := 2, (A, E) := 2, (B, C) := 2, (C, D) := 2, (D, E) := 2, (B, E) := 1, (A, D) := 1]

  /** `base[k1] ?? base[k2] ?? 1`. */
  function BaseTension(f: FieldKey, g: FieldKey): int
  {
    if (f, g) in BASE then BASE[(f, g)] else if (g, f) in BASE then BASE[(g, f)] else 1
  }

  /** The base tension does not depend on the order of the fields and is 1
      or 2. */
  lemma BaseTensionFacts(f: FieldKey, g: FieldKey)
    ensures BaseTension(f, g) == BaseTension(g, f)
    ensures BaseTension(f, g) == 1 || BaseTension(f, g) == 2
  {
    match f
    case A => match g { case A => case B => case C => case D => case E => }
    case B => match g { case A => case B => case C => case D => case E => }
    case C => match g { case A => case B => case C => case D => case E => }
    case D => match g { case A => case B => case C => case D => case E => }
    case E => match g { case A => case B => case C => case D => case E => }
  }

  /** One item-level escalation: one value mentions `x` and the other `y`. */
  predicate Collide(v1: string, v2: string, x: string, y: string)
  {
    (Contains(v1, x) && Contains(v2, y)) || (Contains(v2, x) && Contains(v1, y))
  }

  predicate Escalated(v1: string, v2: string)
  {
    || Collide(v1, v2, "adaptive feedback banned", "failure-as-structure")
    || Collide(v1, v2, "post-human persistence", "data cannot be erased")
    || Collide(v1, v2, "decisions cannot be anonymized", "distributed but fixed responsibility")
  }

  /** `pairTension(a, b)`. */
  function PairTension(a: Choice, b: Choice): int
  {
    var t0 := BaseTension(a.field, b.field);
    var v1 := Lower(a.value);
    var v2 := Lower(b.value);
    var t1 := if Collide(v1, v2, "adaptive feedback banned", "failure-as-structure") then 3 else t0;
    var t2 := if Collide(v1, v2, "post-human persistence", "data cannot be erased")
      then (if t1 < 3 then 3 else t1) else t1;
    var t3 := if Collide(v1, v2, "decisions cannot be anonymized", "distributed but fixed responsibility")
      then (if t2 < 3 then 3 else t2) else t2;
    Clamp(t3, 0, 3)
  }

  /** The tension is symmetric, lies in {1, 2, 3}, is 3 exactly when an
      escalation applies, and is the field-level base tension otherwise. */
  lemma PairTensionFacts(a: Choice, b: Choice)
    ensures PairTension(a, b) == PairTension(b, a)
    ensures 1 <= PairTension(a, b) <= 3
    ensures PairTension(a, b) == 3 <==> Escalated(Lower(a.value), Lower(b.value))
    ensures !Escalated(Lower(a.value), Lower(b.value)) ==> PairTension(a, b) == BaseTension(a.field, b.field)
  {
    BaseTensionFacts(a.field, b.field);
  }

  /** The matrix of the page: 0 on the diagonal, the pair tension elsewhere. */
  function Matrix(sel: seq<Choice>): (m: seq<seq<int>>)
    ensures |m| == |sel| && forall i :: 0 <= i < |sel| ==> |m[i]| == |sel|
  {
    seq(|sel|, i requires 0 <= i < |sel| =>
      seq(|sel|, j requires 0 <= j < |sel| => if i == j then 0 else PairTension(sel[i], sel[j])))
  }

  lemma MatrixSymmetric(sel: seq<Choice>, i: nat, j: nat)
    requires i < |sel| && j < |sel|
    ensures Matrix(sel)[i][j] == Matrix(sel)[j][i]
    ensures i == j <==> Matrix(sel)[i][j] == 0
  {
    PairTensionFacts(sel[i], sel[j]);
  }

  /** `selected.map((c) => c.value.toLowerCase()).join(" | ")`. */
  function Joined(sel: seq<Choice>): string
  {
    Join(seq(|sel|, i requires 0 <= i < |sel| => Lower(sel[i].value)), " | ")
  }

  /** The domains a selection can sacrifice; the page shows their names. */
  datatype Domain = Computation | Energy | Capital | Institution

  /** `out.add(x)` on a set kept in insertion order. */
  function AddUnique(out: seq<Domain>, x: Domain): (r: seq<Domain>)
    ensures forall y :: y in r <==> y in out || y == x
    ensures Distinct(out) ==> Distinct(r)
  {
    if x in out then out else out + [x]
  }

  predicate Distinct<T(==)>(s: seq<T>)
  {
    forall i, j :: 0 <= i < j < |s| ==> s[i] != s[j]
  }

  /** The order in which the domains are first added: Computation, then Energy
      and Capital for a long horizon, then Institution, then Energy and Capital
      for cascading failure elimination unless the long horizon already added
      them. */
  function SacrificeOrder(banned: bool, longHorizon: bool, anonym: bool, cascading: bool): seq<Domain>
  {
    (if banned then [Computation] else [])
    + (if longHorizon then [Energy, Capital] else [])
    + (if anonym then [Institution] else [])
    + (if cascading && !longHorizon then [Energy, Capital] else [])
  }

  /** `domainSacrifice(selected)` as `Array.from(out)`: the domains in the
      order they were first added. */
  method DomainSacrifice(sel: seq<Choice>) returns (out: seq<Domain>)
    ensures Distinct(out)
    ensures Computation in out <==> Contains(Joined(sel), "banned")
    ensures var s := Joined(sel);
      var longHorizon := Contains(s, "post-human") || Contains(s, "operational lifetime") || Contains(s, "maintenance");
      (Energy in out <==> longHorizon || Contains(s, "cascading failure elimination"))
      && (Capital in out <==> longHorizon || Contains(s, "cascading failure elimination"))
    ensures Institution in out <==> Contains(Joined(sel), "anonym")
    ensures var s := Joined(sel);
      out == SacrificeOrder(Contains(s, "banned"),
        Contains(s, "post-human") || Contains(s, "operational lifetime") || Contains(s, "maintenance"),
        Contains(s, "anonym"), Contains(s, "cascading failure elimination"))
  {
    var s := Joined(sel);
    out := Sacrifice(Contains(s, "banned"),
      Contains(s, "post-human") || Contains(s, "operational lifetime") || Contains(s, "maintenance"),
      Contains(s, "anonym"), Contains(s, "cascading failure elimination"));
  }

  /** The additions of `domainSacrifice`, given the outcome of each of its
      four text tests. */
  method Sacrifice(banned: bool, longHorizon: bool, anonym: bool, cascading: bool) returns (out: seq<Domain>)
    ensures Distinct(out)
    ensures Computation in out <==> banned
    ensures Energy in out <==> longHorizon || cascading
    ensures Capital in out <==> longHorizon || cascading
    ensures Institution in out <==> anonym
    ensures out == SacrificeOrder(banned, longHorizon, anonym, cascading)
  {
    out := [];
    if banned {
      out := AddUnique(out, Computation);
    }
    ghost var a := out;
    if longHorizon {
      out := AddUnique(out, Energy);
      out := AddUnique(out, Capital);
    }
    assert out == a + (if longHorizon then [Energy, Capital] else []);
    ghost var b := out;
    if anonym {
      out := AddUnique(out, Institution);
    }
    assert out == b + (if anonym then [Institution] else []);
    ghost var c := out;
    assert longHorizon ==> Energy in c && Capital in c;
    if cascading {
      out := AddUnique(out, Energy);
      out := AddUnique(out, Capital);
    }
    assert out == c + (if cascading && !longHorizon then [Energy, Capital] else []);
    assert a == (if banned then [Computation] else []);
    SacrificeOrderFacts(banned, longHorizon, anonym, cascading);
  }

  /** The order lists each domain once, exactly when its tests ask for it. */
  lemma SacrificeOrderFacts(banned: bool, longHorizon: bool, anonym: bool, cascading: bool)
    ensures var r := SacrificeOrder(banned, longHorizon, anonym, cascading);
      && Distinct(r)
      && (Computation in r <==> banned)
      && (Energy in r <==> longHorizon || cascading)
      && (Capital in r <==> longHorizon || cascading)
      && (Institution in r <==> anonym)
  {
    SacrificeOrderDistinct(banned, longHorizon, anonym, cascading);
    var r := SacrificeOrder(banned, longHorizon, anonym, cascading);
    if longHorizon {
      assert r == (if banned then [Computation] else []) + [Energy, Capital] + (if anonym then [Institution] else []);
    } else {
      assert r == (if banned then [Computation] else []) + (if anonym then [Institution] else [])
        + (if cascading then [Energy, Capital] else []);
    }
  }

  /** No domain is added twice. */
  lemma SacrificeOrderDistinct(banned: bool, longHorizon: bool, anonym: bool, cascading: bool)
    ensures Distinct(SacrificeOrder(banned, longHorizon, anonym, cascading))
  {
    var p1 := if banned then [Computation] else [];
    var p2 := if longHorizon then [Energy, Capital] else [];
    var p3 := if anonym then [Institution] else [];
    var p4 := if cascading && !longHorizon then [Energy, Capital] else [];
    DistinctAppend(p1, p2);
    DistinctAppend(p1 + p2, p3);
    DistinctAppend(p1 + p2 + p3, p4);
  }

  /** Two lists without repeats and without a common element join without
      repeats. */
  lemma DistinctAppend<T>(a: seq<T>, b: seq<T>)
    requires Distinct(a) && Distinct(b)
    requires forall x :: x in a ==> x !in b
    ensures Distinct(a + b)
  {
    var r := a + b;
    forall i, j | 0 <= i < j < |r| ensures r[i] != r[j] {
      if j < |a| {
        assert r[i] == a[i] && r[j] == a[j];
      } else if i >= |a| {
        assert r[i] == b[i - |a|] && r[j] == b[j - |a|];
      } else {
        assert r[i] == a[i] && r[j] == b[j - |a|] && a[i] in a;
      }
    }
  }

  predicate HasField(sel: seq<Choice>, f: FieldKey)
  {
    exists i :: 0 <= i < |sel| && sel[i].field == f
  }

  const PROMPT_1A := "What must now exist underground?"
  const PROMPT_1B := "What must now be physically fixed, not operationally maintained?"
  const PROMPT_2A := "What must never depend on incentives or continuous correction?"
  const PROMPT_2B := "What must never be left to optimization or prediction?"
  const PROMPT_3A := "What decision must be made once and never revisited?"
  const PROMPT_3B := "What must become irreversible before anything else begins?"

  /** `autoPrompts(selected)`: exactly three prompts, each chosen by its own
      test. */
  method AutoPrompts(sel: seq<Choice>) returns (prompts: seq<string>)
    ensures |prompts| == 3
    ensures prompts[0] == (if HasField(sel, A) || Contains(Joined(sel), "underground") then PROMPT_1A else PROMPT_1B)
    ensures prompts[1] == (if HasField(sel, C) then PROMPT_2A else PROMPT_2B)
    ensures prompts[2] == (if HasField(sel, E) || Contains(Joined(sel), "record") then PROMPT_3A else PROMPT_3B)
  {
    var s := Joined(sel);
    prompts := [];
    if HasField(sel, A) || Contains(s, "underground") {
      prompts := prompts + [PROMPT_1A];
    } else {
      prompts := prompts + [PROMPT_1B];
    }
    if HasField(sel, C) {
      prompts := prompts + [PROMPT_2A];
    } else {
      prompts := prompts + [PROMPT_2B];
    }
    if HasField(sel, E) || Contains(s, "record") {
      prompts := prompts + [PROMPT_3A];
    } else {
      prompts := prompts + [PROMPT_3B];
    }
    prompts := Take(prompts, 3);
  }

  /** The label under the choice count. */
  function Strictness(count: nat): (r: string)
    ensures count <= 3 <==> r == "Standard strictness"
    ensures count == 4 <==> r == "High strictness"
    ensures count >= 5 <==> r == "Max strictness (few exits remain)"
  {
    if count <= 3 then "Standard strictness"
    else if count == 4 then "High strictness"
    else "Max strictness (few exits remain)"
  }

  /** A pair is near-incompatible when its tension reaches 3. */
  predicate Hot(sel: seq<Choice>, i: nat, j: nat)
    requires i < |sel| && j < |sel|
  {
    PairTension(sel[i], sel[j]) >= 3
  }

  /** `pairTension` as a value. */
  function Tension(): (Choice, Choice) -> int
  {
    (a: Choice, b: Choice) => PairTension(a, b)
  }

  /** The pair test of the `warnings` loops for a tension function. */
  function HotBy(sel: seq<Choice>, tension: (Choice, Choice) -> int): (nat, nat) -> bool
  {
    (i: nat, j: nat) => i < |sel| && j < |sel| && tension(sel[i], sel[j]) >= 3
  }

  /** The pairs `(i, j')` with `i < j' < j` that pass `hot`, in order. */
  function RowPairs(i: nat, j: nat, hot: (nat, nat) -> bool): seq<(nat, nat)>
    decreases j
  {
    if j <= i + 1 then []
    else RowPairs(i, j - 1, hot) + (if hot(i, j - 1) then [(i, j - 1)] else [])
  }

  /** The pairs `i < j < m` with `i < n` that pass `hot`, in the order of the
      two loops. */
  function HotPairs(n: nat, m: nat, hot: (nat, nat) -> bool): seq<(nat, nat)>
  {
    if n == 0 then [] else HotPairs(n - 1, m, hot) + RowPairs(n - 1, m, hot)
  }

  function Message(a: Choice, b: Choice): string
  {
    "Near-incompatible pair: \"" + a.value + "\" × \"" + b.value + "\""
  }

  /** The message of each pair; a pair outside `sel` does not occur. */
  function Messages(sel: seq<Choice>, ps: seq<(nat, nat)>): (r: seq<string>)
    ensures |r| == |ps|
  {
    seq(|ps|, k requires 0 <= k < |ps| =>
      if ps[k].0 < |sel| && ps[k].1 < |sel| then Message(sel[ps[k].0], sel[ps[k].1]) else "")
  }

  lemma MessagesSnoc(sel: seq<Choice>, ps: seq<(nat, nat)>, q: seq<(nat, nat)>)
    ensures Messages(sel, ps + q) == Messages(sel, ps) + Messages(sel, q)
  {
  }

  /** A pair is in row `i` exactly when it passes and its second index is
      in the row's range. */
  lemma {:induction false} RowPairsMeaning(i: nat, j: nat, hot: (nat, nat) -> bool)
    ensures forall p :: p in RowPairs(i, j, hot) <==> p.0 == i && i < p.1 < j && hot(p.0, p.1)
    decreases j
  {
    if j > i + 1 {
      RowPairsMeaning(i, j - 1, hot);
    }
  }

  /** The pairs listed are exactly the passing pairs `i < j < m` with
      `i < n`. */
  lemma {:induction false} HotPairsMeaning(n: nat, m: nat, hot: (nat, nat) -> bool)
    ensures forall p :: p in HotPairs(n, m, hot) <==> p.0 < n && p.0 < p.1 < m && hot(p.0, p.1)
  {
    if n > 0 {
      HotPairsMeaning(n - 1, m, hot);
      RowPairsMeaning(n - 1, m, hot);
      var a, b := HotPairs(n - 1, m, hot), RowPairs(n - 1, m, hot);
      forall p ensures p in a + b <==> p in a || p in b {
      }
    }
  }

  /** One more step of the inner loop: the pair `(i, j)` adds its message
      exactly when its tension is 3. */
  lemma WarningsStep(sel: seq<Choice>, tension: (Choice, Choice) -> int, i: nat, j: nat)
    requires i < j < |sel|
    ensures var hot := HotBy(sel, tension);
      Messages(sel, RowPairs(i, j + 1, hot))
      == Messages(sel, RowPairs(i, j, hot))
        + (if tension(sel[i], sel[j]) >= 3 then [Message(sel[i], sel[j])] else [])
  {
    var hot := HotBy(sel, tension);
    var q := if hot(i, j) then [(i, j)] else [];
    assert RowPairs(i, j + 1, hot) == RowPairs(i, j, hot) + q;
    MessagesSnoc(sel, RowPairs(i, j, hot), q);
  }

  /** The outer loop moves on by one finished row. */
  lemma HotPairsStep(sel: seq<Choice>, i: nat, hot: (nat, nat) -> bool)
    ensures Messages(sel, HotPairs(i + 1, |sel|, hot))
      == Messages(sel, HotPairs(i, |sel|, hot)) + Messages(sel, RowPairs(i, |sel|, hot))
  {
    MessagesSnoc(sel, HotPairs(i, |sel|, hot), RowPairs(i, |sel|, hot));
  }

  /** The `warnings` memo: the nested loops over `i < j` push a message for
      every near-incompatible pair, and the first five are kept. */
  method Warnings(sel: seq<Choice>) returns (warns: seq<string>)
    ensures warns == Take(Messages(sel, HotPairs(|sel|, |sel|, HotBy(sel, Tension()))), MAX_WARNINGS)
  {
    warns := WarningsWith(sel, Tension());
  }

  /** The loops of `warnings`, with `pairTension` passed as `tension`. */
  method WarningsWith(sel: seq<Choice>, tension: (Choice, Choice) -> int) returns (warns: seq<string>)
    ensures warns == Take(Messages(sel, HotPairs(|sel|, |sel|, HotBy(sel, tension))), MAX_WARNINGS)
  {
    ghost var hot := HotBy(sel, tension);
    var all: seq<string> := [];
    var i := 0;
    while i < |sel|
      invariant 0 <= i <= |sel|
      invariant all == Messages(sel, HotPairs(i, |sel|, hot))
    {
      all := PushRow(sel, tension, i, all);
      HotPairsStep(sel, i, hot);
      i := i + 1;
    }
    warns := Take(all, MAX_WARNINGS);
  }

  /** The inner loop of `warnings` for row `i`: it pushes the message of every
      later partner whose tension is 3, in order. */
  method PushRow(sel: seq<Choice>, tension: (Choice, Choice) -> int, i: nat, acc: seq<string>)
    returns (out: seq<string>)
    requires i < |sel|
    ensures out == acc + Messages(sel, RowPairs(i, |sel|, HotBy(sel, tension)))
  {
    ghost var hot := HotBy(sel, tension);
    out := acc;
    var j := i + 1;
    assert RowPairs(i, j, hot) == [];
    while j < |sel|
      invariant i + 1 <= j <= |sel|
      invariant out == acc + Messages(sel, RowPairs(i, j, hot))
    {
      WarningsStep(sel, tension, i, j);
      var t := tension(sel[i], sel[j]);
      if t >= 3 {
        out := out + [Message(sel[i], sel[j])];
      }
      j := j + 1;
    }
  }

  /** At most five warnings, each naming a near-incompatible pair `i < j`. */
  lemma WarningsFacts(sel: seq<Choice>, w: string)
    ensures var ws := Take(Messages(sel, HotPairs(|sel|, |sel|, HotBy(sel, Tension()))), MAX_WARNINGS);
      |ws| <= MAX_WARNINGS
      && (w in ws ==> exists i, j :: 0 <= i < j < |sel| && Hot(sel, i, j) && w == Message(sel[i], sel[j]))
  {
    var ps := HotPairs(|sel|, |sel|, HotBy(sel, Tension()));
    var ws := Take(Messages(sel, ps), MAX_WARNINGS);
    if w in ws {
      var k :| 0 <= k < |ws| && ws[k] == w;
      HotPairsMeaning(|sel|, |sel|, HotBy(sel, Tension()));
      assert ps[k] in ps;
      var i, j := ps[k].0, ps[k].1;
      assert Hot(sel, i, j) && w == Message(sel[i], sel[j]);
    }
  }

  /** No two selected choices share a key, and at most five are selected. */
  predicate ValidSelection(sel: seq<Choice>)
  {
    |sel| <= MAX_SELECTED && forall i, j :: 0 <= i < j < |sel| ==> KeyFor(sel[i]) != KeyFor(sel[j])
  }

  function KeyIsNot(key: string): Choice -> bool
  {
    c => KeyFor(c) != key
  }

  predicate Selected(sel: seq<Choice>, key: string)
  {
    exists i :: 0 <= i < |sel| && KeyFor(sel[i]) == key
  }

  /** `toggle(field, value)` on the selection `sel`. */
  function Toggled(sel: seq<Choice>, c: Choice): seq<Choice>
  {
    var key := KeyFor(c);
    if Selected(sel, key) then Filter(sel, KeyIsNot(key))
    else if |sel| >= MAX_SELECTED then sel
    else sel + [c]
  }

  /** Removing by a key that occurs once, at `i`, takes out exactly that entry. */
  lemma {:induction false} FilterKeyOnce(sel: seq<Choice>, key: string, i: nat)
    requires i < |sel| && KeyFor(sel[i]) == key
    requires forall j :: 0 <= j < |sel| && j != i ==> KeyFor(sel[j]) != key
    ensures Filter(sel, KeyIsNot(key)) == sel[..i] + sel[i + 1..]
  {
    var p := KeyIsNot(key);
    var a, t := sel[..i], sel[i + 1..];
    assert sel == a + [sel[i]] + t;
    forall j | 0 <= j < |a| ensures p(a[j]) {
      assert a[j] == sel[j];
    }
    forall k | 0 <= k < |t| ensures p(t[k]) {
      assert t[k] == sel[i + 1 + k];
    }
    FilterAll(a, p);
    FilterAll(t, p);
    FilterSnoc(a, sel[i], p);
    assert Filter(a + [sel[i]], p) == a;
    FilterConcat(a + [sel[i]], t, p);
  }

  /** Toggling keeps a valid selection valid: a selected choice is taken out
      and nothing else changes; a new one is appended unless five are
      selected. */
  lemma ToggledFacts(sel: seq<Choice>, c: Choice)
    requires ValidSelection(sel)
    ensures ValidSelection(Toggled(sel, c))
    ensures Selected(sel, KeyFor(c)) ==> exists i :: 0 <= i < |sel| && sel[i] == c && Toggled(sel, c) == sel[..i] + sel[i + 1..]
    ensures !Selected(sel, KeyFor(c)) && |sel| >= MAX_SELECTED ==> Toggled(sel, c) == sel
    ensures !Selected(sel, KeyFor(c)) && |sel| < MAX_SELECTED ==> Toggled(sel, c) == sel + [c]
  {
    var key := KeyFor(c);
    if Selected(sel, key) {
      var i :| 0 <= i < |sel| && KeyFor(sel[i]) == key;
      KeyForInjective(sel[i], c);
      FilterKeyOnce(sel, key, i);
      RemoveValid(sel, i);
    } else if |sel| < MAX_SELECTED {
      AppendValid(sel, c);
    }
  }

  lemma RemoveValid(sel: seq<Choice>, i: nat)
    requires ValidSelection(sel) && i < |sel|
    ensures ValidSelection(sel[..i] + sel[i + 1..])
  {
    var r := sel[..i] + sel[i + 1..];
    forall a, b | 0 <= a < b < |r| ensures KeyFor(r[a]) != KeyFor(r[b]) {
      var a', b' := if a < i then a else a + 1, if b < i then b else b + 1;
      assert r[a] == sel[a'] && r[b] == sel[b'];
    }
  }

  lemma AppendValid(sel: seq<Choice>, c: Choice)
    requires ValidSelection(sel) && |sel| < MAX_SELECTED && !Selected(sel, KeyFor(c))
    ensures ValidSelection(sel + [c])
  {
    var r := sel + [c];
    forall a, b | 0 <= a < b < |r| ensures KeyFor(r[a]) != KeyFor(r[b]) {
      if b == |sel| {
        assert r[a] == sel[a];
      }
    }
  }

  /** The page state: the selected choices. */
  class Forge {
    var selected: seq<Choice>

    constructor()
      ensures selected == []
    {
      selected := [];
    }

    predicate Valid()
      reads this
    {
      ValidSelection(selected)
    }

    method Toggle(field: FieldKey, value: string)
      modifies this
      requires Valid()
      ensures Valid()
      ensures selected == Toggled(old(selected), Choice(field, value))
    {
      var nextKey := KeyFor(Choice(field, value));
      ToggledFacts(selected, Choice(field, value));
      var found := Selected(selected, nextKey);
      if found {
        selected := Filter(selected, KeyIsNot(nextKey));
        return;
      }
      if |selected| >= MAX_SELECTED {
        return;
      }
      selected := selected + [Choice(field, value)];
    }

    /** Three or more choices open the deeper part of the page. */
    function CanEnterDeep(): (r: bool)
      reads this
      ensures r <==> |selected| >= 3
    {
      |selected| >= 3
    }
  }
}
