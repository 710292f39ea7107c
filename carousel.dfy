/** The science-and-technology card of the home page: it loads the merged
    headlines once, shows one of them with a shortened summary, and steps
    through them in a ring. */
module ScienceTechHome {
  import opened Prelude
  import opened Text
  import Feeds

  datatype Item = Item(source: string, title: string, url: string, date: string, summary: string)

  const DEFAULT_MAX: int := 160
  const SUMMARY_MAX: int := 220
  const ELLIPSIS := "\U{2026}"
  const NO_SUMMARY := "Open to read the latest update \U{2192}"

  /** `clamp(input, max)`: the trimmed text; "" when that is empty; cut at
      `max` and then before its last partial word, with an ellipsis, when it
      is longer. */
  function Clamp(input: string, max: int): (r: string)
    ensures r == "" <==> IsBlank(input)
    ensures !IsBlank(input) && |Trim(input)| <= max ==> r == Trim(input)
    ensures 0 <= max < |Trim(input)| ==>
      && |r| <= max + 1 && r[|r| - 1] == ELLIPSIS[0]
      && r[..|r| - 1] <= Trim(input)[..max]
  {
    var s := Trim(input);
    if s == "" then ""
    else if |s| <= max then s
    else
      Feeds.ClampFacts(input, max);
      DropLastWord(SlicePrefix(s, Finite(max))) + ELLIPSIS
  }

  /** Apart from the explicit test for an empty text, this is the `clamp`
      of the feed reader: the two agree whenever the limit is not negative or
      the text is not blank. */
  lemma ClampAgrees(input: string, max: int)
    requires max >= 0 || !IsBlank(input)
    ensures Clamp(input, max) == Feeds.Clamp(input, max)
  {
  }

  /** The summary line of the card. */
  function SummaryLine(summary: string): (r: string)
    ensures r != ""
    ensures IsBlank(summary) ==> r == NO_SUMMARY
    ensures !IsBlank(summary) ==> r == Clamp(summary, SUMMARY_MAX)
  {
    var c := Clamp(summary, SUMMARY_MAX);
    if c != "" then c else NO_SUMMARY
  }

  /** `next`: one item on, from the last back to the first; 0 with no items. */
  function NextIdx(v: int, n: nat): (r: int)
    requires v >= 0
    ensures n == 0 ==> r == 0
    ensures n > 0 ==> 0 <= r < n
    ensures n > 0 && v + 1 < n ==> r == v + 1
    ensures n > 0 && v == n - 1 ==> r == 0
  {
    if n > 0 then (v + 1) % n else 0
  }

  /** `prev`: one item back, from the first to the last; 0 with no items.
      The operand of `%` is never negative here, so the remainder of the
      platform and Dafny's agree. */
  function PrevIdx(v: int, n: nat): (r: int)
    requires v >= 0
    ensures n == 0 ==> r == 0
    ensures n > 0 ==> 0 <= r < n
    ensures n > 0 && 0 < v < n ==> r == v - 1
    ensures n > 0 && v == 0 ==> r == n - 1
  {
    if n > 0 then (v - 1 + n) % n else 0
  }

  /** Back then forward, or forward then back, returns to the same item. */
  lemma PrevNextInverse(v: int, n: nat)
    requires 0 <= v < n
    ensures PrevIdx(NextIdx(v, n), n) == v
    ensures NextIdx(PrevIdx(v, n), n) == v
  {
  }

  /** The card: the loaded items, the shown one, and whether the load is
      still running. */
  class Card {
    var items: seq<Item>
    var idx: int
    var loading: bool

    /** The shown index is never negative and is an item whenever there are
        items. */
    predicate Valid()
      reads this
    {
      idx >= 0 && (items != [] ==> idx < |items|)
    }

    constructor()
      ensures items == [] && idx == 0 && loading && Valid()
    {
      items := [];
      idx := 0;
      loading := true;
    }

    /** The item shown, when there is one. */
    function Current(): (r: Option<Item>)
      reads this
      requires Valid()
      ensures r.Some? <==> items != []
      ensures r.Some? ==> r.value in items
    {
      if items == [] then None else Some(items[idx])
    }

    /** The end of the load: a good answer (`Some`) replaces the items and
        shows the first; a failed one (`None`: a bad status, no `items`, or a
        throw) empties the list and leaves `idx` as it was. */
    method Loaded(answer: Option<seq<Item>>)
      requires Valid()
      modifies this
      ensures !loading && Valid()
      ensures answer.Some? ==> items == answer.value && idx == 0
      ensures answer.None? ==> items == [] && idx == old(idx)
    {
      if answer.Some? {
        items := answer.value;
        idx := 0;
      } else {
        items := [];
      }
      loading := false;
    }

    method Next()
      requires Valid()
      modifies this
      ensures Valid() && items == old(items) && loading == old(loading)
      ensures idx == NextIdx(old(idx), |items|)
    {
      idx := NextIdx(idx, |items|);
    }

    method Prev()
      requires Valid()
      modifies this
      ensures Valid() && items == old(items) && loading == old(loading)
      ensures idx == PrevIdx(old(idx), |items|)
    {
      idx := PrevIdx(idx, |items|);
    }

    /** A dot: show item `i`. */
    method Select(i: nat)
      requires Valid() && i < |items|
      modifies this
      ensures Valid() && items == old(items) && loading == old(loading) && idx == i
    {
      idx := i;
    }
  }
}
