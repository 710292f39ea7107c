/** The home page book: one page is shown at a time, and keys, swipes, wheel
    turns, dots and arrows move to another page, remembering whether the
    last move went forward or back. */
module HomePager {
  import opened Prelude

  datatype Dir = Next | Prev

  /** `clamp(n)`: `Math.max(0, Math.min(n, count - 1))`. */
  function Clamp(n: int, count: nat): (r: int)
    ensures count >= 1 ==> 0 <= r < count
    ensures count == 0 ==> r == 0
    ensures 0 <= n < count ==> r == n
    ensures count >= 1 && n < 0 ==> r == 0
    ensures count >= 1 && n >= count ==> r == count - 1
  {
    Max(0, Min(n, count - 1))
  }

  function Max(a: int, b: int): int
  {
    if a >= b then a else b
  }

  function Min(a: int, b: int): int
  {
    if a <= b then a else b
  }

  /** Clamping an index already clamped changes nothing. */
  lemma ClampIdempotent(n: int, count: nat)
    ensures Clamp(Clamp(n, count), count) == Clamp(n, count)
  {
  }

  /** The keys the page listens to. */
  datatype Key = ArrowRight | ArrowLeft | OtherKey

  /** A horizontal swipe: the move is wider than it is tall and wider than
      40 pixels. Pointer positions are fractional pixels. */
  predicate IsSwipe(dx: real, dy: real)
  {
    Abs(dx) > Abs(dy) && Abs(dx) > 40.0
  }

  function Abs(x: real): (r: real)
    ensures r >= 0.0 && (r == x || r == -x)
  {
    if x < 0.0 then -x else x
  }

  /** A wheel turn this small is ignored. */
  predicate WheelIgnored(deltaY: real)
  {
    Abs(deltaY) < 8.0
  }

  /** The direction after a move from page `i0` with direction `d0` to page
      `i1` with direction `d1`: kept when the page stays, otherwise forward
      exactly when the page number grew. */
  predicate Turned(i0: int, d0: Dir, i1: int, d1: Dir)
  {
    && (i1 == i0 ==> d1 == d0)
    && (i1 != i0 ==> (d1 == Next <==> i1 > i0))
  }

  /** Page `i` is rendered only next to the current page. */
  predicate Rendered(i: int, index: int)
  {
    i == index || i == index - 1 || i == index + 1
  }

  /** The class names of a rendered page, in the order of the `cls` list
      once the empty names are filtered out. */
  function PageClasses(i: int, index: int, dir: Dir): (r: seq<string>)
    requires Rendered(i, index)
    ensures 2 <= |r| <= 3 && r[0] == "hp-page"
    ensures ("is-active" in r <==> i == index) && ("is-prev" in r <==> i == index - 1)
    ensures "is-next" in r <==> i == index + 1
    ensures ("dir-next" in r <==> i == index && dir == Next) && ("dir-prev" in r <==> i == index && dir == Prev)
  {
    if i == index then ["hp-page", "is-active", if dir == Next then "dir-next" else "dir-prev"]
    else if i == index - 1 then ["hp-page", "is-prev"]
    else ["hp-page", "is-next"]
  }

  /** Only the current page and its two neighbours are rendered. */
  lemma RenderWindow(index: int, i: int)
    ensures Rendered(i, index) <==> index - 1 <= i <= index + 1
  {
  }

  /** The state of the pager: the number of pages, the current page, the
      direction of the last move and the start of a touch. */
  class Pager {
    const count: nat
    var index: int
    var dir: Dir
    var touch: Option<(real, real)>

    /** The current page is a page, or 0 when there are none. */
    predicate Valid()
      reads this
    {
      if count == 0 then index == 0 else 0 <= index < count
    }

    constructor(pages: nat)
      ensures count == pages && index == 0 && dir == Next && touch == None
      ensures Valid()
    {
      count := pages;
      index := 0;
      dir := Next;
      touch := None;
    }

    /** `go(target)`: moving to the current page changes nothing; any other
        move sets the index to the clamped target and the direction by
        whether it went forward. */
    method Go(target: int)
      requires Valid()
      modifies this
      ensures Valid() && touch == old(touch)
      ensures Clamp(target, count) == old(index) ==> index == old(index) && dir == old(dir)
      ensures Clamp(target, count) != old(index) ==>
        && index == Clamp(target, count)
        && (dir == Next <==> index > old(index))
      ensures Turned(old(index), old(dir), index, dir)
    {
      var n := Clamp(target, count);
      if n == index {
        return;
      }
      dir := if n > index then Next else Prev;
      index := n;
    }

    /** The key handler: the right arrow goes forward and the left arrow
        back. */
    method OnKey(key: Key)
      requires Valid()
      modifies this
      ensures Valid() && touch == old(touch)
      ensures key == OtherKey ==> index == old(index) && dir == old(dir)
      ensures key == ArrowRight ==> index == Clamp(old(index) + 1, count)
      ensures key == ArrowLeft ==> index == Clamp(old(index) - 1, count)
      ensures Turned(old(index), old(dir), index, dir)
    {
      if key == ArrowRight {
        Go(index + 1);
      }
      if key == ArrowLeft {
        Go(index - 1);
      }
    }

    /** `onTouchStart`: remember where the touch began. */
    method OnTouchStart(x: real, y: real)
      modifies this
      ensures touch == Some((x, y)) && index == old(index) && dir == old(dir)
    {
      touch := Some((x, y));
    }

    /** `onTouchEnd`: a horizontal swipe to the left goes forward and one to
        the right goes back; any other touch only forgets where it began. */
    method OnTouchEnd(x: real, y: real)
      requires Valid()
      modifies this
      ensures Valid() && touch == None
      ensures old(touch).None? ==> index == old(index) && dir == old(dir)
      ensures old(touch).Some? && !IsSwipe(x - old(touch).value.0, y - old(touch).value.1) ==>
        index == old(index) && dir == old(dir)
      ensures old(touch).Some? && IsSwipe(x - old(touch).value.0, y - old(touch).value.1) ==>
        index == Clamp(if x - old(touch).value.0 < 0.0 then old(index) + 1 else old(index) - 1, count)
      ensures Turned(old(index), old(dir), index, dir)
    {
      if touch.None? {
        return;
      }
      var dx := x - touch.value.0;
      var dy := y - touch.value.1;
      touch := None;
      if IsSwipe(dx, dy) {
        if dx < 0.0 {
          Go(index + 1);
        } else {
          Go(index - 1);
        }
      }
    }

    /** `onWheel`: a turn of less than 8 is ignored; otherwise the default
        scroll is prevented and one page is turned, forward for a positive
        turn. */
    method OnWheel(deltaY: real) returns (prevented: bool)
      requires Valid()
      modifies this
      ensures Valid() && touch == old(touch)
      ensures prevented <==> !WheelIgnored(deltaY)
      ensures WheelIgnored(deltaY) ==> index == old(index) && dir == old(dir)
      ensures !WheelIgnored(deltaY) ==> index == Clamp(if deltaY > 0.0 then old(index) + 1 else old(index) - 1, count)
      ensures Turned(old(index), old(dir), index, dir)
    {
      if WheelIgnored(deltaY) {
        return false;
      }
      prevented := true;
      if deltaY > 0.0 {
        Go(index + 1);
      } else {
        Go(index - 1);
      }
    }
  }

  /** One step moves at most one page. */
  lemma StepByOne(index: int, count: nat, step: int)
    requires (count == 0 && index == 0) || 0 <= index < count
    requires step == 1 || step == -1
    ensures -1 <= Clamp(index + step, count) - index <= 1
  {
  }

  /** The arrows are disabled exactly where they would not move: the left
      one on the first page and the right one on the last. */
  lemma DisabledArrows(index: int, count: nat)
    requires 0 <= index < count
    ensures index == 0 <==> Clamp(index - 1, count) == index
    ensures index == count - 1 <==> Clamp(index + 1, count) == index
  {
  }
}
