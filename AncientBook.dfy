/**
 * The paged book (src/components/ancient-book.tsx).
 *
 * `n` pages are shown as `ceil(n / 2)` two-page spreads. A cursor names the
 * current spread; a turn locks the book until its animation ends. A forward
 * turn moves the cursor when the animation ends, a backward turn moves it at
 * once. The pages each spread renders are plain index arithmetic: as written,
 * spread `i` shows page `2i - 1` on its left and page `2i` on its right, which
 * leaves the last page of a book with an even number of pages on no spread
 * at all. The left `2i`, right `2i + 1` layout shows every page once; the
 * book states its current spread in both layouts.
 */
module AncientBook {
  import opened Wrappers

  /** The number of spreads: half the pages, rounded up. */
  function SpreadCount(pageCount: nat): (s: nat)
    ensures 2 * s >= pageCount && 2 * s <= pageCount + 1
    ensures pageCount > 0 ==> s > 0
  {
    (pageCount + 1) / 2
  }

  function Abs(x: int): nat {
    if x < 0 then -x else x
  }

  /** The stacking order of spread `i` when the cursor is on spread `current`. */
  function ZIndex(spreads: nat, current: int, i: int): (z: int)
    ensures 0 <= current < spreads && 0 <= i < spreads ==> 1 <= z <= spreads
    ensures z == spreads <==> i == current
  {
    spreads - Abs(current - i)
  }

  /** Of two spreads, the one nearer the current spread is drawn above the other. */
  lemma NearerSpreadIsAbove(spreads: nat, current: int, i: int, j: int)
    requires Abs(current - i) < Abs(current - j)
    ensures ZIndex(spreads, current, i) > ZIndex(spreads, current, j)
  {
  }

  // ---------------------------------------------------------------------------
  // Which pages the spreads show.
  // ---------------------------------------------------------------------------

  /** The left page of spread `i` as written: the back of the turning leaf. */
  function LeftPageAsWritten(i: int): int {
    2 * i - 1
  }

  /** The right page of spread `i` as written. */
  function RightPageAsWritten(i: int): int {
    2 * i
  }

  /** Page `p` appears on some spread of an `n`-page book, as written. */
  predicate ShownAsWritten(pageCount: nat, p: int) {
    exists i :: 0 <= i < SpreadCount(pageCount) && (p == LeftPageAsWritten(i) || p == RightPageAsWritten(i))
  }

  /** As written, the spreads show exactly the pages 0 to `2 * spreads - 2`. */
  lemma ShownAsWrittenRange(pageCount: nat, p: int)
    requires p >= 0
    ensures ShownAsWritten(pageCount, p) <==> p <= 2 * SpreadCount(pageCount) - 2
  {
    if p <= 2 * SpreadCount(pageCount) - 2 {
      var i := (p + 1) / 2;
      assert p == LeftPageAsWritten(i) || p == RightPageAsWritten(i);
    }
  }

  /** As written, the last page of a book with an even number of pages is on no spread. */
  lemma EvenBookHidesLastPage(pageCount: nat)
    requires pageCount >= 2 && pageCount % 2 == 0
    ensures !ShownAsWritten(pageCount, pageCount - 1)
  {
    ShownAsWrittenRange(pageCount, pageCount - 1);
  }

  /** The six-page demo book never shows its sixth page (index 5). */
  lemma DemoBookHidesSixthPage()
    ensures !ShownAsWritten(6, 5)
  {
    EvenBookHidesLastPage(6);
  }

  /** The left page of spread `i`. */
  function LeftPage(i: int): int {
    2 * i
  }

  /** The right page of spread `i`. */
  function RightPage(i: int): int {
    2 * i + 1
  }

  /** Page `p` appears on some spread of an `n`-page book. */
  predicate Shown(pageCount: nat, p: int) {
    exists i :: 0 <= i < SpreadCount(pageCount) && (p == LeftPage(i) || p == RightPage(i))
  }

  /** Every page of the book is on a spread, and on exactly one: spread `p / 2`. */
  lemma EveryPageShownOnce(pageCount: nat, p: int, i: int)
    requires 0 <= p < pageCount
    ensures Shown(pageCount, p)
    ensures p == LeftPage(i) || p == RightPage(i) <==> i == p / 2
  {
    assert p == LeftPage(p / 2) || p == RightPage(p / 2);
  }

  /**
   * The page on the static left background once the cursor is past the first
   * spread: a page of the book, the one the previous spread showed on its
   * right as written, which is that spread's left page in the corrected layout.
   */
  function BackgroundPage(pageCount: nat, current: int): (p: int)
    requires 0 < current < SpreadCount(pageCount)
    ensures 0 <= p < pageCount
    ensures ShownAsWritten(pageCount, p) && Shown(pageCount, p)
    ensures p == RightPageAsWritten(current - 1) && p == LeftPage(current - 1)
  {
    assert RightPageAsWritten(current - 1) == LeftPage(current - 1) == (current - 1) * 2;
    (current - 1) * 2
  }

  /** The page number in the counter under the buttons: the left page of the current spread, counting from one. */
  function PageNumber(current: int): int {
    current * 2 + 1
  }

  // ---------------------------------------------------------------------------
  // The book.
  // ---------------------------------------------------------------------------

  datatype TurnDirection = Forward | Backward

  class Book {
    const pageCount: nat
    var currentPage: int
    var turning: Option<TurnDirection>

    function LastSpread(): int {
      SpreadCount(pageCount) - 1
    }

    /** The cursor is a spread of the book (0 for an empty book), and a forward turn has a spread to go to. */
    ghost predicate Valid()
      reads this`currentPage, this`turning
    {
      && 0 <= currentPage
      && (currentPage == 0 || currentPage <= LastSpread())
      && (turning == Some(Forward) ==> currentPage < LastSpread())
    }

    constructor (pageCount: nat)
      ensures Valid()
      ensures this.pageCount == pageCount && currentPage == 0 && turning == None
    {
      this.pageCount := pageCount;
      currentPage := 0;
      turning := None;
    }

    /** The two buttons: each enabled when no turn is running and there is a spread to go to. */
    predicate TurnEnabled(direction: TurnDirection)
      reads this`currentPage, this`turning
    {
      turning.None? && if direction == Forward then currentPage < LastSpread() else currentPage > 0
    }

    /**
     * A turn request: ignored while a turn is running or when there is no
     * spread that way. A forward turn only starts the animation; a backward
     * turn moves the cursor back at once.
     */
    method TurnPage(direction: TurnDirection) returns (accepted: bool)
      requires Valid()
      modifies this`currentPage, this`turning
      ensures Valid()
      ensures accepted <==> old(TurnEnabled(direction))
      ensures !accepted ==> currentPage == old(currentPage) && turning == old(turning)
      ensures accepted ==> turning == Some(direction)
      ensures accepted && direction == Forward ==> currentPage == old(currentPage)
      ensures accepted && direction == Backward ==> currentPage == old(currentPage) - 1
    {
      if turning.Some? {
        return false;
      }
      if direction == Forward && currentPage < LastSpread() {
        turning := Some(Forward);
        accepted := true;
      } else if direction == Backward && currentPage > 0 {
        turning := Some(Backward);
        currentPage := currentPage - 1;
        accepted := true;
      } else {
        accepted := false;
      }
    }

    /** The animation timer ends: a forward turn now moves the cursor by one; the book unlocks. */
    method FinishTurn()
      requires Valid()
      modifies this`currentPage, this`turning
      ensures Valid()
      ensures turning == None
      ensures currentPage == if old(turning) == Some(Forward) then old(currentPage) + 1 else old(currentPage)
    {
      if turning == Some(Forward) {
        currentPage := currentPage + 1;
      }
      turning := None;
    }

    /** The static background page, shown only once the cursor is past the first spread. */
    function Background(): (r: Option<int>)
      reads this`currentPage, this`turning
      requires Valid()
      ensures r.Some? <==> currentPage > 0
      ensures r.Some? ==> 0 <= r.value < pageCount
    {
      if currentPage > 0 then Some(BackgroundPage(pageCount, currentPage)) else None
    }

    /**
     * The pages of the current spread as written: the left one exists only
     * past the first spread, and the right one is the page the counter names.
     */
    function CurrentPagesAsWritten(): (pages: (int, int))
      reads this`currentPage, this`turning
      requires Valid()
      ensures pages.1 == pages.0 + 1
      ensures 0 <= pages.0 <==> currentPage > 0
      ensures pageCount > 0 ==> 0 <= pages.1 < pageCount && pages.1 == PageNumber(currentPage) - 1
    {
      (LeftPageAsWritten(currentPage), RightPageAsWritten(currentPage))
    }

    /**
     * The pages of the current spread in the corrected layout: the left page
     * is a page of the book and the one the counter names; the right page is
     * missing only on the last spread of a book with an odd number of pages.
     */
    function CurrentPages(): (pages: (int, int))
      reads this`currentPage, this`turning
      requires Valid()
      ensures pages.1 == pages.0 + 1
      ensures pageCount > 0 ==> 0 <= pages.0 < pageCount
      ensures pages.0 == PageNumber(currentPage) - 1
      ensures pageCount > 0 ==> pages.1 < pageCount || (pageCount % 2 == 1 && currentPage == LastSpread())
    {
      (LeftPage(currentPage), RightPage(currentPage))
    }

    /** The counter never names a page past the end of a non-empty book. */
    lemma PageNumberInRange()
      requires Valid()
      requires pageCount > 0
      ensures 1 <= PageNumber(currentPage) <= pageCount
    {
    }

    /** An empty book stays on its first spread, and its counter reads page 1 of 0. */
    lemma EmptyBookCounter()
      requires Valid()
      requires pageCount == 0
      ensures currentPage == 0 && PageNumber(currentPage) == 1 && PageNumber(currentPage) > pageCount
    {
    }
  }
}
