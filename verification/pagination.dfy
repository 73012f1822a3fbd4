/** The page-link bar (components/ui/pagination.tsx): which window of at
    most five page numbers is shown around the current page, and which
    "Previous", first-page, ellipsis, last-page and "Next" items appear. The
    two inputs are whatever integers the caller passes. */
module Pagination {

  /** At most this many numbered links are shown in the window. */
  const MAX_PAGES: int := 5

  function Max(a: int, b: int): int { if a >= b then a else b }
  function Min(a: int, b: int): int { if a <= b then a else b }

  datatype PageRange = PageRange(start: int, end: int)

  /** `startPage` and `endPage`: centre the window on the current page,
      clip it at the last page, then slide it back when clipping made it
      shorter than five. */
  function RangeOf(current: int, total: int): (w: PageRange)
    ensures w.start >= 1 && w.end <= total
    ensures w.end - w.start + 1 <= MAX_PAGES
    ensures total >= 1 ==> w.start <= w.end
    ensures total >= MAX_PAGES ==> w.end - w.start + 1 == MAX_PAGES
    ensures 1 <= current <= total ==> w.start <= current <= w.end
  {
    var start := Max(1, current - MAX_PAGES / 2);
    var end := Min(total, start + MAX_PAGES - 1);
    if end - start + 1 < MAX_PAGES then PageRange(Max(1, end - MAX_PAGES + 1), end)
    else PageRange(start, end)
  }

  /** `pages`: the numbers `startPage..endPage`; an empty list when the
      range is empty (a negative array length counts as zero). */
  function Pages(current: int, total: int): (pages: seq<int>)
    ensures var w := RangeOf(current, total);
      |pages| == Max(0, w.end - w.start + 1) &&
      forall i :: 0 <= i < |pages| ==> pages[i] == w.start + i
    ensures |pages| <= MAX_PAGES
    ensures total >= MAX_PAGES ==> |pages| == MAX_PAGES
    ensures forall i :: 0 <= i < |pages| ==> 1 <= pages[i] <= total
    ensures forall i, j :: 0 <= i < j < |pages| ==> pages[i] < pages[j]
  {
    var w := RangeOf(current, total);
    seq(Max(0, w.end - w.start + 1), i requires 0 <= i => w.start + i)
  }

  /** One item of the bar. The first-page and last-page shortcuts are
      links that are never marked active. */
  datatype Item = Previous(target: int) | PageLink(page: int, active: bool) | Ellipsis | Next(target: int)

  function PreviousItems(current: int): seq<Item> {
    if current > 1 then [Previous(current - 1)] else []
  }

  /** The page-1 shortcut appears iff the window starts after page 1, and
      an ellipsis follows it iff the window starts after page 2. */
  function FirstItems(w: PageRange): (r: seq<Item>)
    ensures |r| > 0 <==> w.start > 1
    ensures |r| > 0 ==> r[0] == PageLink(1, false)
    ensures Ellipsis in r <==> w.start > 2
  {
    if w.start > 1 then [PageLink(1, false)] + (if w.start > 2 then [Ellipsis] else []) else []
  }

  function PageItems(pages: seq<int>, current: int): (items: seq<Item>)
    ensures |items| == |pages|
    ensures forall i :: 0 <= i < |items| ==> items[i] == PageLink(pages[i], pages[i] == current)
  {
    seq(|pages|, i requires 0 <= i < |pages| => PageLink(pages[i], pages[i] == current))
  }

  /** The last-page shortcut appears iff the window ends before the last
      page, and an ellipsis precedes it iff the window ends before the
      second-to-last page. */
  function LastItems(w: PageRange, total: int): (r: seq<Item>)
    ensures |r| > 0 <==> w.end < total
    ensures |r| > 0 ==> r[|r| - 1] == PageLink(total, false)
    ensures Ellipsis in r <==> w.end < total - 1
  {
    if w.end < total then (if w.end < total - 1 then [Ellipsis] else []) + [PageLink(total, false)] else []
  }

  function NextItems(current: int, total: int): seq<Item> {
    if current < total then [Next(current + 1)] else []
  }

  /** The rendered bar, left to right. */
  function Render(current: int, total: int): seq<Item> {
    var w := RangeOf(current, total);
    PreviousItems(current) + FirstItems(w) + PageItems(Pages(current, total), current) +
    LastItems(w, total) + NextItems(current, total)
  }

  /** Between the arrows only links and ellipses appear. */
  lemma NoArrowsBetween(current: int, total: int)
    ensures var w := RangeOf(current, total);
      var mid := FirstItems(w) + PageItems(Pages(current, total), current) + LastItems(w, total);
      forall i :: 0 <= i < |mid| ==> !mid[i].Previous? && !mid[i].Next?
  {
  }

  /** "Previous" (to the page before) is in the bar iff the current page
      is past the first; "Next" (to the page after) iff the current page is
      before the last. No other target appears. */
  lemma PreviousAndNext(current: int, total: int)
    ensures Previous(current - 1) in Render(current, total) <==> current > 1
    ensures Next(current + 1) in Render(current, total) <==> current < total
    ensures forall t :: Previous(t) in Render(current, total) ==> t == current - 1
    ensures forall t :: Next(t) in Render(current, total) ==> t == current + 1
  {
    var w := RangeOf(current, total);
    var mid := FirstItems(w) + PageItems(Pages(current, total), current) + LastItems(w, total);
    var pre, post := PreviousItems(current), NextItems(current, total);
    var r := Render(current, total);
    assert r == pre + mid + post;
    NoArrowsBetween(current, total);
    forall t ensures Previous(t) !in mid && Next(t) !in mid {
    }
    forall t | Previous(t) in r ensures t == current - 1 {
      assert Previous(t) in pre;
    }
    forall t | Next(t) in r ensures t == current + 1 {
      assert Next(t) in post;
    }
  }

  /** When the current page is a real page, its link is in the bar and is
      the only active item. */
  lemma {:induction false} CurrentIsActive(current: int, total: int)
    requires 1 <= current <= total
    ensures PageLink(current, true) in Render(current, total)
    ensures forall it :: it in Render(current, total) && it.PageLink? && it.active ==> it == PageLink(current, true)
  {
    var w := RangeOf(current, total);
    var pages := Pages(current, total);
    var items := PageItems(pages, current);
    var r := Render(current, total);
    var before := PreviousItems(current) + FirstItems(w);
    var after := LastItems(w, total) + NextItems(current, total);
    assert r == before + items + after;
    assert items[current - w.start] == PageLink(current, true);
    assert r[|before| + current - w.start] == PageLink(current, true);
    forall it | it in r && it.PageLink? && it.active
      ensures it == PageLink(current, true)
    {
      assert it in before + items || it in after;
      assert it in before || it in items || it in after;
      if it in items {
        var k :| 0 <= k < |items| && items[k] == it;
      }
    }
  }
}
