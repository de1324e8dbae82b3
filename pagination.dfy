/**
 * The pagination of the settlement-type table: which rows a page shows, how
 * many pages there are, which page controls are rendered, and how a click on a
 * control moves the current page. The DOM is left out: the rendered controls
 * are a sequence of Control values.
 */
module Pagination {

  const RowsPerPage := 5
  const PageLimit := 10

  function Max(a: int, b: int): int { if a >= b then a else b }
  function Min(a: int, b: int): int { if a <= b then a else b }

  /** An index argument of Array.prototype.slice: negative counts from the end, and the
      result is clamped to [0, len]. */
  function SliceIndex(i: int, len: nat): (r: nat)
    ensures r <= len
    ensures 0 <= i <= len ==> r == i
    ensures i > len ==> r == len
    ensures i < 0 ==> r == Max(len + i, 0)
  {
    if i < 0 then (if len + i < 0 then 0 else len + i)
    else if i > len then len
    else i
  }

  /** Array.prototype.slice(start, end). */
  function JsSlice<T>(s: seq<T>, start: int, end: int): seq<T>
  {
    var b := SliceIndex(start, |s|);
    var e := SliceIndex(end, |s|);
    if e <= b then [] else s[b..e]
  }

  /** renderTable(page): the rows from (page - 1) * rowsPerPage, at most rowsPerPage of them. */
  function PageRows<T>(data: seq<T>, page: int): seq<T>
  {
    var start := (page - 1) * RowsPerPage;
    JsSlice(data, start, start + RowsPerPage)
  }

  /** Page p >= 1 shows the rows with indices in [(p - 1) * 5, (p - 1) * 5 + 5), clipped to
      the data. */
  lemma PageRowsWindow<T>(data: seq<T>, page: int)
    requires page >= 1
    ensures var start := (page - 1) * RowsPerPage;
            var r := PageRows(data, page);
            && |r| == Max(0, Min(RowsPerPage, |data| - start))
            && forall k :: 0 <= k < |r| ==> r[k] == data[start + k]
  {
  }

  /** Every row is shown on page i / 5 + 1, at position i % 5. */
  lemma RowOnItsPage<T>(data: seq<T>, i: nat)
    requires i < |data|
    ensures var r := PageRows(data, i / RowsPerPage + 1);
            i % RowsPerPage < |r| && r[i % RowsPerPage] == data[i]
  {
    PageRowsWindow(data, i / RowsPerPage + 1);
  }

  /** Math.ceil(n / rowsPerPage). */
  function TotalPages(n: nat): (r: nat)
    ensures r * RowsPerPage >= n
    ensures r == 0 || (r - 1) * RowsPerPage < n
  {
    (n + RowsPerPage - 1) / RowsPerPage
  }

  /** The numbered pages shown: startPage..endPage. */
  datatype Window = Window(startPage: int, endPage: int)

  /** startPage and endPage of renderPagination: centred on the current page, then moved
      back when it would run past the last page. */
  function PageWindow(currentPage: int, totalPages: nat): (w: Window)
    ensures w.startPage >= 1
    ensures w.endPage <= totalPages
    ensures w.endPage - w.startPage + 1 <= PageLimit
  {
    var startPage := Max(1, currentPage - PageLimit / 2);
    var endPage := startPage + PageLimit - 1;
    if endPage > totalPages then Window(Max(1, totalPages - PageLimit + 1), totalPages)
    else Window(startPage, endPage)
  }

  /** The window holds min(10, totalPages) pages. */
  lemma WindowSize(currentPage: int, totalPages: nat)
    ensures var w := PageWindow(currentPage, totalPages);
            w.endPage - w.startPage + 1 == Min(PageLimit, totalPages)
  {
  }

  /** A current page within the pages is inside the window. */
  lemma CurrentPageInWindow(currentPage: int, totalPages: nat)
    requires 1 <= currentPage <= totalPages
    ensures var w := PageWindow(currentPage, totalPages);
            w.startPage <= currentPage <= w.endPage
  {
  }

  /** What renderPagination puts in the list: «, the numbered pages with ellipses, ». */
  datatype Control = Previous | PageButton(page: int) | Ellipsis | Next

  /** The numbered buttons lo..hi. */
  function PageButtons(lo: int, hi: int): (r: seq<Control>)
    ensures |r| == Max(0, hi - lo + 1)
    ensures forall k :: 0 <= k < |r| ==> r[k] == PageButton(lo + k)
    decreases hi - lo
  {
    if lo > hi then [] else [PageButton(lo)] + PageButtons(lo + 1, hi)
  }

  /** The leading first page and ellipsis. */
  function Leading(w: Window): seq<Control>
  {
    if w.startPage > 1 then [PageButton(1), Ellipsis] else []
  }

  /** The trailing ellipsis and last page. */
  function Trailing(w: Window, totalPages: nat): seq<Control>
  {
    if w.endPage < totalPages then [Ellipsis, PageButton(totalPages)] else []
  }

  /** The controls in rendering order. */
  function Controls(currentPage: int, totalPages: nat): seq<Control>
  {
    var w := PageWindow(currentPage, totalPages);
    [Previous] + Leading(w) + PageButtons(w.startPage, w.endPage) + Trailing(w, totalPages) + [Next]
  }

  /** The loop of renderPagination that appends one button per page of the window. */
  method NumberedButtons(startPage: int, endPage: int) returns (buttons: seq<Control>)
    ensures buttons == PageButtons(startPage, endPage)
  {
    buttons := [];
    var i := startPage;
    while i <= endPage
      invariant startPage <= i <= Max(startPage, endPage + 1)
      invariant buttons == PageButtons(startPage, i - 1)
      decreases endPage - i
    {
      ButtonsSnoc(startPage, i - 1);
      buttons := buttons + [PageButton(i)];
      i := i + 1;
    }
  }

  /** renderPagination, without the DOM. */
  method RenderPagination(currentPage: int, totalPages: nat) returns (controls: seq<Control>)
    ensures controls == Controls(currentPage, totalPages)
  {
    var startPage := Max(1, currentPage - PageLimit / 2);
    var endPage := startPage + PageLimit - 1;
    if endPage > totalPages {
      endPage := totalPages;
      startPage := Max(1, endPage - PageLimit + 1);
    }
    ghost var w := Window(startPage, endPage);
    assert w == PageWindow(currentPage, totalPages);
    controls := [Previous];
    if startPage > 1 {
      controls := controls + [PageButton(1), Ellipsis];
    }
    var buttons := NumberedButtons(startPage, endPage);
    controls := controls + buttons;
    if endPage < totalPages {
      controls := controls + [Ellipsis, PageButton(totalPages)];
    }
    controls := controls + [Next];
  }

  /** Extending the numbered buttons by one at the end. */
  lemma ButtonsSnoc(lo: int, hi: int)
    requires lo <= hi + 1
    ensures PageButtons(lo, hi + 1) == PageButtons(lo, hi) + [PageButton(hi + 1)]
  {
  }

  /** The first page and an ellipsis follow « exactly when the window starts after page 1. */
  lemma LeadingEllipsisIff(currentPage: int, totalPages: nat)
    ensures var c := Controls(currentPage, totalPages);
            (|c| > 2 && c[1] == PageButton(1) && c[2] == Ellipsis) <==> PageWindow(currentPage, totalPages).startPage > 1
  {
    var w := PageWindow(currentPage, totalPages);
    var c := Controls(currentPage, totalPages);
    var b := PageButtons(w.startPage, w.endPage);
    WindowSize(currentPage, totalPages);
    if w.startPage == 1 && |b| > 0 {
      assert c[1] == b[0];
      if |b| > 1 {
        assert c[2] == b[1];
      } else {
        assert w.endPage == totalPages;
        assert c[2] == Next;
      }
    }
  }

  /** An ellipsis and the last page precede » exactly when the window ends before the last page. */
  lemma TrailingEllipsisIff(currentPage: int, totalPages: nat)
    ensures var c := Controls(currentPage, totalPages);
            (|c| > 2 && c[|c| - 3] == Ellipsis && c[|c| - 2] == PageButton(totalPages)) <==>
              PageWindow(currentPage, totalPages).endPage < totalPages
  {
    var w := PageWindow(currentPage, totalPages);
    var c := Controls(currentPage, totalPages);
    var b := PageButtons(w.startPage, w.endPage);
    var pre := [Previous] + Leading(w);
    WindowSize(currentPage, totalPages);
    if w.endPage == totalPages && |b| > 0 {
      assert c == pre + b + [Next];
      assert c[|c| - 2] == b[|b| - 1];
      if |b| > 1 {
        assert c[|c| - 3] == b[|b| - 2];
      } else {
        assert c[|c| - 3] == pre[|pre| - 1];
      }
    }
  }

  /** Every numbered button shows a page between 1 and totalPages. */
  lemma ButtonsWithinPages(currentPage: int, totalPages: nat)
    ensures forall k :: 0 <= k < |Controls(currentPage, totalPages)| && Controls(currentPage, totalPages)[k].PageButton? ==>
              1 <= Controls(currentPage, totalPages)[k].page <= totalPages
  {
    var w := PageWindow(currentPage, totalPages);
    var c := Controls(currentPage, totalPages);
    var lead := Leading(w);
    var b := PageButtons(w.startPage, w.endPage);
    var trail := Trailing(w, totalPages);
    assert c == [Previous] + lead + b + trail + [Next];
    forall k | 0 <= k < |c| && c[k].PageButton? ensures 1 <= c[k].page <= totalPages {
      if 1 <= k < 1 + |lead| {
        assert c[k] == lead[k - 1];
      } else if 1 + |lead| <= k < 1 + |lead| + |b| {
        assert c[k] == b[k - 1 - |lead|];
      } else if 1 + |lead| + |b| <= k < 1 + |lead| + |b| + |trail| {
        assert c[k] == trail[k - 1 - |lead| - |b|];
      }
    }
  }

  /** The click handler: « steps back above page 1, » steps forward below the last page, a
      numbered button jumps to its page, and anything else (ellipsis, a disabled arrow)
      changes nothing. */
  function NextPage(currentPage: int, totalPages: nat, control: Control): int
  {
    match control
    case Previous => if currentPage > 1 then currentPage - 1 else currentPage
    case Next => if currentPage < totalPages then currentPage + 1 else currentPage
    case PageButton(p) => p
    case Ellipsis => currentPage
  }

  /** The pages the current page may be on: 1..totalPages, or 1 when there are none. */
  predicate InRange(currentPage: int, totalPages: nat)
  {
    1 <= currentPage <= Max(1, totalPages)
  }

  /** A click on a rendered control keeps the current page in range. */
  lemma ClickKeepsInRange(currentPage: int, totalPages: nat, control: Control)
    requires InRange(currentPage, totalPages)
    requires control in Controls(currentPage, totalPages)
    ensures InRange(NextPage(currentPage, totalPages, control), totalPages)
  {
    if control.PageButton? {
      var k :| 0 <= k < |Controls(currentPage, totalPages)| && Controls(currentPage, totalPages)[k] == control;
      ButtonsWithinPages(currentPage, totalPages);
    }
  }

  /** « then » from a page above 1 returns to it, and so does » then « from a page
      below the last. */
  lemma ArrowsUndo(currentPage: int, totalPages: nat)
    ensures 1 < currentPage <= totalPages ==>
              NextPage(NextPage(currentPage, totalPages, Previous), totalPages, Next) == currentPage
    ensures 1 <= currentPage < totalPages ==>
              NextPage(NextPage(currentPage, totalPages, Next), totalPages, Previous) == currentPage
  {
  }

  /** The table page state: the rows (tableData) and the module-level currentPage. */
  class Pager<T> {
    const tableData: seq<T>
    var currentPage: int

    ghost predicate Valid()
      reads this
    {
      InRange(currentPage, TotalPages(|tableData|))
    }

    /** The page starts at 1. */
    constructor (data: seq<T>)
      ensures tableData == data && currentPage == 1
      ensures Valid()
    {
      tableData := data;
      currentPage := 1;
    }

    /** renderTable(currentPage). */
    method RenderTable() returns (rows: seq<T>)
      ensures rows == PageRows(tableData, currentPage)
    {
      var start := (currentPage - 1) * RowsPerPage;
      var end := start + RowsPerPage;
      rows := JsSlice(tableData, start, end);
    }

    /** renderPagination for the current state. */
    method Render() returns (controls: seq<Control>)
      ensures controls == Controls(currentPage, TotalPages(|tableData|))
    {
      controls := RenderPagination(currentPage, TotalPages(|tableData|));
    }

    /** The click handler of a rendered control. */
    method Click(control: Control)
      requires Valid()
      requires control in Controls(currentPage, TotalPages(|tableData|))
      modifies this
      ensures currentPage == NextPage(old(currentPage), TotalPages(|tableData|), control)
      ensures Valid()
    {
      var totalPages := TotalPages(|tableData|);
      ClickKeepsInRange(currentPage, totalPages, control);
      match control {
        case Previous =>
          if currentPage > 1 {
            currentPage := currentPage - 1;
          }
        case Next =>
          if currentPage < totalPages {
            currentPage := currentPage + 1;
          }
        case PageButton(p) =>
          currentPage := p;
        case Ellipsis =>
      }
    }
  }
}
