/**
 * class Grid of src/terminal/Grid.h: one ordered list of lines, the
 * scrollback history first (oldest at the front) and the visible page, the
 * last `height` lines, at the back.
 *
 * Two coordinate spaces address it. An absolute line number counts from 0 at
 * the oldest stored line. A relative line number counts from 1 at the top of
 * the visible page; 0 and below reach back into the scrollback.
 */
module Grids {
  import opened Wrappers
  import Cells
  import Lines

  /** crispy::Size: the page's column count and line count. */
  datatype Size = Size(width: int, height: int)

  /** A 1-based (row, column) position. */
  datatype Coordinate = Coordinate(row: int, column: int)

  /**
   * What render hands its callback at one position: a cell stored in the
   * grid, or a default-constructed blank Cell{} that pads a short line.
   */
  datatype RenderedCell = Stored(cell: Cells.Cell) | Blank

  function Max(a: int, b: int): int {
    if a < b then b else a
  }

  /**
   * One row of the render traversal: the line's cells at columns 1..size,
   * then blanks at columns size+1..width, so max(size, width) positions.
   */
  function RenderRow(cells: seq<Cells.Cell>, row: int, width: int): (r: seq<(Coordinate, RenderedCell)>)
    ensures |r| == Max(|cells|, width)
    ensures forall k :: 0 <= k < |r| ==> r[k].0 == Coordinate(row, k + 1)
    ensures forall k :: 0 <= k < |r| ==> r[k].1 == if k < |cells| then Stored(cells[k]) else Blank
  {
    seq(|cells|, c requires 0 <= c < |cells| => (Coordinate(row, c + 1), Stored(cells[c])))
    + seq(Max(0, width - |cells|), k => (Coordinate(row, |cells| + 1 + k), Blank))
  }

  /** The render traversal over consecutive page rows, numbered from `firstRow`. */
  function RenderRows(page: seq<Lines.Line>, firstRow: int, width: int): (r: seq<(Coordinate, RenderedCell)>)
    reads page
    ensures forall k :: 0 <= k < |r| ==> firstRow <= r[k].0.row < firstRow + |page| && 1 <= r[k].0.column
  {
    if page == [] then []
    else RenderRow(page[0].buffer, firstRow, width) + RenderRows(page[1..], firstRow + 1, width)
  }

  /** Every line of `page` holds exactly `width` cells. */
  ghost predicate Uniform(page: seq<Lines.Line>, width: nat)
    reads page
  {
    forall i :: 0 <= i < |page| ==> |page[i].buffer| == width
  }

  /** Rows of equal width render to exactly width cells each. */
  lemma {:induction false} RenderRowsLength(page: seq<Lines.Line>, firstRow: int, width: nat)
    requires Uniform(page, width)
    ensures |RenderRows(page, firstRow, width)| == |page| * width
  {
    if page != [] {
      RenderRowsLength(page[1..], firstRow + 1, width);
    }
  }

  /** Row i of a row-major layout starts one row's width after row i - 1. */
  lemma RowStart(i: int, width: int)
    ensures i * width == width + (i - 1) * width
  {
  }

  /** Position (i, j) of an n-row, width-column row-major layout is inside it. */
  lemma RowMajorIndexInRange(i: nat, j: nat, n: nat, width: nat)
    requires i < n && j < width
    ensures 0 <= i * width + j < n * width
  {
    assert (i + 1) * width <= n * width by {
      assert n * width == (i + 1) * width + (n - i - 1) * width;
    }
  }

  /**
   * Rows of equal width render in row-major order: position i * width + j holds
   * column j + 1 of row firstRow + i, with the cell stored there.
   */
  lemma {:induction false} RenderRowsRowMajor(page: seq<Lines.Line>, firstRow: int, width: nat, i: nat, j: nat)
    requires Uniform(page, width)
    requires i < |page| && j < width
    ensures 0 <= i * width + j < |RenderRows(page, firstRow, width)|
    ensures RenderRows(page, firstRow, width)[i * width + j]
         == (Coordinate(firstRow + i, j + 1), Stored(page[i].buffer[j]))
  {
    RenderRowsLength(page, firstRow, width);
    RowMajorIndexInRange(i, j, |page|, width);
    var whole := RenderRows(page, firstRow, width);
    var head := RenderRow(page[0].buffer, firstRow, width);
    var rest := RenderRows(page[1..], firstRow + 1, width);
    assert whole == head + rest;
    assert |head| == width;
    if i == 0 {
      assert whole[j] == head[j];
    } else {
      RenderRowsRowMajor(page[1..], firstRow + 1, width, i - 1, j);
      var k := (i - 1) * width + j;
      RowStart(i, width);
      assert whole[width + k] == rest[k];
    }
  }

  /**
   * Where row i of a page starts in the render traversal: the number of
   * positions the rows above it take, each max(size, width).
   */
  function RowOffset(page: seq<Lines.Line>, width: int, i: nat): (s: nat)
    requires i <= |page|
    reads page
  {
    if i == 0 then 0 else Max(|page[0].buffer|, width) + RowOffset(page[1..], width, i - 1)
  }

  /** For rows of any size, the render traversal takes max(size, width) positions per row. */
  lemma {:induction false} RenderRowsSize(page: seq<Lines.Line>, firstRow: int, width: int)
    ensures |RenderRows(page, firstRow, width)| == RowOffset(page, width, |page|)
  {
    if page != [] {
      RenderRowsSize(page[1..], firstRow + 1, width);
    }
  }

  /**
   * The render traversal for rows of any size: position k of row i (k below
   * max(size, width)) holds column k + 1 with the line's k-th cell, or a blank
   * padding cell past the line's end.
   */
  lemma {:induction false} RenderRowsLayout(page: seq<Lines.Line>, firstRow: int, width: int, i: nat, k: nat)
    requires i < |page| && k < Max(|page[i].buffer|, width)
    ensures RowOffset(page, width, i) + k < |RenderRows(page, firstRow, width)|
    ensures RenderRows(page, firstRow, width)[RowOffset(page, width, i) + k]
         == (Coordinate(firstRow + i, k + 1), if k < |page[i].buffer| then Stored(page[i].buffer[k]) else Blank)
  {
    var whole := RenderRows(page, firstRow, width);
    var head := RenderRow(page[0].buffer, firstRow, width);
    var rest := RenderRows(page[1..], firstRow + 1, width);
    assert whole == head + rest;
    if i == 0 {
      assert whole[k] == head[k];
    } else {
      RenderRowsLayout(page[1..], firstRow + 1, width, i - 1, k);
      var j := RowOffset(page[1..], width, i - 1) + k;
      assert whole[|head| + j] == rest[j];
    }
  }

  class Grid {
    var screenSize: Size
    var reflowOnResize: bool
    var maxHistoryLineCount: Option<int>
    /** lines_: scrollback history followed by the visible page. */
    var lines: seq<Lines.Line>

    /** The visible page fits inside the stored lines. */
    ghost predicate HasPage()
      reads this
    {
      0 <= screenSize.height <= |lines|
    }

    /** The page fits, and every line is exactly as wide as the page. */
    ghost predicate Valid()
      reads this, lines
    {
      && HasPage()
      && screenSize.width >= 0
      && Uniform(lines, screenSize.width)
    }

    /** Grid::historyLineCount: the stored lines in front of the visible page. */
    function HistoryLineCount(): (n: int)
      reads this
      ensures HasPage() ==> 0 <= n && n + screenSize.height == |lines|
    {
      |lines| - screenSize.height
    }

    /** Grid::absoluteLineAt: the line at absolute number n, counted from the oldest. */
    function AbsoluteLineAt(n: int): (line: Lines.Line)
      requires 0 <= n <= |lines| - 1
      reads this
      ensures line in lines
    {
      lines[n]
    }

    /** Grid::toAbsoluteLine: relative line number to absolute line number. */
    function ToAbsoluteLine(row: int): (n: int)
      reads this
      ensures 1 - HistoryLineCount() <= row <= screenSize.height <==> 0 <= n < |lines|
      ensures row == 1 ==> n == HistoryLineCount()
    {
      HistoryLineCount() + row - 1
    }

    /**
     * Grid::toRelativeLine as written. It is not the inverse of ToAbsoluteLine:
     * it comes back one row too low.
     */
    function ToRelativeLine(n: int): (row: int)
      reads this
      ensures ToAbsoluteLine(row) == n - 1
    {
      n - HistoryLineCount()
    }

    /** The inverse of ToAbsoluteLine that the layout of the grid calls for. */
    function RelativeLine(n: int): (row: int)
      reads this
      ensures ToAbsoluteLine(row) == n
      ensures 0 <= n < |lines| <==> 1 - HistoryLineCount() <= row <= screenSize.height
    {
      n - HistoryLineCount() + 1
    }

    /**
     * Grid::lineAt: the line at relative number `row`, rows 1..height being the
     * visible page and rows 0 and below the scrollback.
     */
    function LineAt(row: int): (line: Lines.Line)
      requires HasPage()
      requires 1 - HistoryLineCount() <= row <= screenSize.height
      reads this
      ensures line == AbsoluteLineAt(ToAbsoluteLine(row))
      ensures row >= 1 ==> line == MainPage()[row - 1]
      ensures row <= 0 ==> line == ScrollbackLines()[HistoryLineCount() + row - 1]
    {
      lines[HistoryLineCount() + row - 1]
    }

    /**
     * Grid::at: the cell at a relative coordinate. Page rows are found from
     * the back of the list, scrollback rows from the front; both address the
     * same line as LineAt.
     */
    function At(coord: Coordinate): (cell: Cells.Cell)
      requires Valid()
      requires 1 - HistoryLineCount() <= coord.row <= screenSize.height
      requires 1 <= coord.column <= screenSize.width
      reads this, lines
      ensures |LineAt(coord.row).buffer| == screenSize.width
      ensures cell == LineAt(coord.row).buffer[coord.column - 1]
    {
      var n := HistoryLineCount() + coord.row - 1;
      assert LineAt(coord.row) == lines[n];
      assert |lines[n].buffer| == screenSize.width;
      if coord.row > 0 then
        assert |lines| - 1 - (screenSize.height - coord.row) == n;
        lines[|lines| - 1 - (screenSize.height - coord.row)].buffer[coord.column - 1]
      else
        lines[HistoryLineCount() + coord.row - 1].buffer[coord.column - 1]
    }

    /** The const Grid::lines(start, end): the lines from `start` up to `end`, exclusive. */
    function LineRange(start: int, end: int): (r: seq<Lines.Line>)
      requires 0 <= start <= |lines| - 1
      requires start <= end <= |lines| - 1
      reads this
      ensures |r| == end - start
      ensures forall k :: 0 <= k < |r| ==> r[k] == AbsoluteLineAt(start + k)
    {
      lines[start..end]
    }

    /** The mutable Grid::lines(start, end), which may also end at the end of storage. */
    function MutableLineRange(start: int, end: int): (r: seq<Lines.Line>)
      requires 0 <= start <= |lines|
      requires start <= end <= |lines|
      reads this
      ensures |r| == end - start
      ensures forall k :: 0 <= k < |r| ==> r[k] == lines[start + k]
    {
      lines[start..end]
    }

    /**
     * The const Grid::pageAtScrollOffset: one page of `height` lines starting
     * at absolute line `offset`, or the visible page when there is no offset.
     */
    function PageAtScrollOffset(offset: Option<int>): (page: seq<Lines.Line>)
      requires HasPage()
      requires 0 <= offset.GetOr(0) <= HistoryLineCount()
      reads this
      ensures |page| == screenSize.height
      ensures forall k :: 0 <= k < |page| ==> page[k] == AbsoluteLineAt(offset.GetOr(HistoryLineCount()) + k)
    {
      var start := offset.GetOr(HistoryLineCount());
      lines[start..start + screenSize.height]
    }

    /**
     * The mutable Grid::pageAtScrollOffset: unlike the const one it runs from
     * the offset to the end of storage, so the const page is a prefix of it.
     */
    function MutablePageAtScrollOffset(offset: Option<int>): (page: seq<Lines.Line>)
      requires HasPage()
      requires 0 <= offset.GetOr(0) <= HistoryLineCount()
      reads this
      ensures |page| == |lines| - offset.GetOr(HistoryLineCount())
      ensures PageAtScrollOffset(offset) <= page
      ensures offset.None? ==> page == PageAtScrollOffset(offset)
    {
      lines[offset.GetOr(HistoryLineCount())..]
    }

    /** Grid::mainPage: the visible page, the last `height` stored lines. */
    function MainPage(): (page: seq<Lines.Line>)
      requires HasPage()
      reads this
      ensures |page| == screenSize.height
      ensures page == lines[|lines| - screenSize.height..]
    {
      PageAtScrollOffset(None)
    }

    /** The mutable Grid::mainPage: the same lines as the const one. */
    function MutableMainPage(): (page: seq<Lines.Line>)
      requires HasPage()
      reads this
      ensures page == MainPage()
    {
      MutablePageAtScrollOffset(None)
    }

    /** Grid::scrollbackLines: the history, which together with the page is all of storage. */
    function ScrollbackLines(): (history: seq<Lines.Line>)
      requires HasPage()
      reads this
      ensures |history| == HistoryLineCount()
      ensures history + MainPage() == lines
    {
      lines[..HistoryLineCount()]
    }

    /**
     * Grid::render: the (coordinate, cell) pairs the renderer callback receives,
     * row by row over the page at the scroll offset, each row padded with blank
     * cells up to the page width.
     */
    function Render(offset: Option<int>): (r: seq<(Coordinate, RenderedCell)>)
      requires HasPage()
      requires 0 <= offset.GetOr(0) <= HistoryLineCount()
      reads this, lines
      ensures forall k :: 0 <= k < |r| ==> 1 <= r[k].0.row <= screenSize.height && 1 <= r[k].0.column
    {
      RenderRows(PageAtScrollOffset(offset), 1, screenSize.width)
    }
  }

  /**
   * Row k + 1 of the page at scroll offset o is the line at relative number
   * o - historyLineCount + k + 1; with no offset, row k + 1 is LineAt(k + 1).
   */
  lemma PageRowsAreRelativeLines(g: Grid, offset: Option<int>, k: int)
    requires g.HasPage()
    requires 0 <= offset.GetOr(0) <= g.HistoryLineCount()
    requires 0 <= k < g.screenSize.height
    ensures var o := offset.GetOr(g.HistoryLineCount());
            && 1 - g.HistoryLineCount() <= o - g.HistoryLineCount() + k + 1 <= g.screenSize.height
            && g.PageAtScrollOffset(offset)[k] == g.LineAt(o - g.HistoryLineCount() + k + 1)
  {
  }

  /** With no offset the page is the one at offset historyLineCount, the main page. */
  lemma DefaultOffsetIsMainPage(g: Grid)
    requires g.HasPage()
    ensures g.PageAtScrollOffset(None) == g.PageAtScrollOffset(Some(g.HistoryLineCount()))
    ensures g.PageAtScrollOffset(None) == g.MainPage()
  {
  }

  /**
   * On a grid whose lines are as wide as the page, render visits every page
   * position once, row-major: position (row - 1) * width + (column - 1) holds
   * coordinate (row, column) and the cell stored there.
   */
  lemma RenderVisitsPage(g: Grid, offset: Option<int>, row: int, column: int)
    requires g.Valid()
    requires 0 <= offset.GetOr(0) <= g.HistoryLineCount()
    requires 1 <= row <= g.screenSize.height && 1 <= column <= g.screenSize.width
    ensures var r := g.Render(offset);
            var k := (row - 1) * g.screenSize.width + (column - 1);
            && 0 <= k < |r|
            && r[k] == (Coordinate(row, column), Stored(g.PageAtScrollOffset(offset)[row - 1].buffer[column - 1]))
  {
    var page := g.PageAtScrollOffset(offset);
    assert Uniform(page, g.screenSize.width);
    RenderRowsRowMajor(page, 1, g.screenSize.width, row - 1, column - 1);
  }

  /** On a grid whose lines are as wide as the page, render yields width * height cells. */
  lemma RenderLength(g: Grid, offset: Option<int>)
    requires g.Valid()
    requires 0 <= offset.GetOr(0) <= g.HistoryLineCount()
    ensures |g.Render(offset)| == g.screenSize.height * g.screenSize.width
  {
    var page := g.PageAtScrollOffset(offset);
    assert Uniform(page, g.screenSize.width);
    RenderRowsLength(page, 1, g.screenSize.width);
  }

  /**
   * On any grid, lines longer or shorter than the page width included, render
   * visits each page row in turn, taking max(size, width) positions per row.
   */
  lemma RenderSize(g: Grid, offset: Option<int>)
    requires g.HasPage()
    requires 0 <= offset.GetOr(0) <= g.HistoryLineCount()
    ensures var page := g.PageAtScrollOffset(offset);
            |g.Render(offset)| == RowOffset(page, g.screenSize.width, |page|)
  {
    RenderRowsSize(g.PageAtScrollOffset(offset), 1, g.screenSize.width);
  }

  /**
   * On any grid, row `row` of the rendered page starts after the rows above it;
   * its column `column` carries the line's cell there, and a line shorter than
   * the page width is padded with blank cells up to the width.
   */
  lemma RenderPadsShortRows(g: Grid, offset: Option<int>, row: int, column: int)
    requires g.HasPage()
    requires 0 <= offset.GetOr(0) <= g.HistoryLineCount()
    requires 1 <= row <= g.screenSize.height
    requires 1 <= column <= Max(|g.PageAtScrollOffset(offset)[row - 1].buffer|, g.screenSize.width)
    ensures var page := g.PageAtScrollOffset(offset);
            var line := page[row - 1];
            var k := RowOffset(page, g.screenSize.width, row - 1) + column - 1;
            && k < |g.Render(offset)|
            && g.Render(offset)[k]
               == (Coordinate(row, column),
                   if column <= |line.buffer| then Stored(line.buffer[column - 1]) else Blank)
  {
    RenderRowsLayout(g.PageAtScrollOffset(offset), 1, g.screenSize.width, row - 1, column - 1);
  }

  /** On the main page, render's cell at (row, column) is the one Grid::at addresses. */
  lemma RenderAgreesWithAt(g: Grid, row: int, column: int)
    requires g.Valid()
    requires 1 <= row <= g.screenSize.height && 1 <= column <= g.screenSize.width
    ensures var k := (row - 1) * g.screenSize.width + (column - 1);
            && 0 <= k < |g.Render(None)|
            && g.Render(None)[k] == (Coordinate(row, column), Stored(g.At(Coordinate(row, column))))
  {
    RenderVisitsPage(g, None, row, column);
    PageRowsAreRelativeLines(g, None, row - 1);
  }

  /**
   * Absolute line numbers run through the scrollback, oldest first, and then
   * down the main page: line n is scrollback line n while n is below
   * historyLineCount, and main page row n - historyLineCount + 1 after that.
   */
  lemma AbsoluteLineAtViews(g: Grid, n: int)
    requires g.HasPage()
    requires 0 <= n < |g.lines|
    ensures n < g.HistoryLineCount() ==> g.AbsoluteLineAt(n) == g.ScrollbackLines()[n]
    ensures n >= g.HistoryLineCount() ==> g.AbsoluteLineAt(n) == g.MainPage()[n - g.HistoryLineCount()]
  {
    assert g.ScrollbackLines() + g.MainPage() == g.lines;
  }

  /**
   * As written, converting a relative line to absolute and back loses a row:
   * the top page row 1 comes back as row 0, the bottom scrollback line.
   */
  lemma ToRelativeLineLosesARow(g: Grid, row: int)
    ensures g.ToRelativeLine(g.ToAbsoluteLine(row)) == row - 1
  {
  }

  /** The corrected conversion and ToAbsoluteLine are inverse bijections. */
  lemma RelativeLineRoundTrip(g: Grid, row: int, n: int)
    ensures g.RelativeLine(g.ToAbsoluteLine(row)) == row
    ensures g.ToAbsoluteLine(g.RelativeLine(n)) == n
  {
  }
}
