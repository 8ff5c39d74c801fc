/**
 * `XlsComposer#write_segments_into_sheet`: segments are laid out top to
 * bottom on one worksheet. A running row cursor places each segment that
 * has no row of its own, each data row goes on the next sheet row, hash
 * cells skip over merged regions and may open one, and only linked
 * segments move the cursor on.
 */
module XlsComposer {
  import opened Wrappers
  import opened XlsSegment

  /** A merged region as the worksheet lists it: first and last row, first and last column. */
  datatype Region = Region(firstRow: int, lastRow: int, firstCol: int, lastCol: int)

  predicate Covers(r: Region, x: int, y: int) {
    r.firstRow <= y <= r.lastRow && r.firstCol <= x <= r.lastCol
  }

  /** Index of the first region that covers the cell, if any. */
  function FirstCovering(merged: seq<Region>, x: int, y: int): (r: Option<nat>)
    ensures r.None? ==> forall i :: 0 <= i < |merged| ==> !Covers(merged[i], x, y)
    ensures r.Some? ==> (r.value < |merged| && Covers(merged[r.value], x, y) &&
                         forall i :: 0 <= i < r.value ==> !Covers(merged[i], x, y))
  {
    if merged == [] then None
    else if Covers(merged[0], x, y) then Some(0)
    else
      var rest := FirstCovering(merged[1..], x, y);
      if rest.None? then None else Some(rest.value + 1)
  }

  /**
   * `consider_span`: x itself when no merged region covers (x, y); otherwise
   * the column just past the first covering region, which lies right of x.
   */
  function ConsiderSpan(merged: seq<Region>, x: int, y: int): (r: int)
    ensures FirstCovering(merged, x, y).None? ==> r == x
    ensures FirstCovering(merged, x, y).Some? ==> r == merged[FirstCovering(merged, x, y).value].lastCol + 1 && r > x
  {
    var i := FirstCovering(merged, x, y);
    if i.None? then x else merged[i.value].lastCol + 1
  }

  /** The observable part of a worksheet: cell values by (row, column), and the merged regions in order. */
  datatype Canvas = Canvas(cells: map<(int, int), Option<string>>, merged: seq<Region>)

  /** A written entry: the canvas after it and the column where the next entry goes. */
  datatype Cursor = Cursor(canvas: Canvas, x: int)

  /** One entry of a row at column x of row y. */
  function EntryStep(c: Canvas, e: Entry, x: int, y: int): Cursor {
    match e
    case Bare(v) => Cursor(c.(cells := c.cells[(y, x) := v]), x + 1)
    case HashEntry(v, _, _, colspan, rowspan) =>
      var at := ConsiderSpan(c.merged, x, y);
      var written := c.(cells := c.cells[(y, at) := v]);
      if colspan.Some? || rowspan.Some? then
        var cs := if colspan.Some? then colspan.value else 1;
        var rs := if rowspan.Some? then rowspan.value else 1;
        Cursor(written.(merged := written.merged + [Region(y, y + rs - 1, at, at + cs - 1)]), at + cs)
      else Cursor(written, at + 1)
  }

  /** The entries of one row, left to right. */
  function RowStep(c: Canvas, row: seq<Entry>, x: int, y: int): Cursor
    decreases |row|
  {
    if row == [] then Cursor(c, x)
    else
      var next := EntryStep(c, row[0], x, y);
      RowStep(next.canvas, row[1..], next.x, y)
  }

  /** The rows of a segment, each starting at column x, on consecutive sheet rows from y. */
  function RowsStep(c: Canvas, rows: seq<seq<Entry>>, x: int, y: int): Canvas
    decreases |rows|
  {
    if rows == [] then c else RowsStep(RowStep(c, rows[0], x, y).canvas, rows[1..], x, y + 1)
  }

  /** A placed segment: the canvas after it, the cursor for the next segment, and the segment's own settings afterwards. */
  datatype Placement = Placement(canvas: Canvas, cursor: int, segment: Settings)

  /** One segment placed at the cursor `cury` (unless it has a row of its own). */
  function SegmentStep(c: Canvas, cury: int, s: Settings): (r: Placement)
    ensures r.segment == s.(y := Some(if s.y.Some? then s.y.value else cury), x := if s.data == [] then s.x else Some(if s.x.Some? then s.x.value else 0))
    ensures s.linked ==> r.cursor == r.segment.y.value + s.margin.top + |s.data| + s.margin.bottom
    ensures !s.linked ==> r.cursor == cury
  {
    var top := if s.y.Some? then s.y.value else cury;
    var x := if s.x.Some? then s.x.value else 0;
    var placed := s.(y := Some(top), x := if s.data == [] then s.x else Some(x));
    var last := top + s.margin.top + |s.data|;
    Placement(RowsStep(c, s.data, x, top + s.margin.top), if s.linked then last + s.margin.bottom else cury, placed)
  }

  /** After the first segments: the canvas, the cursor, and each segment's settings (None for a nil segment). */
  datatype Progress = Progress(canvas: Canvas, cursor: int, placed: seq<Option<Settings>>)

  /** The segments in order from a cursor at row 0; nil segments are skipped. */
  function Run(c: Canvas, segments: seq<Option<Settings>>): (r: Progress)
    ensures |r.placed| == |segments|
    decreases |segments|
  {
    if segments == [] then Progress(c, 0, [])
    else
      var p := Run(c, segments[..|segments| - 1]);
      var last := segments[|segments| - 1];
      if last.None? then Progress(p.canvas, p.cursor, p.placed + [None])
      else
        var q := SegmentStep(p.canvas, p.cursor, last.value);
        Progress(q.canvas, q.cursor, p.placed + [Some(q.segment)])
  }

  class Sheet {
    var cells: map<(int, int), Option<string>>
    var merged: seq<Region>

    function State(): Canvas
      reads this
    {
      Canvas(cells, merged)
    }

    constructor()
      ensures State() == Canvas(map[], [])
    {
      cells := map[];
      merged := [];
    }

    /** `sheet.row(y)[x] = v`. */
    method Write(y: int, x: int, v: Option<string>)
      modifies this
      ensures State() == old(State()).(cells := old(cells)[(y, x) := v])
    {
      cells := cells[(y, x) := v];
    }

    /** `sheet.merge_cells(start_row, start_col, end_row, end_col)`. */
    method MergeCells(startRow: int, startCol: int, endRow: int, endCol: int)
      modifies this
      ensures State() == old(State()).(merged := old(merged) + [Region(startRow, endRow, startCol, endCol)])
    {
      merged := merged + [Region(startRow, endRow, startCol, endCol)];
    }
  }

  /** One entry, as the inner loop writes it. */
  method WriteEntry(sheet: Sheet, e: Entry, x: int, y: int) returns (next: int)
    modifies sheet
    ensures Cursor(sheet.State(), next) == EntryStep(old(sheet.State()), e, x, y)
  {
    match e {
      case Bare(v) =>
        sheet.Write(y, x, v);
        next := x + 1;
      case HashEntry(v, _, _, colspan, rowspan) =>
        next := ConsiderSpan(sheet.merged, x, y);
        sheet.Write(y, next, v);
        if colspan.Some? || rowspan.Some? {
          var cs := if colspan.Some? then colspan.value else 1;
          var rs := if rowspan.Some? then rowspan.value else 1;
          sheet.MergeCells(y, next, y + rs - 1, next + cs - 1);
          next := next + cs - 1;
        }
        next := next + 1;
    }
  }

  /** The loop over one row's entries. */
  method WriteRow(sheet: Sheet, row: seq<Entry>, x0: int, y: int) returns (x: int)
    modifies sheet
    ensures Cursor(sheet.State(), x) == RowStep(old(sheet.State()), row, x0, y)
  {
    x := x0;
    var i := 0;
    while i < |row|
      invariant 0 <= i <= |row|
      invariant RowStep(old(sheet.State()), row, x0, y) == RowStep(sheet.State(), row[i..], x, y)
    {
      assert row[i..][0] == row[i] && row[i..][1..] == row[i + 1..];
      x := WriteEntry(sheet, row[i], x, y);
      i := i + 1;
    }
  }

  /** One segment: its row, then each data row on the next sheet row; returns the cursor for the next segment. */
  method WriteSegment(sheet: Sheet, segment: Segment, cury: int) returns (next: int)
    modifies sheet, segment
    ensures Placement(sheet.State(), next, segment.State()) == SegmentStep(old(sheet.State()), cury, old(segment.State()))
  {
    var y := cury;
    if segment.y.Some? {
      y := segment.y.value;
    } else {
      segment.y := Some(y);
    }
    ghost var start := y;
    y := y + segment.margin.top;
    var i := 0;
    while i < |segment.data|
      invariant 0 <= i <= |segment.data|
      invariant segment.State() == old(segment.State()).(y := Some(start), x := if i == 0 then old(segment.x) else segment.x)
      invariant i > 0 ==> segment.x == Some(if old(segment.x).Some? then old(segment.x).value else 0)
      invariant y == start + segment.margin.top + i
      invariant SegmentStep(old(sheet.State()), cury, old(segment.State())).canvas ==
        RowsStep(sheet.State(), segment.data[i..], if old(segment.x).Some? then old(segment.x).value else 0, y)
    {
      assert segment.data[i..][0] == segment.data[i] && segment.data[i..][1..] == segment.data[i + 1..];
      var x := if segment.x.Some? then segment.x.value else 0;
      segment.x := Some(x);
      x := WriteRow(sheet, segment.data[i], x, y);
      y := y + 1;
      i := i + 1;
    }
    next := if segment.linked then y + segment.margin.bottom else cury;
  }

  class Composer {
    var segments: seq<Segment?>

    constructor(segments: seq<Segment?>)
      ensures this.segments == segments
    {
      this.segments := segments;
    }

    /** The settings of each segment slot, None for nil. */
    function Settings(): seq<Option<Settings>>
      reads this, set i | 0 <= i < |segments| && segments[i] != null :: segments[i]
    {
      seq(|segments|, i reads this, segments requires 0 <= i < |segments| => View(segments[i]))
    }

    /** No segment object appears twice in the list. */
    predicate Distinct()
      reads this
    {
      forall i, j :: 0 <= i < j < |segments| && segments[i] != null ==> segments[i] != segments[j]
    }

    /**
     * `write_segments_into_sheet`: every non-nil segment in order, from a
     * cursor at row 0; the sheet ends as `Run` describes and each segment
     * keeps the position it was given.
     */
    method WriteSegmentsIntoSheet(sheet: Sheet)
      requires Distinct()
      modifies sheet, set i | 0 <= i < |segments| && segments[i] != null :: segments[i]
      ensures sheet.State() == Run(old(sheet.State()), old(Settings())).canvas
      ensures Settings() == Run(old(sheet.State()), old(Settings())).placed
    {
      ghost var before := Settings();
      ghost var c0 := sheet.State();
      var cury := 0;
      var i := 0;
      while i < |segments|
        invariant 0 <= i <= |segments| && |before| == |segments|
        invariant Run(c0, before[..i]).canvas == sheet.State() && Run(c0, before[..i]).cursor == cury
        invariant forall j :: 0 <= j < i ==> Run(c0, before[..i]).placed[j] == View(segments[j])
        invariant forall j :: i <= j < |segments| ==> View(segments[j]) == before[j]
      {
        ghost var p := Run(c0, before[..i]);
        assert before[..i + 1][..i] == before[..i];
        assert before[i] == View(segments[i]);
        var segment := segments[i];
        if segment != null {
          cury := WriteSegment(sheet, segment, cury);
          assert forall j :: 0 <= j < |segments| && j != i ==> segments[j] != segment;
        }
        assert Run(c0, before[..i + 1]).placed[..i] == p.placed;
        i := i + 1;
      }
      assert before[..i] == before;
    }
  }

  /** A segment slot's settings, None for nil. */
  function View(s: Segment?): Option<Settings>
    reads s
  {
    if s == null then None else Some(s.State())
  }

  // ----- properties -----

  /** Row `y` holds the row's values in consecutive columns from `x`. */
  predicate WritesRow(cells: map<(int, int), Option<string>>, row: seq<Entry>, x: int, y: int) {
    forall j :: 0 <= j < |row| ==> (y, x + j) in cells && cells[(y, x + j)] == row[j].value
  }

  /** A row of bare values fills consecutive columns from x and touches nothing else. */
  lemma {:induction false} BareRowIsConsecutive(c: Canvas, row: seq<Entry>, x: int, y: int)
    requires forall j :: 0 <= j < |row| ==> row[j].Bare?
    ensures RowStep(c, row, x, y).x == x + |row|
    ensures RowStep(c, row, x, y).canvas.merged == c.merged
    ensures WritesRow(RowStep(c, row, x, y).canvas.cells, row, x, y)
    ensures forall k :: k in c.cells && !(k.0 == y && x <= k.1 < x + |row|) ==>
      k in RowStep(c, row, x, y).canvas.cells && RowStep(c, row, x, y).canvas.cells[k] == c.cells[k]
    decreases |row|
  {
    if row != [] {
      var next := EntryStep(c, row[0], x, y);
      BareRowIsConsecutive(next.canvas, row[1..], x + 1, y);
      var r := RowStep(c, row, x, y);
      assert next.canvas.cells == c.cells[(y, x) := row[0].value] && next.canvas.merged == c.merged && next.x == x + 1;
      assert r == RowStep(next.canvas, row[1..], x + 1, y);
      forall j | 0 <= j < |row|
        ensures (y, x + j) in r.canvas.cells && r.canvas.cells[(y, x + j)] == row[j].value
      {
        if j > 0 {
          assert row[1..][j - 1] == row[j];
          assert (y, (x + 1) + (j - 1)) == (y, x + j);
        } else {
          assert (y, x) in next.canvas.cells && next.canvas.cells[(y, x)] == row[0].value;
        }
      }
      forall k | k in c.cells && !(k.0 == y && x <= k.1 < x + |row|)
        ensures k in r.canvas.cells && r.canvas.cells[k] == c.cells[k]
      {
        assert k != (y, x);
        assert k in next.canvas.cells && next.canvas.cells[k] == c.cells[k];
      }
    } else {
      assert RowStep(c, row, x, y) == Cursor(c, x);
    }
  }

  /**
   * A spanning hash cell lands at the span-adjusted column, records the region
   * it covers, and moves the column past the span.
   */
  lemma SpanningCell(c: Canvas, v: Option<string>, cls: XlsStyle.Classes, st: Option<XlsStyle.Style>, colspan: Option<int>, rowspan: Option<int>, x: int, y: int)
    requires colspan.Some? || rowspan.Some?
    ensures var at := ConsiderSpan(c.merged, x, y);
      var cs := if colspan.Some? then colspan.value else 1;
      var rs := if rowspan.Some? then rowspan.value else 1;
      var r := EntryStep(c, HashEntry(v, cls, st, colspan, rowspan), x, y);
      r.canvas.cells == c.cells[(y, at) := v] && r.canvas.merged == c.merged + [Region(y, y + rs - 1, at, at + cs - 1)] && r.x == at + cs
  {
  }

  /** A row only writes cells of its own sheet row. */
  lemma {:induction false} RowStaysInRow(c: Canvas, row: seq<Entry>, x: int, y: int)
    ensures forall k :: k in c.cells && k.0 != y ==> k in RowStep(c, row, x, y).canvas.cells && RowStep(c, row, x, y).canvas.cells[k] == c.cells[k]
    ensures forall k :: k in RowStep(c, row, x, y).canvas.cells && k.0 != y ==> k in c.cells
    ensures c.merged <= RowStep(c, row, x, y).canvas.merged
    decreases |row|
  {
    if row != [] {
      var next := EntryStep(c, row[0], x, y);
      EntryStaysInRow(c, row[0], x, y);
      RowStaysInRow(next.canvas, row[1..], next.x, y);
      var r := RowStep(c, row, x, y).canvas;
      assert r == RowStep(next.canvas, row[1..], next.x, y).canvas;
      forall k | k in c.cells && k.0 != y
        ensures k in r.cells && r.cells[k] == c.cells[k]
      {
        assert k in next.canvas.cells && next.canvas.cells[k] == c.cells[k];
      }
      forall k | k in r.cells && k.0 != y
        ensures k in c.cells
      {
        assert k in next.canvas.cells;
      }
    } else {
      assert RowStep(c, row, x, y) == Cursor(c, x);
    }
  }

  lemma EntryStaysInRow(c: Canvas, e: Entry, x: int, y: int)
    ensures forall k :: k in c.cells && k.0 != y ==> k in EntryStep(c, e, x, y).canvas.cells && EntryStep(c, e, x, y).canvas.cells[k] == c.cells[k]
    ensures forall k :: k in EntryStep(c, e, x, y).canvas.cells && k.0 != y ==> k in c.cells
    ensures c.merged <= EntryStep(c, e, x, y).canvas.merged
  {
  }

  /** The rows of a segment only write sheet rows `y .. y + count - 1`. */
  lemma {:induction false} RowsStayInBand(c: Canvas, rows: seq<seq<Entry>>, x: int, y: int)
    ensures forall k :: k in c.cells && !(y <= k.0 < y + |rows|) ==> k in RowsStep(c, rows, x, y).cells && RowsStep(c, rows, x, y).cells[k] == c.cells[k]
    ensures forall k :: k in RowsStep(c, rows, x, y).cells && !(y <= k.0 < y + |rows|) ==> k in c.cells
    decreases |rows|
  {
    if rows != [] {
      RowStaysInRow(c, rows[0], x, y);
      RowsStayInBand(RowStep(c, rows[0], x, y).canvas, rows[1..], x, y + 1);
    }
  }

  /** Nil segments leave the sheet and the cursor as they were. */
  lemma NilSegmentSkipped(c: Canvas, segments: seq<Option<Settings>>)
    ensures Run(c, segments + [None]).canvas == Run(c, segments).canvas
    ensures Run(c, segments + [None]).cursor == Run(c, segments).cursor
  {
    assert (segments + [None])[..|segments|] == segments;
  }

  /** A linked segment moves the cursor to just below itself plus its bottom margin; an unlinked one leaves it. */
  lemma {:induction false} CursorAfterSegment(c: Canvas, segments: seq<Option<Settings>>, s: Settings)
    ensures var before := Run(c, segments).cursor;
      var top := if s.y.Some? then s.y.value else before;
      Run(c, segments + [Some(s)]).cursor == if s.linked then top + s.margin.top + |s.data| + s.margin.bottom else before
  {
    assert (segments + [Some(s)])[..|segments|] == segments;
  }

  /** The first segment without a row of its own starts at row 0 plus its top margin. */
  lemma FirstSegmentAtTop(c: Canvas, s: Settings)
    requires s.y.None?
    ensures Run(c, [Some(s)]).placed == [Some(SegmentStep(c, 0, s).segment)]
    ensures SegmentStep(c, 0, s).segment.y == Some(0)
  {
    assert [Some(s)][..0] == [];
  }
}
