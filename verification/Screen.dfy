/** The native screen: sparse rows, bounded history, resizing, and in-place row shifting. */
module Screen {
  import opened Wrappers
  import opened Reflow

  const SCROLLBACK_LIMIT: nat := 50000

  /** A bounded history keeps its newest rows. */
  function Capped(history: seq<Line>): seq<Line> {
    if |history| > SCROLLBACK_LIMIT then history[|history| - SCROLLBACK_LIMIT..] else history
  }

  function Min(a: int, b: int): int { if a < b then a else b }

  function Max(a: int, b: int): int { if a < b then b else a }

  // ---------------------------------------------------------------- rewrapping one line

  /** Column `column` of row `row` holds cell number `k` of the line. */
  predicate At(segments: seq<seq<Cell>>, column: int, row: int, k: int) {
    && 0 <= row < |segments| && 0 <= column < |segments[row]|
    && |Concat(segments[..row])| + column == k
  }

  lemma AtStays(
    done: seq<seq<Cell>>, current: seq<Cell>, grown: seq<Cell>, more: seq<seq<Cell>>, column: int, row: int, k: int
  )
    requires At(done + [current], column, row, k) && current <= grown
    ensures At(done + [grown] + more, column, row, k)
  {
    assert (done + [grown] + more)[..row] == (done + [current])[..row];
  }

  lemma {:induction false} ConcatAppend(segments: seq<seq<Cell>>, last: seq<Cell>)
    ensures Concat(segments + [last]) == Concat(segments) + last
  {
    if segments == [] {
      assert segments + [last] == [last];
      assert Concat([last]) == last + Concat([]);
    } else {
      assert (segments + [last])[1..] == segments[1..] + [last];
      ConcatAppend(segments[1..], last);
    }
  }

  function Wrapped(segments: seq<seq<Cell>>): seq<Line> {
    seq(|segments|, i requires 0 <= i < |segments| => Line(segments[i], true))
  }

  lemma WrappedAppend(done: seq<seq<Cell>>, current: seq<Cell>)
    ensures Wrapped(done + [current]) == Wrapped(done) + [Line(current, true)]
  {}

  lemma WrappedLast(done: seq<seq<Cell>>, current: seq<Cell>)
    ensures |Wrapped(done)| == |done| && RowsOf(done + [current]) == Wrapped(done) + [Line(current, false)]
  {}

  /**
   The greedy loop over one logical line.  A cursor on cell number k lands on that cell; a cursor past the
   end lands after the last cell.
   */
  method WrapLine(cells: seq<Cell>, width: int, cursor: Option<nat>)
    returns (rows: seq<Line>, position: Option<(int, int)>)
    ensures rows == RowsOf(Wrap(cells, width)) && rows != []
    ensures position.Some? <==> cursor.Some?
    ensures cursor.Some? && cursor.value < |cells| ==>
      At(Wrap(cells, width), position.value.0, position.value.1, cursor.value)
    ensures cursor.Some? && cursor.value >= |cells| ==>
      position.value == (Min(|rows[|rows| - 1].cells|, width), |rows| - 1)
  {
    WrappedNothing();
    hide Wrapped, WrapFrom, Occupancy, Concat, At;
    var segments: seq<Line>, current: seq<Cell>, occupied, offset := [], [], 0, 0;
    ghost var done: seq<seq<Cell>> := [];
    position := None;
    assert cells[0..] == cells && [] + WrapFrom([], cells, width) == WrapFrom([], cells, width);
    while offset < |cells|
      invariant 0 <= offset <= |cells|
      invariant segments == Wrapped(done) && |segments| == |done| && occupied == Occupancy(current)
      invariant done + WrapFrom(current, cells[offset..], width) == Wrap(cells, width)
      invariant |Concat(done)| + |current| == offset
      invariant position.Some? <==> cursor.Some? && cursor.value < offset
      invariant position.Some? ==> At(done + [current], position.value.0, position.value.1, cursor.value)
    {
      var cell := cells[offset];
      if current != [] && occupied + cell.occupied > width {
        WrapBreaks(done, current, cells[offset..], width);
        if position.Some? {
          AtStays(done, current, current, [[]], position.value.0, position.value.1, cursor.value);
        }
        WrappedAppend(done, current);
        ConcatAppend(done, current);
        segments := segments + [Line(current, true)];
        done := done + [current];
        current, occupied := [], 0;
        WrappedNothing();
      }
      WrapAdvances(current, cells, offset, width);
      if cursor == Some(offset) {
        position := Some((|current|, |segments|));
        AtHere(done, current, cell);
      } else if position.Some? {
        AtStays(done, current, current + [cell], [], position.value.0, position.value.1, cursor.value);
        assert done + [current + [cell]] + [] == done + [current + [cell]];
      }
      current := current + [cell];
      occupied := occupied + cell.occupied;
      offset := offset + 1;
    }
    assert cells[offset..] == [];
    WrapEnds(current, width);
    if cursor.Some? && cursor.value >= offset {
      position := Some((Min(|current|, width), |segments|));
    }
    rows := segments + [Line(current, false)];
    WrappedLast(done, current);
  }

  lemma WrappedNothing()
    ensures Wrapped([]) == [] && Occupancy([]) == 0 && Concat([]) == []
  {}

  /** A cell that does not fit closes the row. */
  lemma WrapBreaks(done: seq<seq<Cell>>, current: seq<Cell>, rest: seq<Cell>, width: int)
    requires rest != [] && current != [] && Occupancy(current) + rest[0].occupied > width
    ensures done + WrapFrom(current, rest, width) == done + [current] + WrapFrom([], rest, width)
  {
    var tail := WrapFrom([rest[0]], rest[1..], width);
    assert [] + [rest[0]] == [rest[0]];
    assert WrapFrom([], rest, width) == tail;
    assert done + ([current] + tail) == done + [current] + tail;
  }

  lemma WrapAdvances(current: seq<Cell>, cells: seq<Cell>, offset: nat, width: int)
    requires offset < |cells| && !(current != [] && Occupancy(current) + cells[offset].occupied > width)
    ensures WrapFrom(current, cells[offset..], width) == WrapFrom(current + [cells[offset]], cells[offset + 1..], width)
    ensures Occupancy(current + [cells[offset]]) == Occupancy(current) + cells[offset].occupied
  {
    assert cells[offset..][1..] == cells[offset + 1..];
    assert (current + [cells[offset]])[..|current|] == current;
  }

  lemma WrapEnds(current: seq<Cell>, width: int)
    ensures WrapFrom(current, [], width) == [current]
  {}

  lemma AtHere(done: seq<seq<Cell>>, current: seq<Cell>, cell: Cell)
    ensures At(done + [current + [cell]], |current|, |done|, |Concat(done)| + |current|)
  {
    assert (done + [current + [cell]])[..|done|] == done;
  }

  // ---------------------------------------------------------------- rewrapping all rows

  /** Column `column` of row `row` holds cell number `k`, counted over all rows. */
  predicate Holds(rows: seq<Line>, column: int, row: int, k: int) {
    && 0 <= row < |rows| && 0 <= column < |rows[row].cells|
    && |CellsOf(rows[..row])| + column == k
  }

  lemma {:induction false} CellsOfFirstRows(segments: seq<seq<Cell>>, n: nat)
    requires n <= |segments|
    ensures CellsOf(RowsOf(segments)[..n]) == Concat(segments[..n])
  {
    var rows := RowsOf(segments);
    if n > 0 {
      CellsOfFirstRows(segments, n - 1);
      assert rows[..n] == rows[..n - 1] + [rows[n - 1]];
      CellsConcat(rows[..n - 1], [rows[n - 1]]);
      assert CellsOf([rows[n - 1]]) == segments[n - 1] + CellsOf([]);
      assert segments[..n] == segments[..n - 1] + [segments[n - 1]];
      ConcatAppend(segments[..n - 1], segments[n - 1]);
    }
  }

  /** A position inside one line, as a position below the rows already produced. */
  lemma HoldsBelow(output: seq<Line>, segments: seq<seq<Cell>>, more: seq<Line>, column: int, row: int, k: int)
    requires At(segments, column, row, k)
    ensures Holds(output + RowsOf(segments) + more, column, |output| + row, |CellsOf(output)| + k)
  {
    var all := output + RowsOf(segments) + more;
    assert all[..|output| + row] == output + RowsOf(segments)[..row];
    CellsConcat(output, RowsOf(segments)[..row]);
    CellsOfFirstRows(segments, row);
  }

  lemma HoldsAbove(rows: seq<Line>, more: seq<Line>, column: int, row: int, k: int)
    requires Holds(rows, column, row, k)
    ensures Holds(rows + more, column, row, k)
  {
    assert (rows + more)[..row] == rows[..row];
  }

  /** The index just after the logical line that row `r` belongs to. */
  function LineEnd(rows: seq<Line>, r: int): int
    requires 0 <= r < |rows|
  {
    r + Span(rows[r..])
  }

  /** Where the cursor must be after rewrapping `source` to `output`. */
  predicate CursorFollows(source: seq<Line>, cursorRow: int, cursorX: int, width: int,
                          output: seq<Line>, column: int, row: int)
    requires 0 <= cursorRow < |source|
  {
    if cursorX < |source[cursorRow].cells| then
      Holds(output, column, row, |CellsOf(source[..cursorRow])| + cursorX)
    else
      && 0 <= row < |output|
      && row == |WrapAll(Logical(source[..LineEnd(source, cursorRow)]), width)| - 1
      && column == Min(|output[row].cells|, width)
  }

  method ReflowRows(source: seq<Line>, width: int, cursorRow: nat, cursorX: nat)
    returns (output: seq<Line>, mapped: (int, int))
    requires cursorRow < |source|
    ensures output == WrapAll(Logical(source), width)
    ensures CursorFollows(source, cursorRow, cursorX, width, output, mapped.0, mapped.1)
  {
    hide Logical, WrapAll, Wrap, RowsOf, Span;
    output, mapped := [], (0, 0);
    var start := 0;
    WrapNothing(source, width);
    while start < |source|
      invariant 0 <= start <= |source| && Boundary(source, start)
      invariant output == WrapAll(Logical(source[..start]), width)
      invariant cursorRow < start ==> CursorFollows(source, cursorRow, cursorX, width, output, mapped.0, mapped.1)
    {
      var end := start;
      while end + 1 < |source| && source[end].wrapped
        invariant start <= end < |source|
        invariant forall i :: start <= i < end ==> source[i].wrapped
      {
        end := end + 1;
      }
      var output', mapped' := AppendLine(source, width, cursorRow, cursorX, start, end + 1, output, mapped);
      output, mapped := output', mapped';
      start := end + 1;
    }
    assert source[..|source|] == source;
  }

  lemma WrapNothing(source: seq<Line>, width: int)
    ensures WrapAll(Logical(source[..0]), width) == []
  {
  }

  /** One turn of the outer loop: the logical line of rows `start` to `next` is rewrapped. */
  method AppendLine(source: seq<Line>, width: int, cursorRow: nat, cursorX: nat, start: nat, next: nat,
                    output: seq<Line>, mapped: (int, int))
    returns (output': seq<Line>, mapped': (int, int))
    requires cursorRow < |source| && start < next <= |source|
    requires Boundary(source, start) && Boundary(source, next)
    requires forall i :: start <= i < next - 1 ==> source[i].wrapped
    requires output == WrapAll(Logical(source[..start]), width)
    requires cursorRow < start ==> CursorFollows(source, cursorRow, cursorX, width, output, mapped.0, mapped.1)
    ensures output' == WrapAll(Logical(source[..next]), width)
    ensures cursorRow < next ==> CursorFollows(source, cursorRow, cursorX, width, output', mapped'.0, mapped'.1)
  {
    hide Logical, WrapAll, Wrap, RowsOf, Span, CellsOf;
    var cells := CellsOf(source[start..next]);
    var cursorOffset: Option<nat> := None;
    if start <= cursorRow < next {
      cursorOffset := Some(
        if cursorX >= |source[cursorRow].cells| then |cells|
        else |CellsOf(source[start..cursorRow])| + cursorX);
    }
    var rows, position := WrapLine(cells, width, cursorOffset);
    output' := output + rows;
    LogicalExtend(source, start, next);
    WrapExtend(Logical(source[..start]), cells, width);
    if cursorOffset.None? {
      mapped' := mapped;
      if cursorRow < start {
        CursorStays(source, cursorRow, cursorX, width, output, rows, mapped);
      }
    } else {
      mapped' := (position.value.0, |output| + position.value.1);
      if cursorX < |source[cursorRow].cells| {
        OffsetInLine(source, start, next, cursorRow, cursorX);
        HoldsBelow(output, Wrap(cells, width), [], position.value.0, position.value.1, cursorOffset.value);
        assert output + rows + [] == output';
        ReflowKeepsCells(source[..start], width);
        PrefixCells(source, start, cursorRow);
      } else {
        EndOfLine(source, start, next, cursorRow);
      }
    }
  }

  lemma CursorStays(
    source: seq<Line>, cursorRow: int, cursorX: int, width: int, output: seq<Line>, rows: seq<Line>, mapped: (int, int)
  )
    requires 0 <= cursorRow < |source|
    requires CursorFollows(source, cursorRow, cursorX, width, output, mapped.0, mapped.1)
    ensures CursorFollows(source, cursorRow, cursorX, width, output + rows, mapped.0, mapped.1)
  {
    if cursorX < |source[cursorRow].cells| {
      HoldsAbove(output, rows, mapped.0, mapped.1, |CellsOf(source[..cursorRow])| + cursorX);
    }
  }

  lemma PrefixCells(source: seq<Line>, start: nat, cursorRow: nat)
    requires start <= cursorRow <= |source|
    ensures |CellsOf(source[..cursorRow])| == |CellsOf(source[..start])| + |CellsOf(source[start..cursorRow])|
  {
    assert source[..cursorRow] == source[..start] + source[start..cursorRow];
    CellsConcat(source[..start], source[start..cursorRow]);
  }

  lemma OffsetInLine(source: seq<Line>, start: nat, next: nat, cursorRow: nat, cursorX: nat)
    requires start <= cursorRow < next <= |source| && cursorX < |source[cursorRow].cells|
    ensures |CellsOf(source[start..cursorRow])| + cursorX < |CellsOf(source[start..next])|
  {
    var line := source[start..next];
    var k := cursorRow - start;
    assert line == line[..k] + line[k..];
    CellsConcat(line[..k], line[k..]);
    assert line[..k] == source[start..cursorRow] && line[k] == source[cursorRow];
  }

  lemma EndOfLine(source: seq<Line>, start: nat, next: nat, r: nat)
    requires start <= r < next <= |source| && Boundary(source, next)
    requires forall i :: start <= i < next - 1 ==> source[i].wrapped
    ensures LineEnd(source, r) == next
  {
    SpanUnique(source[r..], next - r);
  }

  // ---------------------------------------------------------------- row shifting and height changes on row sequences

  /** History and visible rows together. */
  datatype Rows = Rows(history: seq<Line>, visible: seq<Line>)

  function Unwrapped(rows: seq<Line>, i: int): seq<Line>
    requires 0 <= i < |rows|
  {
    rows[i := rows[i].(wrapped := false)]
  }

  /** Disconnect the soft wrap into row `r`; above the first row that is the newest history row. */
  function BrokenBefore(s: Rows, r: nat): (t: Rows)
    requires r <= |s.visible|
    ensures |t.visible| == |s.visible| && |t.history| == |s.history|
  {
    if r > 0 then s.(visible := Unwrapped(s.visible, r - 1))
    else if s.history != [] then s.(history := Unwrapped(s.history, |s.history| - 1))
    else s
  }

  /** List insertion of blank rows between `row` and `bottom`; the rows pushed past `bottom` are lost. */
  function InsertRows(v: seq<Line>, row: nat, bottom: nat, count: nat): (w: seq<Line>)
    requires row <= bottom < |v| && count <= bottom + 1 - row
    ensures |w| == |v|
  {
    v[..row] + Blanks(count) + v[row..bottom + 1 - count] + v[bottom + 1..]
  }

  /** List deletion of `count` rows at `row`; blank rows enter at `bottom`. */
  function DeleteRows(v: seq<Line>, row: nat, bottom: nat, count: nat): (w: seq<Line>)
    requires row <= bottom < |v| && count <= bottom + 1 - row
    ensures |w| == |v|
  {
    v[..row] + v[row + count..bottom + 1] + Blanks(count) + v[bottom + 1..]
  }

  /** Deleting what was inserted restores every row that was not pushed past the bottom. */
  lemma DeleteUndoesInsert(v: seq<Line>, row: nat, bottom: nat, count: nat)
    requires row <= bottom < |v| && count <= bottom + 1 - row
    ensures DeleteRows(InsertRows(v, row, bottom, count), row, bottom, count)
         == v[..bottom + 1 - count] + Blanks(count) + v[bottom + 1..]
  {
    var w := InsertRows(v, row, bottom, count);
    assert w[..row] == v[..row];
    assert w[row + count..bottom + 1] == v[row..bottom + 1 - count];
    assert w[bottom + 1..] == v[bottom + 1..];
  }

  function Contents(rows: seq<Line>): seq<seq<Cell>> {
    seq(|rows|, i requires 0 <= i < |rows| => rows[i].cells)
  }

  /** Breaking a wrap changes no cell. */
  lemma BrokenKeepsContents(s: Rows, r: nat)
    requires r <= |s.visible|
    ensures Contents(BrokenBefore(s, r).visible) == Contents(s.visible)
    ensures Contents(BrokenBefore(s, r).history) == Contents(s.history)
  {
  }

  /** Row contents shift as plain list insertion and deletion; only wrap marks are touched besides. */
  lemma ShiftedContents(s: Rows, row: nat, bottom: nat, count: nat)
    requires row <= bottom < |s.visible| && count <= bottom + 1 - row
    ensures Contents(AfterInsert(s, row, bottom, count).visible) == Contents(InsertRows(s.visible, row, bottom, count))
    ensures Contents(AfterDelete(s, row, bottom, count).visible) == Contents(DeleteRows(s.visible, row, bottom, count))
    ensures Contents(AfterInsert(s, row, bottom, count).history) == Contents(s.history)
    ensures Contents(AfterDelete(s, row, bottom, count).history) == Contents(s.history)
  {
    hide BrokenBefore;
    var cut := BrokenBefore(s, row + count);
    BrokenKeepsContents(s, row + count);
    InsertContents(cut.visible, s.visible, row, bottom, count);
    var moved := cut.(visible := InsertRows(cut.visible, row, bottom, count));
    BrokenKeepsContents(moved, row);
    BrokenKeepsContents(BrokenBefore(moved, row), bottom + 1 - count);
    var cut' := BrokenBefore(s, row);
    BrokenKeepsContents(s, row);
    DeleteContents(cut'.visible, s.visible, row, bottom, count);
    BrokenKeepsContents(cut'.(visible := DeleteRows(cut'.visible, row, bottom, count)), bottom + 1 - count);
  }

  lemma InsertContents(v: seq<Line>, w: seq<Line>, row: nat, bottom: nat, count: nat)
    requires row <= bottom < |v| && count <= bottom + 1 - row && Contents(v) == Contents(w)
    ensures |w| == |v| && Contents(InsertRows(v, row, bottom, count)) == Contents(InsertRows(w, row, bottom, count))
  {
    assert |Contents(v)| == |v| && |Contents(w)| == |w|;
    assert forall i :: 0 <= i < |v| ==> v[i].cells == Contents(v)[i] && w[i].cells == Contents(w)[i];
  }

  lemma DeleteContents(v: seq<Line>, w: seq<Line>, row: nat, bottom: nat, count: nat)
    requires row <= bottom < |v| && count <= bottom + 1 - row && Contents(v) == Contents(w)
    ensures |w| == |v| && Contents(DeleteRows(v, row, bottom, count)) == Contents(DeleteRows(w, row, bottom, count))
  {
    assert |Contents(v)| == |v| && |Contents(w)| == |w|;
    assert forall i :: 0 <= i < |v| ==> v[i].cells == Contents(v)[i] && w[i].cells == Contents(w)[i];
  }

  // ---------------------------------------------------------------- height changes

  /** A screen of rows with the cursor on one of them. */
  datatype Viewport = Viewport(rows: Rows, y: int)

  predicate OnScreen(s: Viewport) { 0 <= s.y < |s.rows.visible| && |s.rows.history| <= SCROLLBACK_LIMIT }

  /** Everything from the oldest history row down to the cursor row. */
  function Anchored(s: Viewport): seq<Line>
    requires OnScreen(s)
  {
    s.rows.history + s.rows.visible[..s.y + 1]
  }

  function Scrolled(s: Viewport, height: nat): nat { Max(0, s.y - height + 1) }

  /** Shrinking drops rows below the cursor first and then scrolls; growing brings history back. */
  function WithHeight(s: Viewport, height: nat): Viewport
    requires OnScreen(s) && 1 <= height
  {
    var h, v := s.rows.history, s.rows.visible;
    if height < |v| then
      var n := Scrolled(s, height);
      Viewport(Rows(Capped(h + v[..n]), v[n..n + height]), s.y - n)
    else
      var n := Min(height - |v|, |h|);
      Viewport(Rows(h[..|h| - n], h[|h| - n..] + v + Blanks(height - |v| - n)), s.y + n)
  }

  /** How many of the oldest rows the history limit discards. */
  function Discarded(s: Viewport, height: nat): nat
    requires OnScreen(s) && 1 <= height
  {
    if height < |s.rows.visible| then Max(0, |s.rows.history| + Scrolled(s, height) - SCROLLBACK_LIMIT) else 0
  }

  /** A height change keeps every row down to the cursor except the oldest ones past the history limit. */
  lemma WithHeightKeepsRows(s: Viewport, height: nat)
    requires OnScreen(s) && 1 <= height
    ensures OnScreen(WithHeight(s, height)) && |WithHeight(s, height).rows.visible| == height
    ensures Discarded(s, height) <= |Anchored(s)|
    ensures Anchored(WithHeight(s, height)) == Anchored(s)[Discarded(s, height)..]
  {
    if height < |s.rows.visible| {
      ShrinkKeepsRows(s, height);
    } else {
      GrowKeepsRows(s, height);
    }
  }

  lemma SliceOfSlice(v: seq<Line>, n: nat, height: nat, y: nat)
    requires n <= y + 1 <= n + height <= |v|
    ensures v[n..n + height][..y + 1 - n] == v[n..y + 1]
  {
  }

  lemma Rejoin(v: seq<Line>, n: nat, m: nat)
    requires n <= m <= |v|
    ensures v[..n] + v[n..m] == v[..m]
  {
  }

  /** Rows scrolled into history are still in front of the rows that stayed. */
  lemma ScrolledRows(h: seq<Line>, v: seq<Line>, n: nat, m: nat, d: nat)
    requires n <= m <= |v| && d <= |h| + n
    ensures (h + v[..n])[d..] + v[n..m] == (h + v[..m])[d..]
  {
    Rejoin(v, n, m);
    Associative(h, v[..n], v[n..m]);
    CutConcat(h + v[..n], v[n..m], d);
  }

  lemma CappedFrom(history: seq<Line>, d: nat)
    requires d == Max(0, |history| - SCROLLBACK_LIMIT)
    ensures d <= |history| && Capped(history) == history[d..]
  {}

  lemma ShrinkKeepsRows(s: Viewport, height: nat)
    requires OnScreen(s) && 1 <= height < |s.rows.visible|
    ensures OnScreen(WithHeight(s, height)) && |WithHeight(s, height).rows.visible| == height
    ensures Discarded(s, height) <= |Anchored(s)|
    ensures Anchored(WithHeight(s, height)) == Anchored(s)[Discarded(s, height)..]
  {
    var h, v, n, d := s.rows.history, s.rows.visible, Scrolled(s, height), Discarded(s, height);
    SliceOfSlice(v, n, height, s.y);
    ScrolledRows(h, v, n, s.y + 1, d);
    CappedFrom(h + v[..n], d);
    hide Capped;
  }

  lemma GrowKeepsRows(s: Viewport, height: nat)
    requires OnScreen(s) && |s.rows.visible| <= height
    ensures OnScreen(WithHeight(s, height)) && |WithHeight(s, height).rows.visible| == height
    ensures Anchored(WithHeight(s, height)) == Anchored(s)
  {
    var h, v := s.rows.history, s.rows.visible;
    var n := Min(height - |v|, |h|);
    var back, blank := h[|h| - n..], Blanks(height - |v| - n);
    TakeThrough(back, v, blank, s.y + 1);
    Rejoin(h, |h| - n, |h|);
    assert h[|h| - n..|h|] == back && h[..|h|] == h;
    Associative(h[..|h| - n], back, v[..s.y + 1]);
  }

  lemma TakeThrough(back: seq<Line>, v: seq<Line>, blank: seq<Line>, m: nat)
    requires m <= |v|
    ensures (back + v + blank)[..m + |back|] == back + v[..m]
  {
  }

  function HeightRun(s: Viewport, heights: seq<nat>): (t: Viewport)
    requires OnScreen(s) && forall i :: 0 <= i < |heights| ==> 1 <= heights[i]
    ensures OnScreen(t)
    decreases |heights|
  {
    if heights == [] then s
    else
      WithHeightKeepsRows(s, heights[0]);
      HeightRun(WithHeight(s, heights[0]), heights[1..])
  }

  ghost predicate IsSuffix(a: seq<Line>, b: seq<Line>) {
    |a| <= |b| && a == b[|b| - |a|..]
  }

  /**
   Over any sequence of height changes the rows down to the cursor only lose their oldest part; within
   the limit, nothing.
   */
  lemma {:induction false} HeightRunKeepsRows(s: Viewport, heights: seq<nat>)
    requires OnScreen(s) && forall i :: 0 <= i < |heights| ==> 1 <= heights[i]
    ensures IsSuffix(Anchored(HeightRun(s, heights)), Anchored(s))
    ensures |Anchored(s)| <= SCROLLBACK_LIMIT + 1 ==> Anchored(HeightRun(s, heights)) == Anchored(s)
    decreases |heights|
  {
    if heights != [] {
      var t := WithHeight(s, heights[0]);
      WithHeightKeepsRows(s, heights[0]);
      HeightRunKeepsRows(t, heights[1..]);
      SuffixOfSuffix(Anchored(HeightRun(s, heights)), Anchored(s), Discarded(s, heights[0]));
      if |Anchored(s)| <= SCROLLBACK_LIMIT + 1 {
        assert Discarded(s, heights[0]) == 0;
      }
    }
  }

  lemma SuffixOfSuffix(a: seq<Line>, b: seq<Line>, d: nat)
    requires d <= |b| && IsSuffix(a, b[d..])
    ensures IsSuffix(a, b)
  {
  }

  lemma SameHeight(s: Viewport)
    requires OnScreen(s) && s.rows.visible != []
    ensures WithHeight(s, |s.rows.visible|) == s
  {
    var h, v := s.rows.history, s.rows.visible;
    assert h[|h| - 0..] + v + Blanks(0) == v;
  }

  // ---------------------------------------------------------------- width changes

  function AllRows(s: Rows): seq<Line> { s.history + s.visible }

  /** The rewrapped rows before they are divided into history and screen. */
  function WrapOutput(s: Rows, width: int): (output: seq<Line>)
    ensures |output| >= |s.visible|
  {
    var wrapped := WrapAll(Logical(AllRows(s)), width);
    wrapped + Blanks(|s.visible| - |wrapped|)
  }

  function Rewrapped(s: Rows, width: int): Rows {
    var output := WrapOutput(s, width);
    var history := |output| - |s.visible|;
    Rows(Capped(output[..history]), output[history..])
  }

  /** How many of the oldest rewrapped rows the history limit discards. */
  function Overflowing(s: Rows, width: int): nat {
    Max(0, |WrapOutput(s, width)| - |s.visible| - SCROLLBACK_LIMIT)
  }

  lemma RewrappedRows(s: Rows, width: int)
    ensures Overflowing(s, width) <= |WrapOutput(s, width)|
    ensures AllRows(Rewrapped(s, width)) == WrapOutput(s, width)[Overflowing(s, width)..]
  {
    hide WrapOutput;
    var output := WrapOutput(s, width);
    var history := |output| - |s.visible|;
    assert output[..history] + output[history..] == output;
    CappedRejoins(output, history);
  }

  lemma CappedRejoins(output: seq<Line>, history: nat)
    requires history <= |output|
    ensures Capped(output[..history]) + output[history..] == output[Max(0, history - SCROLLBACK_LIMIT)..]
  {}

  /** Dropping the oldest rows leaves the rest of one logical line and all the later lines. */
  lemma DroppedRows(rows: seq<Line>, n: nat, width: int)
    requires n < |rows|
    ensures var next := n + Span(rows[n..]);
            var later := WrapAll(Logical(rows[next..]), width);
            && WrapAll(Logical(rows), width) == WrapAll(Logical(rows[..next]), width) + later
            && WrapAll(Logical(rows[n..]), width) == RowsOf(Wrap(CellsOf(rows[n..next]), width)) + later
  {
    hide Logical, CellsOf, Span, Wrap;
    var next := n + Span(rows[n..]);
    assert Boundary(rows, next) by { SpanEnds(rows, n); }
    assert rows[..next] + rows[next..] == rows;
    LogicalSplit(rows[..next], rows[next..]);
    WrapConcat(Logical(rows[..next]), Logical(rows[next..]), width);
    LogicalUnfold(rows[n..]);
    assert rows[n..][..next - n] == rows[n..next] && rows[n..][next - n..] == rows[next..];
    assert ([CellsOf(rows[n..next])] + Logical(rows[next..]))[1..] == Logical(rows[next..]);
  }

  lemma SpanEnds(rows: seq<Line>, n: nat)
    requires n < |rows|
    ensures n + Span(rows[n..]) <= |rows| && Boundary(rows, n + Span(rows[n..]))
  {
    var m := Span(rows[n..]);
    assert rows[n..][m - 1] == rows[n + m - 1];
  }

  /**
   Two width changes give the rows of the second alone, up to trailing blank rows, while history keeps
   everything; past the history limit they still agree after the oldest logical line that remains.
   */
  lemma {:induction false} RewrapTwice(s: Rows, w1: int, w2: int)
    ensures
      var padding := Max(0, |s.visible| - |WrapAll(Logical(AllRows(s)), w1)|);
      var once := WrapAll(Logical(AllRows(s)), w2) + Blanks(padding);
      var twice := WrapAll(Logical(AllRows(Rewrapped(s, w1))), w2);
      var output, n := WrapOutput(s, w1), Overflowing(s, w1);
      && (n == 0 ==> twice == once)
      && (n > 0 ==>
            && n < |output|
            && var next := n + Span(output[n..]);
               var later := WrapAll(Logical(output[next..]), w2);
               && once == WrapAll(Logical(output[..next]), w2) + later
               && twice == RowsOf(Wrap(CellsOf(output[n..next]), w2)) + later)
  {
    hide WrapAll, Logical, Rewrapped, CellsOf, Span, Wrap;
    var output, n := WrapOutput(s, w1), Overflowing(s, w1);
    RewrappedRows(s, w1);
    ReflowTwice(AllRows(s), w1, w2, Max(0, |s.visible| - |WrapAll(Logical(AllRows(s)), w1)|));
    BlankCount(s, w1);
    if n > 0 {
      DroppedRows(output, n, w2);
    }
  }

  lemma BlankCount(s: Rows, width: int)
    ensures var wrapped := WrapAll(Logical(AllRows(s)), width);
            WrapOutput(s, width) == wrapped + Blanks(Max(0, |s.visible| - |wrapped|))
  {
    hide WrapAll, Logical;
  }

  lemma CursorInside(source: seq<Line>, cursorRow: int, cursorX: int, width: nat, output: seq<Line>, mapped: (int, int))
    requires 0 <= cursorRow < |source|
    requires CursorFollows(source, cursorRow, cursorX, width, output, mapped.0, mapped.1)
    ensures 0 <= mapped.0 && 0 <= mapped.1 < |output|
  {
  }

  // ---------------------------------------------------------------- sparse rows

  /** An absent sparse row is a blank row. */
  function RowIn(buffer: map<int, Line>, r: int): Line {
    if r in buffer then buffer[r] else BLANK
  }

  function Dense(buffer: map<int, Line>, lines: nat): (v: seq<Line>)
    ensures |v| == lines
    ensures forall r :: 0 <= r < lines ==> v[r] == RowIn(buffer, r)
  {
    seq(lines, r => RowIn(buffer, r))
  }

  /** The row that belongs at `r` after a downward move. */
  function Lowered(was: seq<Line>, row: nat, count: nat, r: int): Line
    requires 0 <= r < |was|
  {
    if r - count >= row then was[r - count] else BLANK
  }

  lemma LoweredIsInsertion(was: seq<Line>, row: nat, bottom: nat, count: nat, now: seq<Line>)
    requires row <= bottom < |was| == |now| && count <= bottom + 1 - row
    requires forall r :: 0 <= r < |was| && (r < row || bottom < r) ==> now[r] == was[r]
    requires forall r :: row <= r <= bottom ==> now[r] == Lowered(was, row, count, r)
    ensures now == InsertRows(was, row, bottom, count)
  {
  }

  /** The sparse downward move of `insert_lines`, from the bottom up. */
  method ShiftDown(rows: map<int, Line>, lines: nat, row: nat, bottom: nat, count: nat) returns (buffer: map<int, Line>)
    requires row <= bottom < lines && 1 <= count <= bottom + 1 - row
    ensures Dense(buffer, lines) == InsertRows(Dense(rows, lines), row, bottom, count)
  {
    buffer := rows;
    ghost var was := Dense(rows, lines);
    var destination: int := bottom;
    while destination >= row
      invariant row - 1 <= destination <= bottom
      invariant forall r :: 0 <= r < lines && (r < row || bottom < r || r <= destination - count) ==>
        RowIn(buffer, r) == was[r]
      invariant forall r :: destination < r <= bottom ==> RowIn(buffer, r) == Lowered(was, row, count, r)
    {
      var source := destination - count;
      if source >= row && source in buffer {
        assert RowIn(buffer, source) == was[source];
        var moved := buffer[source];
        buffer := buffer - {source};
        buffer := buffer[destination := moved];
      } else {
        if source >= row {
          assert RowIn(buffer, source) == was[source];
        }
        buffer := buffer - {destination};
      }
      destination := destination - 1;
    }
    LoweredIsInsertion(was, row, bottom, count, Dense(buffer, lines));
  }

  /** The row that belongs at `r` after an upward move. */
  function Raised(was: seq<Line>, bottom: nat, count: nat, r: int): Line
    requires 0 <= r && bottom < |was|
  {
    if r + count <= bottom then was[r + count] else BLANK
  }

  lemma RaisedIsDeletion(was: seq<Line>, row: nat, bottom: nat, count: nat, now: seq<Line>)
    requires row <= bottom < |was| == |now| && count <= bottom + 1 - row
    requires forall r :: 0 <= r < |was| && (r < row || bottom < r) ==> now[r] == was[r]
    requires forall r :: row <= r <= bottom ==> now[r] == Raised(was, bottom, count, r)
    ensures now == DeleteRows(was, row, bottom, count)
  {
  }

  /** The sparse upward move of `delete_lines`, from the top down. */
  method ShiftUp(rows: map<int, Line>, lines: nat, row: nat, bottom: nat, count: nat) returns (buffer: map<int, Line>)
    requires row <= bottom < lines && 1 <= count <= bottom + 1 - row
    ensures Dense(buffer, lines) == DeleteRows(Dense(rows, lines), row, bottom, count)
  {
    buffer := rows;
    ghost var was := Dense(rows, lines);
    var destination: int := row;
    while destination <= bottom
      invariant row <= destination <= bottom + 1
      invariant forall r :: 0 <= r < lines && (r < row || bottom < r || r >= destination + count) ==>
        RowIn(buffer, r) == was[r]
      invariant forall r :: row <= r < destination ==> RowIn(buffer, r) == Raised(was, bottom, count, r)
    {
      var source := destination + count;
      if source <= bottom {
        assert RowIn(buffer, source) == was[source];
      }
      if source <= bottom && source in buffer {
        var moved := buffer[source];
        buffer := buffer - {source};
        buffer := buffer[destination := moved];
      } else {
        buffer := buffer - {destination};
      }
      destination := destination + 1;
    }
    RaisedIsDeletion(was, row, bottom, count, Dense(buffer, lines));
  }

  // ---------------------------------------------------------------- the screen

  method ChangeHeight(scrollback: seq<Line>, rows: seq<Line>, cursorY: int, height: nat)
    returns (history: seq<Line>, visible: seq<Line>, y: int)
    requires OnScreen(Viewport(Rows(scrollback, rows), cursorY)) && 1 <= height
    ensures Viewport(Rows(history, visible), y) == WithHeight(Viewport(Rows(scrollback, rows), cursorY), height)
  {
    hide Capped;
    history, visible, y := scrollback, rows, cursorY;
    if height < |rows| {
      var scrolled := Max(0, cursorY - height + 1);
      history := Capped(history + visible[..scrolled]);
      visible := visible[scrolled..scrolled + height];
      y := y - scrolled;
    } else {
      var restored := Min(height - |rows|, |history|);
      visible := history[|history| - restored..] + visible;
      history := history[..|history| - restored];
      y := y + restored;
    }
    visible := visible + Blanks(height - |visible|);
  }

  class NativeTerminalScreen {
    var buffer: map<int, Line>
    var scrollback: seq<Line>
    var lines: nat
    var columns: nat
    var cursorX: int
    var cursorY: int
    var margins: Option<(nat, nat)>

    ghost predicate Valid()
      reads this
    {
      && 1 <= lines && 1 <= columns
      && 0 <= cursorY < lines && 0 <= cursorX <= columns
      && |scrollback| <= SCROLLBACK_LIMIT
      && (margins.Some? ==> margins.value.0 <= margins.value.1 < lines)
    }

    function Model(): Rows
      reads this`buffer, this`lines, this`scrollback
    {
      Rows(scrollback, Dense(buffer, lines))
    }

    method BreakWrapBefore(r: nat)
      requires r <= lines
      modifies this`buffer, this`scrollback
      ensures Model() == old(BrokenBefore(Model(), r))
    {
      if r > 0 {
        buffer := buffer[r - 1 := RowIn(buffer, r - 1).(wrapped := false)];
      } else if scrollback != [] {
        scrollback := scrollback[|scrollback| - 1 := scrollback[|scrollback| - 1].(wrapped := false)];
      }
    }

    function Region(): (int, int)
      reads this
    {
      if margins.Some? then (margins.value.0, margins.value.1) else (0, lines - 1)
    }

    predicate InRegion()
      reads this
    {
      Region().0 <= cursorY <= Region().1
    }

    /** The last row a shift moves: the scroll region's, or the screen's for a cursor outside it. */
    function Bottom(): int
      reads this
    {
      if InRegion() then Region().1 else lines - 1
    }

    method InsertLines(requested: nat)
      requires Valid()
      modifies this`buffer, this`scrollback
      ensures Valid()
      ensures
        var wanted := if requested == 0 then 1 else requested;
        Model() ==
          if !InRegion() && wanted >= lines - cursorY then old(Model())
          else AfterInsert(old(Model()), cursorY, Bottom(), Min(wanted, Bottom() - cursorY + 1))
    {
      hide InsertRows, BrokenBefore;
      var (top, bottom) := Region();
      var row := cursorY;
      var wanted := if requested == 0 then 1 else requested;
      if !(top <= row <= bottom) {
        bottom := lines - 1;
        if wanted >= bottom - row + 1 {
          return;
        }
      }
      var count := Min(wanted, bottom - row + 1);
      var shifted := bottom - row + 1 - count;
      BreakWrapBefore(row + count);
      buffer := ShiftDown(buffer, lines, row, bottom, count);
      BreakWrapBefore(row);
      BreakWrapBefore(row + shifted);
    }

    method DeleteLines(requested: nat)
      requires Valid()
      modifies this`buffer, this`scrollback
      ensures Valid()
      ensures Model() == AfterDelete(old(Model()), cursorY, Bottom(),
                                     Min(if requested == 0 then 1 else requested, Bottom() - cursorY + 1))
    {
      hide DeleteRows, BrokenBefore;
      var (top, bottom) := Region();
      var row := cursorY;
      if !(top <= row <= bottom) {
        bottom := lines - 1;
      }
      var count := Min(if requested == 0 then 1 else requested, bottom - row + 1);
      BreakWrapBefore(row);
      buffer := ShiftUp(buffer, lines, row, bottom, count);
      BreakWrapBefore(bottom + 1 - count);
    }

    /** Rewrap everything to `width`; the cursor stays on its cell unless that cell scrolled into history. */
    method ReflowTo(width: nat) returns (mapped: (int, int))
      requires 1 <= lines && 0 <= cursorY < lines && 0 <= cursorX
      modifies this`buffer, this`scrollback, this`lines, this`cursorX, this`cursorY
      ensures lines == old(lines)
      ensures Model() == Rewrapped(old(Model()), width) && |scrollback| <= SCROLLBACK_LIMIT
      ensures CursorFollows(AllRows(old(Model())), old(|scrollback| + cursorY), old(cursorX), width,
                            WrapOutput(old(Model()), width), mapped.0, mapped.1)
      ensures
        var history := |WrapOutput(old(Model()), width)| - lines;
        (cursorX, cursorY) == if mapped.1 >= history then (mapped.0, mapped.1 - history) else (0, 0)
      ensures 0 <= cursorX && 0 <= cursorY < lines
    {
      hide Logical, WrapAll, CursorFollows, WrapOutput;
      ghost var before := Model();
      var output;
      output, mapped := WrapScreen(width);
      var history := Install(output);
      var (x, y) := mapped;
      cursorX, cursorY := if y >= history then x else 0, if y >= history then y - history else 0;
    }

    method WrapScreen(width: nat) returns (output: seq<Line>, mapped: (int, int))
      requires 1 <= lines && 0 <= cursorY < lines && 0 <= cursorX
      ensures output == WrapOutput(Model(), width)
      ensures CursorFollows(AllRows(Model()), |scrollback| + cursorY, cursorX, width, output, mapped.0, mapped.1)
      ensures 0 <= mapped.0 && 0 <= mapped.1 < |output|
    {
      hide Logical, WrapAll, CursorFollows;
      var source := scrollback + Dense(buffer, lines);
      var cursorRow := |scrollback| + cursorY;
      output, mapped := ReflowRows(source, width, cursorRow, cursorX);
      var padding := Blanks(lines - |output|);
      CursorStays(source, cursorRow, cursorX, width, output, padding, mapped);
      output := output + padding;
      CursorInside(source, cursorRow, cursorX, width, output, mapped);
    }

    /** Divide rewrapped rows into bounded history and screen. */
    method Install(output: seq<Line>) returns (history: nat)
      requires lines <= |output|
      modifies this`buffer, this`scrollback, this`lines
      ensures lines == old(lines)
      ensures history == |output| - lines && Model() == Rows(Capped(output[..history]), output[history..])
      ensures |scrollback| <= SCROLLBACK_LIMIT
    {
      history := |output| - lines;
      SetRows(Capped(output[..history]), output[history..]);
    }

    /** A pure height change. */
    method ResizeHeight(height: nat)
      requires Valid() && 1 <= height
      modifies this
      ensures Valid() && lines == height
      ensures Viewport(Model(), cursorY) ==
        if height == old(lines) then old(Viewport(Model(), cursorY))
        else WithHeight(old(Viewport(Model(), cursorY)), height)
      ensures cursorX == old(cursorX) && columns == old(columns)
    {
      if height == lines {
        return;
      }
      hide WithHeight;
      var history, visible, y := ChangeHeight(scrollback, Dense(buffer, lines), cursorY, height);
      WithHeightKeepsRows(Viewport(Model(), cursorY), height);
      SetRows(history, visible);
      cursorY := y;
      margins := None;
    }

    method SetRows(history: seq<Line>, visible: seq<Line>)
      modifies this`buffer, this`scrollback, this`lines
      ensures Model() == Rows(history, visible) && lines == |visible|
    {
      scrollback, lines := history, |visible|;
      buffer := map r | 0 <= r < |visible| :: visible[r];
      assert Dense(buffer, lines) == visible;
    }

    /** `resize`: height first, then width; a width change rewraps and the cursor is clamped last. */
    method Resize(height: nat, width: nat) returns (mapped: (int, int))
      requires Valid() && 1 <= height && 1 <= width
      modifies this
      ensures Valid() && lines == height && columns == width
      ensures
        var resized := WithHeight(old(Viewport(Model(), cursorY)), height);
        && OnScreen(resized)
        && (width == old(columns) ==>
              Model() == resized.rows && cursorX == old(cursorX) && cursorY == resized.y)
        && (width != old(columns) ==>
              && Model() == Rewrapped(resized.rows, width)
              && CursorRewrapped(resized, old(cursorX), width, mapped, cursorX, cursorY))
    {
      hide WithHeight, Rewrapped, CursorRewrapped;
      SameHeight(Viewport(Model(), cursorY));
      WithHeightKeepsRows(Viewport(Model(), cursorY), height);
      mapped := (0, 0);
      if height == lines && width == columns {
        return;
      }
      ResizeHeight(height);
      margins := None;
      mapped := ResizeWidth(width);
    }

    /** `mapped` is where the cursor's cell, or the end of its line, came to be among the rewrapped rows. */
    method ResizeWidth(width: nat) returns (mapped: (int, int))
      requires Valid() && 1 <= width
      modifies this`buffer, this`scrollback, this`lines, this`cursorX, this`cursorY, this`columns
      ensures Valid() && columns == width && lines == old(lines)
      ensures width == old(columns) ==> Model() == old(Model()) && cursorX == old(cursorX) && cursorY == old(cursorY)
      ensures width != old(columns) ==>
        && Model() == Rewrapped(old(Model()), width)
        && CursorRewrapped(old(Viewport(Model(), cursorY)), old(cursorX), width, mapped, cursorX, cursorY)
    {
      hide Rewrapped, WrapOutput, CursorFollows, AllRows;
      mapped := (0, 0);
      if width != columns {
        mapped := ReflowTo(width);
        columns := width;
      }
      cursorY := Min(Max(0, cursorY), lines - 1);
      cursorX := Min(Max(0, cursorX), width);
    }
  }

  /**
   The cursor after a width change and its final clamp: on its cell, or after the end of its line,
   exactly when that place is no further right than the width and did not scroll into history.
   */
  predicate CursorRewrapped(s: Viewport, x: int, width: int, mapped: (int, int), cursorX: int, cursorY: int)
    requires OnScreen(s)
  {
    var output := WrapOutput(s.rows, width);
    var history := |output| - |s.rows.visible|;
    && CursorFollows(AllRows(s.rows), |s.rows.history| + s.y, x, width, output, mapped.0, mapped.1)
    && (cursorX, cursorY) == (if mapped.1 >= history then (Min(mapped.0, width), mapped.1 - history) else (0, 0))
    && ((cursorX, history + cursorY) == mapped <==> mapped.1 >= history && mapped.0 <= width)
  }

  lemma {:induction false} OccupiedCells(cells: seq<Cell>)
    requires forall i :: 0 <= i < |cells| ==> cells[i].occupied >= 1
    ensures |cells| <= Occupancy(cells)
  {
    if cells != [] {
      OccupiedCells(cells[..|cells| - 1]);
    }
  }

  /** Where every cell occupies a column, no cell of a row lies past the width: the clamp moves nothing. */
  lemma ClampMovesOnlyEmptyCells(segments: seq<seq<Cell>>, cells: seq<Cell>, width: int, row: nat)
    requires IsWrapping(segments, cells, width) && row < |segments| && width >= 1
    requires forall i :: 0 <= i < |segments[row]| ==> segments[row][i].occupied >= 1
    ensures |segments[row]| <= width
  {
    OccupiedCells(segments[row]);
  }

  /** `insert_lines`: list insertion, with the wraps across the three moved boundaries disconnected. */
  function AfterInsert(s: Rows, row: nat, bottom: nat, count: nat): Rows
    requires row <= bottom < |s.visible| && count <= bottom + 1 - row
  {
    var cut := BrokenBefore(s, row + count);
    var moved := cut.(visible := InsertRows(cut.visible, row, bottom, count));
    BrokenBefore(BrokenBefore(moved, row), bottom + 1 - count)
  }

  /** `delete_lines`: list deletion, with the wraps across the two moved boundaries disconnected. */
  function AfterDelete(s: Rows, row: nat, bottom: nat, count: nat): Rows
    requires row <= bottom < |s.visible| && count <= bottom + 1 - row
  {
    var cut := BrokenBefore(s, row);
    BrokenBefore(cut.(visible := DeleteRows(cut.visible, row, bottom, count)), bottom + 1 - count)
  }
}
