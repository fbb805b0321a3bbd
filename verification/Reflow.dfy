/**
 Rewrapping of logical lines: the value-level account of `_reflow`.

 A row's `cells` are its columns from 0 up to the last stored one (a missing sparse column reads as the
 line's default cell); `wrapped` marks a soft wrap into the next row.
 */
module Reflow {
  import opened Wrappers

  /** `occupied` is the number of terminal columns a grid entry takes; padding takes none. */
  datatype Cell = Cell(glyph: int, occupied: nat)

  datatype Line = Line(cells: seq<Cell>, wrapped: bool)

  const BLANK := Line([], false)

  function Blanks(n: int): (s: seq<Line>)
    ensures |s| == if n < 0 then 0 else n
    ensures forall i :: 0 <= i < |s| ==> s[i] == BLANK
  {
    if n <= 0 then [] else seq(n, _ => BLANK)
  }

  // ---------------------------------------------------------------- logical lines

  function CellsOf(rows: seq<Line>): seq<Cell> {
    if rows == [] then [] else rows[0].cells + CellsOf(rows[1..])
  }

  /** How many rows the logical line starting at the first row spans. */
  function Span(rows: seq<Line>): (n: nat)
    requires rows != []
    ensures 1 <= n <= |rows|
    ensures forall i :: 0 <= i < n - 1 ==> rows[i].wrapped
    ensures n < |rows| ==> !rows[n - 1].wrapped
  {
    if |rows| == 1 || !rows[0].wrapped then 1 else 1 + Span(rows[1..])
  }

  /** The cell sequences of the logical lines, top to bottom. */
  function Logical(rows: seq<Line>): seq<seq<Cell>>
    decreases |rows|
  {
    if rows == [] then []
    else
      var n := Span(rows);
      [CellsOf(rows[..n])] + Logical(rows[n..])
  }

  // ---------------------------------------------------------------- greedy wrapping

  function Occupancy(cells: seq<Cell>): nat {
    if cells == [] then 0 else Occupancy(cells[..|cells| - 1]) + cells[|cells| - 1].occupied
  }

  function WrapFrom(current: seq<Cell>, rest: seq<Cell>, width: int): seq<seq<Cell>>
    decreases |rest|
  {
    if rest == [] then [current]
    else if current != [] && Occupancy(current) + rest[0].occupied > width
    then [current] + WrapFrom([rest[0]], rest[1..], width)
    else WrapFrom(current + [rest[0]], rest[1..], width)
  }

  function Wrap(cells: seq<Cell>, width: int): seq<seq<Cell>> { WrapFrom([], cells, width) }

  /** The rows of one logical line: every row but the last wraps into the next. */
  function RowsOf(segments: seq<seq<Cell>>): (rows: seq<Line>)
    ensures |rows| == |segments|
  {
    seq(|segments|, i requires 0 <= i < |segments| => Line(segments[i], i + 1 < |segments|))
  }

  function WrapAll(logical: seq<seq<Cell>>, width: int): seq<Line> {
    if logical == [] then [] else RowsOf(Wrap(logical[0], width)) + WrapAll(logical[1..], width)
  }

  function Concat(segments: seq<seq<Cell>>): seq<Cell> {
    if segments == [] then [] else segments[0] + Concat(segments[1..])
  }

  /**
   What a wrapping must be: it spells the line, no row overflows unless it is a single cell, and a row
   only ends when the next cell would not fit.
   */
  predicate IsWrapping(segments: seq<seq<Cell>>, cells: seq<Cell>, width: int) {
    && Concat(segments) == cells
    && segments != []
    && (forall i :: 0 <= i < |segments| ==> Occupancy(segments[i]) <= width || |segments[i]| <= 1)
    && (forall i :: 0 <= i < |segments| ==> segments[i] != [] || |segments| == 1)
    && (forall i :: 1 <= i < |segments| ==> Overflows(segments, i, width))
  }

  /** The first cell of row `i` did not fit on the row above. */
  predicate Overflows(segments: seq<seq<Cell>>, i: int, width: int)
    requires 1 <= i < |segments|
  {
    segments[i] != [] && Occupancy(segments[i - 1]) + segments[i][0].occupied > width
  }

  predicate Fits(current: seq<Cell>, width: int) { Occupancy(current) <= width || |current| <= 1 }

  lemma {:induction false} WrapFromIsWrapping(current: seq<Cell>, rest: seq<Cell>, width: int)
    requires Fits(current, width)
    ensures IsWrapping(WrapFrom(current, rest, width), current + rest, width)
    ensures current != [] ==> current <= WrapFrom(current, rest, width)[0]
    ensures current == [] && rest != [] ==> [rest[0]] <= WrapFrom(current, rest, width)[0]
    decreases |rest|
  {
    if rest == [] {
      assert Concat([current]) == current + Concat([]);
      assert current + rest == current;
    } else if current != [] && Occupancy(current) + rest[0].occupied > width {
      assert Occupancy([rest[0]]) == Occupancy([rest[0]][..0]) + rest[0].occupied;
      WrapFromIsWrapping([rest[0]], rest[1..], width);
      assert [rest[0]] + rest[1..] == rest;
      var tail := WrapFrom([rest[0]], rest[1..], width);
      assert tail[0][0] == rest[0];
      var all := [current] + tail;
      assert all[1..] == tail;
      forall i | 1 <= i < |all| ensures Overflows(all, i, width) {
        if i > 1 {
          assert Overflows(tail, i - 1, width);
        }
      }
    } else {
      assert (current + [rest[0]])[..|current|] == current;
      WrapFromIsWrapping(current + [rest[0]], rest[1..], width);
      assert current + [rest[0]] + rest[1..] == current + rest;
    }
  }

  lemma {:induction false} OccupancyGrows(a: seq<Cell>, b: seq<Cell>)
    requires a <= b
    ensures Occupancy(a) <= Occupancy(b)
    decreases |b|
  {
    if |a| < |b| {
      OccupancyGrows(a, b[..|b| - 1]);
    } else {
      assert a == b;
    }
  }

  /** A first row that is a proper prefix of another first row would have stopped too early. */
  lemma FirstRowMaximal(s: seq<seq<Cell>>, t: seq<seq<Cell>>, cells: seq<Cell>, width: int)
    requires IsWrapping(s, cells, width) && IsWrapping(t, cells, width)
    ensures |t[0]| <= |s[0]|
  {
    if |s[0]| < |t[0]| {
      assert cells == s[0] + Concat(s[1..]) && cells == t[0] + Concat(t[1..]);
      assert |s| > 1;
      assert Overflows(s, 1, width);
      assert Concat(s[1..]) == s[1] + Concat(s[1..][1..]);
      var longer := s[0] + [s[1][0]];
      assert longer <= cells && longer <= t[0];
      assert longer[..|s[0]|] == s[0];
      OccupancyGrows(longer, t[0]);
    }
  }

  lemma TailIsWrapping(s: seq<seq<Cell>>, cells: seq<Cell>, width: int)
    requires IsWrapping(s, cells, width) && |s| > 1
    ensures IsWrapping(s[1..], cells[|s[0]|..], width)
  {
    assert cells == s[0] + Concat(s[1..]);
    assert cells[|s[0]|..] == Concat(s[1..]);
    forall i | 1 <= i < |s[1..]| ensures Overflows(s[1..], i, width) {
      assert Overflows(s, i + 1, width);
    }
    assert Overflows(s, 1, width);
  }

  /** Spelling, fitting and maximality determine the rows: the wrapping is unique. */
  lemma {:induction false} WrappingUnique(s: seq<seq<Cell>>, t: seq<seq<Cell>>, cells: seq<Cell>, width: int)
    requires IsWrapping(s, cells, width) && IsWrapping(t, cells, width)
    ensures s == t
    decreases |s|
  {
    FirstRowMaximal(s, t, cells, width);
    FirstRowMaximal(t, s, cells, width);
    assert cells == s[0] + Concat(s[1..]) && cells == t[0] + Concat(t[1..]);
    assert s[0] == cells[..|s[0]|] == t[0];
    if |s| > 1 && |t| > 1 {
      TailIsWrapping(s, cells, width);
      TailIsWrapping(t, cells, width);
      WrappingUnique(s[1..], t[1..], cells[|s[0]|..], width);
      assert s == [s[0]] + s[1..] && t == [t[0]] + t[1..];
    } else {
      NoMoreRows(s, t, cells, width);
      NoMoreRows(t, s, cells, width);
    }
  }

  lemma NoMoreRows(s: seq<seq<Cell>>, t: seq<seq<Cell>>, cells: seq<Cell>, width: int)
    requires IsWrapping(s, cells, width) && IsWrapping(t, cells, width)
    requires |s| == 1 && s[0] == t[0]
    ensures |t| == 1
  {
    assert cells == s[0] + Concat(s[1..]) == t[0] + Concat(t[1..]);
  }

  /** The greedy rows of a line are its only wrapping. */
  lemma WrapCorrect(cells: seq<Cell>, width: int)
    ensures IsWrapping(Wrap(cells, width), cells, width)
    ensures forall segments :: IsWrapping(segments, cells, width) ==> segments == Wrap(cells, width)
  {
    WrapFromIsWrapping([], cells, width);
    assert [] + cells == cells;
    forall segments | IsWrapping(segments, cells, width) ensures segments == Wrap(cells, width) {
      WrappingUnique(segments, Wrap(cells, width), cells, width);
    }
  }

  // ---------------------------------------------------------------- wrapping keeps the logical lines

  lemma SpanOfLine(rows: seq<Line>, rest: seq<Line>, n: nat)
    requires 1 <= n == |rows| && !rows[n - 1].wrapped
    requires forall i :: 0 <= i < n - 1 ==> rows[i].wrapped
    ensures Span(rows + rest) == n
  {
    var all := rows + rest;
    assert forall i :: 0 <= i < n ==> all[i] == rows[i];
    SpanUnique(all, n);
  }

  lemma {:induction false} CellsOfSegments(segments: seq<seq<Cell>>, from: nat)
    requires from <= |segments|
    ensures CellsOf(RowsOf(segments)[from..]) == Concat(segments[from..])
    decreases |segments| - from
  {
    if from < |segments| {
      CellsOfSegments(segments, from + 1);
      assert RowsOf(segments)[from..][1..] == RowsOf(segments)[from + 1..];
      assert segments[from..][1..] == segments[from + 1..];
    }
  }

  /** A wrapped line in front of other rows reads back as that line. */
  lemma LogicalOfLine(cells: seq<Cell>, width: int, rest: seq<Line>)
    ensures Logical(RowsOf(Wrap(cells, width)) + rest) == [cells] + Logical(rest)
  {
    var segments := Wrap(cells, width);
    WrapFromIsWrapping([], cells, width);
    assert [] + cells == cells;
    var rows := RowsOf(segments);
    SpanOfLine(rows, rest, |rows|);
    var all := rows + rest;
    assert all[..|rows|] == rows && all[|rows|..] == rest;
    CellsOfSegments(segments, 0);
    assert rows[0..] == rows && segments[0..] == segments;
  }

  /** Rewrapping to any width keeps every logical line's cells, in order; rows below are untouched. */
  lemma {:induction false} LogicalOfWrap(logical: seq<seq<Cell>>, width: int, rest: seq<Line>)
    ensures Logical(WrapAll(logical, width) + rest) == logical + Logical(rest)
  {
    hide Logical, Wrap, RowsOf;
    if logical == [] {
      assert WrapAll(logical, width) + rest == rest;
    } else {
      var rows, more := RowsOf(Wrap(logical[0], width)), WrapAll(logical[1..], width);
      assert rows + more + rest == rows + (more + rest);
      LogicalOfLine(logical[0], width, more + rest);
      LogicalOfWrap(logical[1..], width, rest);
      assert logical == [logical[0]] + logical[1..];
    }
  }

  lemma {:induction false} LogicalOfBlanks(n: nat)
    ensures Logical(Blanks(n)) == seq(n, _ => [])
  {
    if n > 0 {
      assert Blanks(n)[1..] == Blanks(n - 1);
      LogicalOfBlanks(n - 1);
      assert Span(Blanks(n)) == 1;
      assert Blanks(n)[..1] == [BLANK];
      assert CellsOf([BLANK]) == [] + CellsOf([]);
    }
  }

  lemma {:induction false} WrapConcat(a: seq<seq<Cell>>, b: seq<seq<Cell>>, width: int)
    ensures WrapAll(a + b, width) == WrapAll(a, width) + WrapAll(b, width)
  {
    if a == [] {
      assert a + b == b;
    } else {
      assert (a + b)[1..] == a[1..] + b;
      WrapConcat(a[1..], b, width);
    }
  }

  lemma {:induction false} WrapBlanks(n: nat, width: int)
    ensures WrapAll(seq(n, _ => []), width) == Blanks(n)
  {
    var empty: seq<seq<Cell>> := seq(n, _ => []);
    if n > 0 {
      assert empty[1..] == seq(n - 1, _ => []);
      WrapBlanks(n - 1, width);
      assert Wrap([], width) == [[]];
      assert RowsOf([[]]) == [BLANK];
    }
  }

  /** Reflowing to w1 and then to w2 gives the rows of reflowing to w2, up to trailing blank rows. */
  lemma ReflowTwice(rows: seq<Line>, w1: int, w2: int, padding: nat)
    ensures WrapAll(Logical(WrapAll(Logical(rows), w1) + Blanks(padding)), w2)
         == WrapAll(Logical(rows), w2) + Blanks(padding)
  {
    LogicalOfWrap(Logical(rows), w1, Blanks(padding));
    LogicalOfBlanks(padding);
    WrapConcat(Logical(rows), seq(padding, _ => []), w2);
    WrapBlanks(padding, w2);
  }

  // ---------------------------------------------------------------- reading rows line by line

  lemma {:induction false} CellsConcat(a: seq<Line>, b: seq<Line>)
    ensures CellsOf(a + b) == CellsOf(a) + CellsOf(b)
  {
    if a == [] {
      assert a + b == b;
    } else {
      assert (a + b)[1..] == a[1..] + b;
      CellsConcat(a[1..], b);
    }
  }

  /** No logical line spans the boundary before row `i`. */
  predicate Boundary(rows: seq<Line>, i: int) {
    i <= 0 || i >= |rows| || !rows[i - 1].wrapped
  }

  lemma SpanUnique(rows: seq<Line>, n: nat)
    requires 1 <= n <= |rows| && Boundary(rows, n)
    requires forall i :: 0 <= i < n - 1 ==> rows[i].wrapped
    ensures Span(rows) == n
  {
    var m := Span(rows);
  }

  lemma CutConcat<T>(a: seq<T>, b: seq<T>, n: nat)
    requires n <= |a|
    ensures (a + b)[..n] == a[..n] && (a + b)[n..] == a[n..] + b
  {
  }

  lemma SplitAt<T>(s: seq<T>, n: nat)
    requires n <= |s|
    ensures s[..n] + s[n..] == s
  {
  }

  lemma ConcatOne(cells: seq<Cell>, rest: seq<seq<Cell>>)
    ensures Concat([cells] + rest) == cells + Concat(rest)
  {
    assert ([cells] + rest)[1..] == rest;
  }

  lemma Associative<T>(a: seq<T>, b: seq<T>, c: seq<T>)
    ensures a + b + c == a + (b + c)
  {
  }

  lemma LogicalUnfold(rows: seq<Line>)
    requires rows != []
    ensures Logical(rows) == [CellsOf(rows[..Span(rows)])] + Logical(rows[Span(rows)..])
  {
  }

  /** A line that ends inside `a` spans the same rows whether or not `b` follows. */
  lemma SpanInFront(a: seq<Line>, b: seq<Line>)
    requires a != [] && Boundary(a + b, |a|)
    ensures Span(a + b) == Span(a) && Boundary(a[Span(a)..] + b, |a[Span(a)..]|)
  {
    var n, all := Span(a), a + b;
    assert forall i :: 0 <= i < |a| ==> all[i] == a[i];
    SpanUnique(all, n);
    if n < |a| && b != [] {
      assert (a[n..] + b)[|a| - n - 1] == a[|a| - 1];
    }
  }

  /** Logical lines of rows cut at a boundary. */
  lemma {:induction false} LogicalSplit(a: seq<Line>, b: seq<Line>)
    requires Boundary(a + b, |a|)
    ensures Logical(a + b) == Logical(a) + Logical(b)
    decreases |a|
  {
    if a == [] {
      assert a + b == b;
    } else {
      hide Logical, CellsOf, Span, Boundary;
      SpanInFront(a, b);
      var n, all := Span(a), a + b;
      var rest := a[n..];
      LogicalSplit(rest, b);
      LogicalUnfold(a);
      LogicalUnfold(all);
      CutConcat(a, b, n);
      Associative([CellsOf(a[..n])], Logical(rest), Logical(b));
    }
  }

  lemma OneLine(line: seq<Line>)
    requires line != [] && forall i :: 0 <= i < |line| - 1 ==> line[i].wrapped
    ensures Logical(line) == [CellsOf(line)]
  {
    SpanUnique(line, |line|);
    assert line[..|line|] == line && line[|line|..] == [];
  }

  /** Reading one more logical line appends its cells. */
  lemma LogicalExtend(rows: seq<Line>, start: nat, next: nat)
    requires start < next <= |rows| && Boundary(rows, start) && Boundary(rows, next)
    requires forall i :: start <= i < next - 1 ==> rows[i].wrapped
    ensures Logical(rows[..next]) == Logical(rows[..start]) + [CellsOf(rows[start..next])]
  {
    var line := rows[start..next];
    assert rows[..next] == rows[..start] + line;
    LogicalSplit(rows[..start], line);
    OneLine(line);
  }

  lemma WrapExtend(logical: seq<seq<Cell>>, cells: seq<Cell>, width: int)
    ensures WrapAll(logical + [cells], width) == WrapAll(logical, width) + RowsOf(Wrap(cells, width))
  {
    WrapConcat(logical, [cells], width);
    assert WrapAll([cells], width) == RowsOf(Wrap(cells, width)) + WrapAll([], width);
  }

  lemma {:induction false} CellsOfWrap(logical: seq<seq<Cell>>, width: int)
    ensures CellsOf(WrapAll(logical, width)) == Concat(logical)
  {
    if logical != [] {
      var segments := Wrap(logical[0], width);
      CellsConcat(RowsOf(segments), WrapAll(logical[1..], width));
      CellsOfSegments(segments, 0);
      assert RowsOf(segments)[0..] == RowsOf(segments) && segments[0..] == segments;
      WrapFromIsWrapping([], logical[0], width);
      assert [] + logical[0] == logical[0];
      CellsOfWrap(logical[1..], width);
    }
  }

  lemma {:induction false} ConcatLogical(rows: seq<Line>)
    ensures Concat(Logical(rows)) == CellsOf(rows)
    decreases |rows|
  {
    if rows != [] {
      var n := Span(rows);
      hide CellsOf, Logical;
      LogicalUnfold(rows);
      ConcatLogical(rows[n..]);
      CellsConcat(rows[..n], rows[n..]);
      SplitAt(rows, n);
      ConcatOne(CellsOf(rows[..n]), Logical(rows[n..]));
    }
  }

  /** Rewrapping loses, duplicates and reorders no cell. */
  lemma ReflowKeepsCells(rows: seq<Line>, width: int)
    ensures CellsOf(WrapAll(Logical(rows), width)) == CellsOf(rows)
  {
    CellsOfWrap(Logical(rows), width);
    ConcatLogical(rows);
  }
}
