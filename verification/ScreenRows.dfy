/** Row by row: where a height change, an insertion and a deletion leave every line and every wrap link. */
module ScreenRows {
  import opened Wrappers
  import opened Reflow
  import opened Screen

  // ---------------------------------------------------------------- height changes

  /** Shrinking scrolls only as far as the cursor needs; every row that stays is the row it was. */
  lemma {:induction false} ShrinkRows(s: Viewport, height: nat)
    requires OnScreen(s) && 1 <= height < |s.rows.visible|
    ensures var t := WithHeight(s, height);
            var n := s.y - t.y;
            && n == Max(0, s.y - height + 1) && |t.rows.visible| == height
            && (forall i :: 0 <= i < height ==> t.rows.visible[i] == s.rows.visible[n + i])
            && t.rows.history == Capped(s.rows.history + s.rows.visible[..n])
  {}

  /** The `n` newest history rows, then every old visible row, then blanks. */
  predicate Grown(w: seq<Line>, h: seq<Line>, v: seq<Line>, n: nat)
    requires n <= |h| && n + |v| <= |w|
  {
    && (forall i :: 0 <= i < n ==> w[i] == h[|h| - n + i])
    && (forall i :: 0 <= i < |v| ==> w[n + i] == v[i])
    && (forall i :: n + |v| <= i < |w| ==> w[i] == BLANK)
  }

  /** Growing brings back the newest history rows above the old rows and fills up with blanks below. */
  lemma {:induction false} GrowRows(s: Viewport, height: nat)
    requires OnScreen(s) && |s.rows.visible| <= height && 1 <= height
    ensures var t := WithHeight(s, height);
            var h, v := s.rows.history, s.rows.visible;
            var n := t.y - s.y;
            && n == Min(height - |v|, |h|) && |t.rows.visible| == height && t.rows.history == h[..|h| - n]
            && Grown(t.rows.visible, h, v, n)
  {
    hide WithHeight, Blanks, OnScreen, Grown;
    var h, v := s.rows.history, s.rows.visible;
    var n := Min(height - |v|, |h|);
    GrowParts(s, height);
    BlanksAt(height - |v| - n);
    PartsGrown(h, v, Blanks(height - |v| - n), n);
  }

  lemma PartsGrown(h: seq<Line>, v: seq<Line>, c: seq<Line>, n: nat)
    requires n <= |h| && forall i :: 0 <= i < |c| ==> c[i] == BLANK
    ensures Grown(h[|h| - n..] + v + c, h, v, n)
  {
    var a := h[|h| - n..];
    var w := a + v + c;
    forall i | n + |v| <= i < |w| ensures w[i] == BLANK {
      assert w[i] == c[i - n - |v|];
    }
  }

  lemma GrowParts(s: Viewport, height: nat)
    requires OnScreen(s) && |s.rows.visible| <= height && 1 <= height
    ensures var t, h, v := WithHeight(s, height), s.rows.history, s.rows.visible;
            var n := Min(height - |v|, |h|);
            && t.rows.visible == h[|h| - n..] + v + Blanks(height - |v| - n)
            && t.rows.history == h[..|h| - n] && t.y - s.y == n
  {
    hide Blanks;
  }

  lemma BlanksAt(n: nat)
    ensures |Blanks(n)| == n && forall i :: 0 <= i < n ==> Blanks(n)[i] == BLANK
  {}

  /** A row from the cursor down is still there after a shrink when it fits below the top row that stays. */
  lemma {:induction false} RowBelowCursorKept(s: Viewport, height: nat, row: nat)
    requires OnScreen(s) && 1 <= height < |s.rows.visible| && s.y <= row < |s.rows.visible|
    ensures var n := Max(0, s.y - height + 1);
            row - n < height ==> WithHeight(s, height).rows.visible[row - n] == s.rows.visible[row]
  {
    ShrinkRows(s, height);
  }

  // ---------------------------------------------------------------- insertion and deletion

  function Unlinked(line: Line): Line {
    line.(wrapped := false)
  }

  /** A line loses its link to the next exactly where asked. */
  function LinkedUnless(line: Line, broken: bool): Line {
    if broken then Unlinked(line) else line
  }

  lemma BrokenAt(s: Rows, r: nat, i: nat)
    requires r <= |s.visible| && i < |s.visible|
    ensures BrokenBefore(s, r).visible[i] == LinkedUnless(s.visible[i], i + 1 == r)
  {}

  lemma InsertedAt(v: seq<Line>, row: nat, bottom: nat, count: nat, i: nat)
    requires row <= bottom < |v| && count <= bottom + 1 - row && i < |v|
    ensures InsertRows(v, row, bottom, count)[i] ==
      if i < row || bottom < i then v[i] else if i < row + count then BLANK else v[i - count]
  {}

  lemma DeletedAt(v: seq<Line>, row: nat, bottom: nat, count: nat, i: nat)
    requires row <= bottom < |v| && count <= bottom + 1 - row && i < |v|
    ensures DeleteRows(v, row, bottom, count)[i] ==
      if i < row || bottom < i then v[i] else if i + count <= bottom then v[i + count] else BLANK
  {}

  /**
   Every visible line after an insertion. Lines above the line before the cursor and below the bottom
   are as they were; the link into the inserted blanks is broken, and so are the links at the moved
   boundary and out of the line that was pushed to the bottom's place.
   */
  lemma {:induction false} InsertLineByLine(s: Rows, row: nat, bottom: nat, count: nat, i: nat)
    requires row <= bottom < |s.visible| && 1 <= count <= bottom + 1 - row && i < |s.visible|
    ensures |AfterInsert(s, row, bottom, count).visible| == |s.visible|
    ensures AfterInsert(s, row, bottom, count).visible[i] ==
      if i < row then LinkedUnless(s.visible[i], i + 1 == row || i == bottom - count)
      else if bottom < i then s.visible[i]
      else if i < row + count then BLANK
      else LinkedUnless(s.visible[i - count], i == bottom - count || i - count == row + count - 1)
  {
    hide InsertRows, BrokenBefore;
    var cut := BrokenBefore(s, row + count);
    var moved := cut.(visible := InsertRows(cut.visible, row, bottom, count));
    var above := BrokenBefore(moved, row);
    BrokenAt(moved, row, i);
    BrokenAt(above, bottom + 1 - count, i);
    InsertedAt(cut.visible, row, bottom, count, i);
    BrokenAt(s, row + count, i);
    if row + count <= i <= bottom {
      BrokenAt(s, row + count, i - count);
    }
  }

  /** Every visible line after a deletion. */
  lemma {:induction false} DeleteLineByLine(s: Rows, row: nat, bottom: nat, count: nat, i: nat)
    requires row <= bottom < |s.visible| && 1 <= count <= bottom + 1 - row && i < |s.visible|
    ensures |AfterDelete(s, row, bottom, count).visible| == |s.visible|
    ensures AfterDelete(s, row, bottom, count).visible[i] ==
      if i < row then LinkedUnless(s.visible[i], i + 1 == row)
      else if bottom < i then s.visible[i]
      else if i + count <= bottom then LinkedUnless(s.visible[i + count], i == bottom - count)
      else BLANK
  {
    hide DeleteRows, BrokenBefore;
    var cut := BrokenBefore(s, row);
    var moved := cut.(visible := DeleteRows(cut.visible, row, bottom, count));
    BrokenAt(moved, bottom + 1 - count, i);
    DeletedAt(cut.visible, row, bottom, count, i);
    BrokenAt(s, row, i);
    if row <= i && i + count <= bottom {
      BrokenAt(s, row, i + count);
    }
  }

  /** History keeps its lines; the newest loses its link exactly when the cursor is on the first row. */
  lemma {:induction false} ShiftLeavesHistory(s: Rows, row: nat, bottom: nat, count: nat)
    requires row <= bottom < |s.visible| && 1 <= count <= bottom + 1 - row
    ensures var h := s.history;
            var broken := if row == 0 && h != [] then h[..|h| - 1] + [Unlinked(h[|h| - 1])] else h;
            AfterInsert(s, row, bottom, count).history == broken && AfterDelete(s, row, bottom, count).history == broken
  {
    hide InsertRows, DeleteRows;
    var h := s.history;
    if h != [] {
      assert h[..|h| - 1] + [h[|h| - 1]] == h;
    }
  }
}
