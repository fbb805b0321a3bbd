/**
 Append-only rollout reading: cursors, clean replays, and what the accepted reads add up to.

 A read is prepared against the current cursor and changes nothing; only an accept commits it. File
 metadata is one stamp per file, the digest state is the bytes digested so far, and `sha` and `json`
 stand for the hash and for what a record says about its own position.
 */
module SourceReader {
  import opened Wrappers
  import opened SourceLines

  type Thread = string

  type Digest = string

  /** The outside functions: record positions, the session identity test, and the hash. */
  datatype Outside = Outside(
    json: Bytes -> Verdict, declares: (Bytes, Thread) -> bool, sha: Bytes -> Digest)

  /** A source as the caller describes it; a checkpoint is a size and the digest of that prefix. */
  datatype Source = Source(thread: Thread, kind: Kind, checkpoint: Option<(nat, Digest)>)

  /** A rollout file: its identity, its change stamp and its bytes. */
  datatype File = File(identity: int, stamp: int, content: Bytes)

  datatype Cursor = Cursor(
    source: Source, identity: int, stamp: int, size: nat, complete: nat, tail: Bytes, lines: nat, digested: Bytes)

  datatype Read = Read(
    analyzer: Filtered, accepted: Filtered, appended: Filtered, baseline: bool, candidate: Cursor)

  datatype Error =
    | MetadataChanged | IdentityChanged | Truncated | Rewritten | CheckpointChanged | NoCompleteRecord
    | UnexpectedThread | CheckpointOutside | NoChildHistory | AcceptedPrefixChanged

  // ---------------------------------------------------------------- one read

  function AppendStart(c: Cursor, s: Source, f: File): Result<nat, Error> {
    if c.source.thread != s.thread || c.source.kind != s.kind then Failure(MetadataChanged)
    else if c.identity != f.identity then Failure(IdentityChanged)
    else if |f.content| < c.size then Failure(Truncated)
    else if |f.content| == c.size && f.stamp != c.stamp then Failure(Rewritten)
    else Success(c.size)
  }

  predicate CheckpointHolds(s: Source, content: Bytes, o: Outside) {
    s.checkpoint.None?
    || (s.checkpoint.value.0 <= |content| && o.sha(content[..s.checkpoint.value.0]) == s.checkpoint.value.1)
  }

  function NewCursor(s: Source, f: File, after: nat, baseline: bool, o: Outside): Result<Read, Error> {
    var n := CompleteLength(f.content);
    var complete := f.content[..n];
    if n == 0 then Failure(NoCompleteRecord)
    else if !o.declares(complete, s.thread) then Failure(UnexpectedThread)
    else if after > n then Failure(CheckpointOutside)
    else
      var analyzer := Filter(s.kind, complete, 0, o.json);
      if s.kind.Subagent? && Count(analyzer.content) == 1 then Failure(NoChildHistory)
      else
        Success(Read(analyzer, Filter(s.kind, complete[..after], 0, o.json),
                     Filter(s.kind, complete[after..], Count(complete[..after]), o.json), baseline,
                     Cursor(s, f.identity, f.stamp, |f.content|, n, f.content[n..], Count(complete), complete)))
  }

  function AdvanceCursor(c: Cursor, f: File, o: Outside): Read
    requires c.size <= |f.content|
  {
    var combined := c.tail + f.content[c.size..];
    var n := CompleteLength(combined);
    var added := Filter(c.source.kind, combined[..n], c.lines, o.json);
    Read(added, NOTHING, added, true,
         Cursor(c.source, f.identity, f.stamp, |f.content|, c.complete + n, combined[n..],
                c.lines + Count(combined[..n]), c.digested + combined[..n]))
  }

  /** A read of `s` from `f`, given its accepted cursor and whether a clean replay is due. */
  function Captured(cursor: Option<Cursor>, replay: bool, s: Source, f: File, o: Outside): Result<Read, Error> {
    if cursor.None? then
      if !CheckpointHolds(s, f.content, o) then Failure(CheckpointChanged)
      else NewCursor(s, f, if s.checkpoint.Some? then s.checkpoint.value.0 else 0, s.checkpoint.Some?, o)
    else
      var c := cursor.value;
      var start := AppendStart(c, s, f);
      if start.Failure? then Failure(start.error)
      else if !replay then Success(AdvanceCursor(c, f, o))
      else
        var r := NewCursor(s, f, c.complete, true, o);
        if r.Failure? then r
        else if |f.content| >= c.complete && o.sha(f.content[..c.complete]) == o.sha(c.digested) then r
        else Failure(AcceptedPrefixChanged)
  }

  // ---------------------------------------------------------------- what a cursor knows

  /** The cursor's complete prefix and tail are the bytes read, and its count and digest are the prefix's. */
  predicate CursorOf(c: Cursor, content: Bytes) {
    && c.complete <= c.size <= |content|
    && content[..c.size] == content[..c.complete] + c.tail
    && CompleteLength(content[..c.size]) == c.complete
    && c.lines == Count(content[..c.complete]) && c.digested == content[..c.complete]
  }

  lemma {:induction false} CompleteLengthIs(s: Bytes, n: nat)
    requires n <= |s| && (n > 0 ==> s[n - 1] == NL) && forall i :: n <= i < |s| ==> s[i] != NL
    ensures CompleteLength(s) == n
  {
    if |s| > n {
      assert s[|s| - 1] != NL;
      CompleteLengthIs(s[..|s| - 1], n);
    }
  }

  /** Completing `tail + more` completes the whole, shifted by the prefix in front. */
  lemma {:induction false} CompleteAppend(prefix: Bytes, rest: Bytes)
    requires Aligned(prefix)
    ensures CompleteLength(prefix + rest) == |prefix| + CompleteLength(rest)
  {
    CompleteLengthIs(prefix + rest, |prefix| + CompleteLength(rest));
  }

  lemma CursorStays(c: Cursor, content: Bytes, more: Bytes)
    requires CursorOf(c, content)
    ensures CursorOf(c, content + more)
  {
    assert (content + more)[..c.size] == content[..c.size];
    assert (content + more)[..c.complete] == content[..c.complete];
  }

  lemma NewCursorOf(s: Source, f: File, after: nat, baseline: bool, o: Outside)
    requires NewCursor(s, f, after, baseline, o).Success?
    ensures CursorOf(NewCursor(s, f, after, baseline, o).value.candidate, f.content)
  {
    var n := CompleteLength(f.content);
    assert f.content[..|f.content|] == f.content == f.content[..n] + f.content[n..];
  }

  lemma SplitAt(s: Bytes, i: nat, j: nat)
    requires i <= j <= |s|
    ensures s[..i] + s[i..j] == s[..j] && s[i..j] + s[j..] == s[i..] && s[..i] + s[i..] == s
  {}

  lemma TailIs(c: Cursor, content: Bytes)
    requires CursorOf(c, content)
    ensures c.tail == content[c.complete..c.size] && Aligned(content[..c.complete])
    ensures c.tail + content[c.size..] == content[c.complete..]
  {
    assert content[..c.size][c.complete..] == c.tail;
    SplitAt(content, c.complete, c.size);
    if c.complete > 0 {
      assert content[..c.size][c.complete - 1] == content[c.complete - 1];
    }
  }

  /** Cutting what follows the complete prefix at `n` cuts the content itself at `m`. */
  lemma CutShift(content: Bytes, complete: nat, n: nat)
    requires complete + n <= |content|
    ensures var m := complete + n;
            && content[complete..][..n] == content[complete..m] && content[complete..][n..] == content[m..]
            && content[..m] + content[m..] == content && content[..complete] + content[complete..m] == content[..m]
            && content[..complete] + content[complete..] == content && content[..|content|] == content
  {}

  lemma {:induction false} AdvanceCursorOf(c: Cursor, f: File, o: Outside)
    requires CursorOf(c, f.content)
    ensures var r := AdvanceCursor(c, f, o);
            && CursorOf(r.candidate, f.content) && r.candidate.complete == CompleteLength(f.content) >= c.complete
            && r.appended == Filter(c.source.kind, f.content[c.complete..r.candidate.complete],
                                    Count(f.content[..c.complete]), o.json)
  {
    hide Filter, Count, CompleteLength;
    TailIs(c, f.content);
    var n := CompleteLength(f.content[c.complete..]);
    CompleteAppend(f.content[..c.complete], f.content[c.complete..]);
    CutShift(f.content, c.complete, n);
    CountAppend(f.content[..c.complete], f.content[c.complete..c.complete + n]);
  }

  // ---------------------------------------------------------------- what a read adds

  /** Where the appended part of a read begins. */
  function AppendAfter(cursor: Option<Cursor>, s: Source): nat {
    if cursor.Some? then cursor.value.complete else if s.checkpoint.Some? then s.checkpoint.value.0 else 0
  }

  /** The read's cursor covers the content, and its appended part is the filter of what follows `after`. */
  predicate Appends(r: Read, after: nat, content: Bytes, o: Outside) {
    var c := r.candidate;
    && CursorOf(c, content) && after <= c.complete
    && r.appended == Filter(c.source.kind, content[after..c.complete], Count(content[..after]), o.json)
  }

  lemma {:induction false} NewCursorAppends(s: Source, f: File, after: nat, baseline: bool, o: Outside)
    requires NewCursor(s, f, after, baseline, o).Success?
    ensures Appends(NewCursor(s, f, after, baseline, o).value, after, f.content, o)
  {
    hide Filter, Count, CompleteLength;
    NewCursorOf(s, f, after, baseline, o);
    var n := CompleteLength(f.content);
    assert f.content[..n][..after] == f.content[..after] && f.content[..n][after..] == f.content[after..n];
  }

  /** Every successful read, incremental or replayed, appends exactly what follows the accepted prefix. */
  lemma {:induction false} CapturedAppends(cursor: Option<Cursor>, replay: bool, s: Source, f: File, o: Outside)
    requires cursor.Some? ==> CursorOf(cursor.value, f.content)
    requires Captured(cursor, replay, s, f, o).Success?
    ensures var r := Captured(cursor, replay, s, f, o).value;
            && Appends(r, AppendAfter(cursor, s), f.content, o)
            && r.candidate.source.kind == s.kind && r.candidate.complete == CompleteLength(f.content)
            && (cursor.Some? ==> cursor.value.source.kind == s.kind)
            && (cursor.None? ==> r.candidate.source == s)
  {
    hide Filter, Count, CompleteLength, NewCursor, AdvanceCursor, CursorOf;
    var after := AppendAfter(cursor, s);
    if cursor.None? || replay {
      var baseline := cursor.Some? || s.checkpoint.Some?;
      NewCursorAppends(s, f, after, baseline, o);
      NewCursorSource(s, f, after, baseline, o);
    } else {
      AdvanceCursorOf(cursor.value, f, o);
      AdvanceSource(cursor.value, f, o);
    }
  }

  lemma NewCursorSource(s: Source, f: File, after: nat, baseline: bool, o: Outside)
    requires NewCursor(s, f, after, baseline, o).Success?
    ensures var c := NewCursor(s, f, after, baseline, o).value.candidate;
            c.source == s && c.complete == CompleteLength(f.content)
  {}

  lemma AdvanceSource(c: Cursor, f: File, o: Outside)
    requires c.size <= |f.content|
    ensures AdvanceCursor(c, f, o).candidate.source == c.source
  {}

  lemma {:induction false} BareReturnsAppend(a: Bytes, b: Bytes)
    requires Aligned(a)
    ensures BareReturns(a + b) == BareReturns(a) + BareReturns(b)
  {
    if a == [] {
      assert a + b == b;
    } else {
      assert (a + b)[1..] == a[1..] + b;
      BareReturnsAppend(a[1..], b);
    }
  }

  predicate Exactable(kind: Kind, prefix: Bytes) {
    kind.Root? || BareReturns(prefix) == 0
  }

  lemma ShorterExactable(kind: Kind, content: Bytes, i: nat, j: nat)
    requires i <= j <= |content| && Aligned(content[..i]) && Exactable(kind, content[..j])
    ensures Exactable(kind, content[..i])
  {
    SplitAt(content, i, j);
    BareReturnsAppend(content[..i], content[i..j]);
  }

  /** The appended part completes the filter of the accepted prefix to the filter of the new one. */
  lemma {:induction false} AppendedCompletes(r: Read, after: nat, content: Bytes, o: Outside)
    requires Appends(r, after, content, o) && Aligned(content[..after])
    requires Exactable(r.candidate.source.kind, content[..r.candidate.complete])
    ensures var kind := r.candidate.source.kind;
            Filter(kind, content[..r.candidate.complete], 0, o.json)
              == Cat(Filter(kind, content[..after], 0, o.json), r.appended)
  {
    hide Filter;
    var kind, m := r.candidate.source.kind, r.candidate.complete;
    ShorterExactable(kind, content, after, m);
    SplitAt(content, after, m);
    FilterAppend(kind, content[..after], content[after..m], o.json);
  }

  /** A replayed or first read also delivers the accepted and the whole content, consistently. */
  lemma {:induction false} ReplayIsWhole(cursor: Option<Cursor>, s: Source, f: File, o: Outside)
    requires Captured(cursor, true, s, f, o).Success?
    requires Exactable(s.kind, f.content[..CompleteLength(f.content)])
    requires AppendAfter(cursor, s) <= |f.content| ==> Aligned(f.content[..AppendAfter(cursor, s)])
    ensures var r := Captured(cursor, true, s, f, o).value;
            && r.analyzer == Filter(s.kind, f.content[..CompleteLength(f.content)], 0, o.json)
            && r.analyzer == Cat(r.accepted, r.appended)
  {
    hide Filter;
    var after, n := AppendAfter(cursor, s), CompleteLength(f.content);
    var baseline := cursor.Some? || s.checkpoint.Some?;
    NewCursorAppends(s, f, after, baseline, o);
    var r := NewCursor(s, f, after, baseline, o).value;
    AppendedCompletes(r, after, f.content, o);
    assert f.content[..n][..after] == f.content[..after];
  }

  // ---------------------------------------------------------------- runs

  /** The files, the reader, the prepared reads, and a record of what accepted reads handed over. */
  datatype World = World(
    files: map<Thread, File>, cursors: map<Thread, Cursor>, replay: bool, pending: map<Thread, Read>,
    base: map<Thread, nat>, handed: map<Thread, Filtered>)

  datatype Op =
    | Grow(thread: Thread, more: Bytes, stamp: int)
    | Prepare(source: Source)
    | Abandon(thread: Thread)
    | Accept(thread: Thread)
    | RequireCleanReplay

  function CursorFor(w: World, t: Thread): Option<Cursor> {
    if t in w.cursors then Some(w.cursors[t]) else None
  }

  function Handed(w: World, t: Thread): Filtered {
    if t in w.handed then w.handed[t] else NOTHING
  }

  function Step(w: World, op: Op, o: Outside): World {
    match op
    case Grow(t, more, stamp) =>
      if t !in w.files then w
      else w.(files := w.files[t := w.files[t].(content := w.files[t].content + more, stamp := stamp)])
    case Prepare(s) =>
      if s.thread !in w.files then w
      else
        var r := Captured(CursorFor(w, s.thread), w.replay, s, w.files[s.thread], o);
        if r.Failure? then w else w.(pending := w.pending[s.thread := r.value])
    case Abandon(t) => w.(pending := w.pending - {t})
    case Accept(t) =>
      if t !in w.pending then w.(replay := false)
      else
        var r := w.pending[t];
        w.(cursors := w.cursors[t := r.candidate], replay := false, pending := w.pending - {t},
           base := if t in w.cursors then w.base else w.base[t := AppendAfter(None, r.candidate.source)],
           handed := w.handed[t := Cat(Handed(w, t), r.appended)])
    case RequireCleanReplay => w.(replay := true)
  }

  function Run(w: World, ops: seq<Op>, o: Outside): World
    decreases |ops|
  {
    if ops == [] then w else Run(Step(w, ops[0], o), ops[1..], o)
  }

  /** The accepted reads of `t` add up to one filter of the accepted prefix past the checkpoint. */
  predicate AddsUp(c: Cursor, base: nat, handed: Filtered, content: Bytes, o: Outside) {
    && CursorOf(c, content) && base <= c.complete
    && (Aligned(content[..base]) && Exactable(c.source.kind, content[..c.complete]) ==>
          Filter(c.source.kind, content[..c.complete], 0, o.json)
          == Cat(Filter(c.source.kind, content[..base], 0, o.json), handed))
  }

  predicate ThreadOk(w: World, t: Thread, o: Outside) {
    && (t in w.cursors ==>
          t in w.files && t in w.base && AddsUp(w.cursors[t], w.base[t], Handed(w, t), w.files[t].content, o))
    && (t !in w.cursors ==> t !in w.handed)
    && (t in w.pending ==>
          && t in w.files
          && Appends(w.pending[t], AppendAfter(CursorFor(w, t), w.pending[t].candidate.source), w.files[t].content, o)
          && (t in w.cursors ==> w.pending[t].candidate.source.kind == w.cursors[t].source.kind))
  }

  lemma AppendsStays(r: Read, after: nat, content: Bytes, more: Bytes, o: Outside)
    requires Appends(r, after, content, o)
    ensures Appends(r, after, content + more, o)
  {
    hide Filter, Count;
    CursorStays(r.candidate, content, more);
    var m := r.candidate.complete;
    assert (content + more)[after..m] == content[after..m];
    assert (content + more)[..after] == content[..after];
  }

  lemma AddsUpStays(c: Cursor, base: nat, handed: Filtered, content: Bytes, more: Bytes, o: Outside)
    requires AddsUp(c, base, handed, content, o)
    ensures AddsUp(c, base, handed, content + more, o)
  {
    hide Filter, Exactable;
    CursorStays(c, content, more);
    assert (content + more)[..c.complete] == content[..c.complete];
    assert (content + more)[..base] == content[..base];
  }

  lemma {:induction false} FirstAddsUp(r: Read, content: Bytes, o: Outside)
    requires Appends(r, AppendAfter(None, r.candidate.source), content, o)
    ensures AddsUp(r.candidate, AppendAfter(None, r.candidate.source), Cat(NOTHING, r.appended), content, o)
  {
    hide Filter, Exactable;
    CatAssociates(r.appended, r.appended, r.appended);
    var base := AppendAfter(None, r.candidate.source);
    if Aligned(content[..base]) && Exactable(r.candidate.source.kind, content[..r.candidate.complete]) {
      AppendedCompletes(r, base, content, o);
    }
  }

  lemma {:induction false} NextAddsUp(c: Cursor, base: nat, handed: Filtered, r: Read, content: Bytes, o: Outside)
    requires AddsUp(c, base, handed, content, o) && Appends(r, c.complete, content, o)
    requires r.candidate.source.kind == c.source.kind
    ensures AddsUp(r.candidate, base, Cat(handed, r.appended), content, o)
  {
    hide Filter, Exactable, CursorOf;
    var kind := c.source.kind;
    CursorBounds(c, content);
    CursorBounds(r.candidate, content);
    if Aligned(content[..base]) && Exactable(kind, content[..r.candidate.complete]) {
      TailIs(c, content);
      ShorterExactable(kind, content, c.complete, r.candidate.complete);
      AppendedCompletes(r, c.complete, content, o);
      CatAssociates(Filter(kind, content[..base], 0, o.json), handed, r.appended);
    }
  }

  lemma CursorBounds(c: Cursor, content: Bytes)
    requires CursorOf(c, content)
    ensures c.complete <= |content|
  {}

  lemma GrowOk(w: World, more: Bytes, stamp: int, t: Thread, o: Outside)
    requires ThreadOk(w, t, o)
    ensures ThreadOk(Step(w, Grow(t, more, stamp), o), t, o)
  {
    hide AddsUp, Appends;
    if t in w.cursors {
      AddsUpStays(w.cursors[t], w.base[t], Handed(w, t), w.files[t].content, more, o);
    }
    if t in w.pending {
      var after := AppendAfter(CursorFor(w, t), w.pending[t].candidate.source);
      AppendsStays(w.pending[t], after, w.files[t].content, more, o);
    }
  }

  lemma PrepareOk(w: World, s: Source, o: Outside)
    requires ThreadOk(w, s.thread, o)
    ensures ThreadOk(Step(w, Prepare(s), o), s.thread, o)
  {
    hide AddsUp, Appends, Captured;
    var t := s.thread;
    if t in w.files && Captured(CursorFor(w, t), w.replay, s, w.files[t], o).Success? {
      AddsUpCursor(w, t, o);
      CapturedAppends(CursorFor(w, t), w.replay, s, w.files[t], o);
    }
  }

  lemma AcceptOk(w: World, t: Thread, o: Outside)
    requires ThreadOk(w, t, o)
    ensures ThreadOk(Step(w, Accept(t), o), t, o)
  {
    hide AddsUp, Appends, Cat;
    if t in w.pending {
      if t in w.cursors {
        NextAddsUp(w.cursors[t], w.base[t], Handed(w, t), w.pending[t], w.files[t].content, o);
      } else {
        FirstAddsUp(w.pending[t], w.files[t].content, o);
      }
    }
  }

  /** What happens to one source leaves every other as it was. */
  lemma OthersOk(w: World, op: Op, t: Thread, o: Outside)
    requires ThreadOk(w, t, o)
    requires op.RequireCleanReplay? || op.Abandon? || (if op.Prepare? then op.source.thread else op.thread) != t
    ensures ThreadOk(Step(w, op, o), t, o)
  {
    hide AddsUp, Appends, Captured, Cat;
  }

  lemma {:induction false} StepOk(w: World, op: Op, t: Thread, o: Outside)
    requires ThreadOk(w, t, o)
    ensures ThreadOk(Step(w, op, o), t, o)
  {
    hide ThreadOk, Step;
    if op.RequireCleanReplay? || op.Abandon? || (if op.Prepare? then op.source.thread else op.thread) != t {
      OthersOk(w, op, t, o);
    } else if op.Grow? {
      GrowOk(w, op.more, op.stamp, t, o);
    } else if op.Prepare? {
      PrepareOk(w, op.source, o);
    } else {
      AcceptOk(w, t, o);
    }
  }

  lemma AddsUpCursor(w: World, t: Thread, o: Outside)
    requires ThreadOk(w, t, o)
    ensures t in w.cursors ==> CursorOf(w.cursors[t], w.files[t].content)
  {}

  /**
   Over any mix of growth, abandoned reads, accepts and clean replays, in any interleaving over all
   sources: what accepted reads appended adds up to one filter of the accepted prefix.
   */
  lemma {:induction false} RunAddsUp(w: World, ops: seq<Op>, t: Thread, o: Outside)
    requires ThreadOk(w, t, o)
    ensures ThreadOk(Run(w, ops, o), t, o)
    decreases |ops|
  {
    hide ThreadOk, Step;
    if ops != [] {
      StepOk(w, ops[0], t, o);
      RunAddsUp(Step(w, ops[0], o), ops[1..], t, o);
    }
  }

  /** A reader that has accepted and prepared nothing. */
  predicate Fresh(w: World) {
    w.cursors == map[] && w.pending == map[] && w.handed == map[]
  }

  lemma {:induction false} AcceptedReadsAreOneRead(w: World, ops: seq<Op>, t: Thread, o: Outside)
    requires Fresh(w) && t in Run(w, ops, o).cursors
    ensures var v := Run(w, ops, o);
            && t in v.files && t in v.base && CursorOf(v.cursors[t], v.files[t].content)
            && v.base[t] <= v.cursors[t].complete
            && var content, c := v.files[t].content, v.cursors[t];
               Aligned(content[..v.base[t]]) && Exactable(c.source.kind, content[..c.complete]) ==>
                 Filter(c.source.kind, content[..c.complete], 0, o.json)
                 == Cat(Filter(c.source.kind, content[..v.base[t]], 0, o.json), Handed(v, t))
  {
    hide Step, Run, Filter;
    RunAddsUp(w, ops, t, o);
  }

  /** Strictly increasing positions between the bounds. */
  predicate Increasing(s: seq<nat>, low: nat, high: nat) {
    && (forall i :: 0 <= i < |s| ==> low <= s[i] < high)
    && (forall i, j :: 0 <= i < j < |s| ==> s[i] < s[j])
  }

  lemma IncreasingCons(x: nat, s: seq<nat>, high: nat)
    requires Increasing(s, x + 1, high) && x < high
    ensures Increasing([x] + s, x, high) && Increasing(s, x, high)
  {
    var u := [x] + s;
    forall i, j | 0 <= i < j < |u| ensures u[i] < u[j] {
      assert u[j] == s[j - 1];
    }
  }

  /** No record is handed over twice: kept positions are strictly increasing. */
  lemma {:induction false} FilterLinesIncrease(lines: seq<Bytes>, offset: nat, cutoff: nat, json: Bytes -> Verdict)
    ensures Increasing(FilterLines(lines, offset, cutoff, json).ordinals, offset, offset + |lines|)
    decreases |lines|
  {
    hide Increasing;
    if lines == [] {
      NothingIncreases(offset);
    } else {
      var rest := FilterLines(lines[1..], offset + 1, cutoff, json).ordinals;
      FilterLinesIncrease(lines[1..], offset + 1, cutoff, json);
      IncreasingCons(offset, rest, offset + |lines|);
      assert [] + rest == rest;
    }
  }

  lemma NothingIncreases(offset: nat)
    ensures Increasing([], offset, offset)
  {}

  // ---------------------------------------------------------------- the reader

  class AnalyticsSourceReader {
    var cursors: map<Thread, Cursor>
    var replay: bool

    constructor ()
      ensures cursors == map[] && !replay
    {
      cursors, replay := map[], false;
    }

    method RequireReplay()
      modifies this`replay
      ensures replay
    {
      replay := true;
    }

    /** Prepare a read; the reader itself is unchanged. */
    method Capture(s: Source, f: File, o: Outside) returns (r: Result<Read, Error>)
      ensures r == Captured(if s.thread in cursors then Some(cursors[s.thread]) else None, replay, s, f, o)
    {
      hide Filter, CompleteLength, Count;
      if s.thread in cursors {
        var c := cursors[s.thread];
        var start := AppendStart(c, s, f);
        if start.Failure? {
          return Failure(start.error);
        }
        if !replay {
          var advanced := Advance(c, f, o);
          return Success(advanced);
        }
        r := Begin(s, f, c.complete, true, o);
        if r.Success? && (|f.content| < c.complete || o.sha(f.content[..c.complete]) != o.sha(c.digested)) {
          return Failure(AcceptedPrefixChanged);
        }
      } else {
        if !CheckpointHolds(s, f.content, o) {
          return Failure(CheckpointChanged);
        }
        r := Begin(s, f, if s.checkpoint.Some? then s.checkpoint.value.0 else 0, s.checkpoint.Some?, o);
      }
    }

    /** Commit prepared reads, the later ones winning, and end any clean replay. */
    method AcceptReads(prepared: seq<Read>)
      modifies this
      ensures cursors == Committed(old(cursors), prepared) && !replay
    {
      assert prepared[0..] == prepared;
      for i := 0 to |prepared|
        invariant Committed(cursors, prepared[i..]) == Committed(old(cursors), prepared)
      {
        assert prepared[i..][1..] == prepared[i + 1..];
        var candidate := prepared[i].candidate;
        cursors := cursors[candidate.source.thread := candidate];
      }
      replay := false;
    }
  }

  function Committed(cursors: map<Thread, Cursor>, prepared: seq<Read>): map<Thread, Cursor>
    decreases |prepared|
  {
    if prepared == [] then cursors
    else Committed(cursors[prepared[0].candidate.source.thread := prepared[0].candidate], prepared[1..])
  }

  method Begin(s: Source, f: File, after: nat, baseline: bool, o: Outside) returns (r: Result<Read, Error>)
    ensures r == NewCursor(s, f, after, baseline, o)
  {
    hide Filter, Count, CompleteLength;
    var newline := FindLastNewline(f.content);
    if newline < 0 {
      return Failure(NoCompleteRecord);
    }
    var complete, tail := f.content[..newline + 1], f.content[newline + 1..];
    if !o.declares(complete, s.thread) {
      return Failure(UnexpectedThread);
    }
    var analyzer := FilterAnalyzerLines(s.kind, complete, 0, o.json);
    if after > |complete| {
      return Failure(CheckpointOutside);
    }
    var accepted := FilterAnalyzerLines(s.kind, complete[..after], 0, o.json);
    var appended := FilterAnalyzerLines(s.kind, complete[after..], Count(complete[..after]), o.json);
    if s.kind.Subagent? && Count(analyzer.content) == 1 {
      return Failure(NoChildHistory);
    }
    return Success(Read(analyzer, accepted, appended, baseline,
                        Cursor(s, f.identity, f.stamp, |f.content|, |complete|, tail, Count(complete), complete)));
  }

  method Advance(c: Cursor, f: File, o: Outside) returns (r: Read)
    requires c.size <= |f.content|
    ensures r == AdvanceCursor(c, f, o)
  {
    hide Filter, Count, CompleteLength;
    var combined := c.tail + f.content[c.size..];
    var newline := FindLastNewline(combined);
    var complete, tail := combined[..newline + 1], combined[newline + 1..];
    var added := FilterAnalyzerLines(c.source.kind, complete, c.lines, o.json);
    return Read(added, NOTHING, added, true,
                Cursor(c.source, f.identity, f.stamp, |f.content|, c.complete + |complete|, tail,
                       c.lines + Count(complete), c.digested + complete));
  }
}
