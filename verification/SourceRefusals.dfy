/** Tamper evidence: exactly which reads are refused, and why, whatever happened to the file in between. */
module SourceRefusals {
  import opened Wrappers
  import opened SourceLines
  import opened SourceReader

  /** The file an accepted cursor was read from can have become this one by appending. */
  predicate Continues(c: Cursor, s: Source, f: File) {
    && c.source.thread == s.thread && c.source.kind == s.kind && c.identity == f.identity
    && c.size <= |f.content| && (c.size == |f.content| ==> c.stamp == f.stamp)
  }

  /** An incremental read succeeds exactly when the file continues the accepted one. */
  lemma {:induction false} IncrementalReadIff(c: Cursor, s: Source, f: File, o: Outside)
    ensures Captured(Some(c), false, s, f, o).Success? <==> Continues(c, s, f)
  {
    hide AdvanceCursor, NewCursor;
  }

  /** A shorter file, another identity, other metadata or a same-size rewrite is refused as such, on every read. */
  lemma {:induction false} ChangedFileRefused(c: Cursor, replay: bool, s: Source, f: File, o: Outside)
    ensures var r := Captured(Some(c), replay, s, f, o);
            var known := c.source.thread == s.thread && c.source.kind == s.kind;
            && (!known <==> r == Failure(MetadataChanged))
            && (known && c.identity != f.identity <==> r == Failure(IdentityChanged))
            && (known && c.identity == f.identity && |f.content| < c.size <==> r == Failure(Truncated))
            && (known && c.identity == f.identity && |f.content| == c.size && f.stamp != c.stamp <==>
                  r == Failure(Rewritten))
  {
    hide AdvanceCursor, NewCursor;
    NewCursorErrors(s, f, c.complete, true, o);
  }

  lemma NewCursorErrors(s: Source, f: File, after: nat, baseline: bool, o: Outside)
    ensures var r := NewCursor(s, f, after, baseline, o);
            r.Failure? ==> r.error in {NoCompleteRecord, UnexpectedThread, CheckpointOutside, NoChildHistory}
  {
    hide Filter, CompleteLength, Count;
  }

  /** What the complete records of a first or replayed read must be. */
  predicate Readable(s: Source, content: Bytes, after: nat, o: Outside) {
    var n := CompleteLength(content);
    && n > 0 && after <= n && o.declares(content[..n], s.thread)
    && (s.kind.Root? || Count(Filter(s.kind, content[..n], 0, o.json).content) != 1)
  }

  lemma NewCursorIff(s: Source, f: File, after: nat, baseline: bool, o: Outside)
    ensures NewCursor(s, f, after, baseline, o).Success? <==> Readable(s, f.content, after, o)
  {
    hide Filter, CompleteLength, Count;
  }

  /** A first read succeeds exactly when the checkpoint's prefix has its digest and the records are readable. */
  lemma {:induction false} FirstReadIff(s: Source, f: File, replay: bool, o: Outside)
    ensures Captured(None, replay, s, f, o).Success? <==>
      && (s.checkpoint.Some? ==>
            s.checkpoint.value.0 <= |f.content| && o.sha(f.content[..s.checkpoint.value.0]) == s.checkpoint.value.1)
      && Readable(s, f.content, if s.checkpoint.Some? then s.checkpoint.value.0 else 0, o)
    ensures Captured(None, replay, s, f, o) == Failure(CheckpointChanged) <==>
      s.checkpoint.Some? && (|f.content| < s.checkpoint.value.0
                             || o.sha(f.content[..s.checkpoint.value.0]) != s.checkpoint.value.1)
  {
    hide NewCursor, Readable;
    var after := if s.checkpoint.Some? then s.checkpoint.value.0 else 0;
    NewCursorIff(s, f, after, s.checkpoint.Some?, o);
    NewCursorErrors(s, f, after, s.checkpoint.Some?, o);
  }

  /** A replay succeeds exactly when the file continues, is readable, and its accepted prefix has the old digest. */
  lemma {:induction false} ReplayIff(c: Cursor, s: Source, f: File, o: Outside)
    ensures Captured(Some(c), true, s, f, o).Success? <==>
      && Continues(c, s, f) && Readable(s, f.content, c.complete, o)
      && |f.content| >= c.complete && o.sha(f.content[..c.complete]) == o.sha(c.digested)
    ensures Captured(Some(c), true, s, f, o) == Failure(AcceptedPrefixChanged) <==>
      && Continues(c, s, f) && Readable(s, f.content, c.complete, o)
      && !(|f.content| >= c.complete && o.sha(f.content[..c.complete]) == o.sha(c.digested))
  {
    hide NewCursor, Readable, AdvanceCursor;
    NewCursorIff(s, f, c.complete, true, o);
    NewCursorErrors(s, f, c.complete, true, o);
  }

  /**
   What a successful read says of itself: whether something was accepted before, and for an incremental one
   that it hands over the appended part alone; its cursor remembers the file it was read from.
   */
  lemma {:induction false} ReadSays(cursor: Option<Cursor>, replay: bool, s: Source, f: File, o: Outside)
    requires Captured(cursor, replay, s, f, o).Success?
    ensures var r := Captured(cursor, replay, s, f, o).value;
            && (r.baseline <==> cursor.Some? || s.checkpoint.Some?)
            && (cursor.Some? && !replay ==> r.analyzer == r.appended && r.accepted == NOTHING)
            && r.candidate.identity == f.identity && r.candidate.stamp == f.stamp && r.candidate.size == |f.content|
            && r.candidate.source.thread == s.thread
  {
    hide Filter, CompleteLength, Count;
  }

  /** Reading the same unchanged file again is never refused. */
  lemma {:induction false} UnchangedFileReadable(cursor: Option<Cursor>, replay: bool, s: Source, f: File, o: Outside)
    requires Captured(cursor, replay, s, f, o).Success?
    ensures Captured(Some(Captured(cursor, replay, s, f, o).value.candidate), false, s, f, o).Success?
  {
    hide Filter, CompleteLength, Count;
  }

  /** The hash tells this prefix from the accepted one. */
  predicate NoCollision(a: Bytes, b: Bytes, o: Outside) {
    o.sha(a) == o.sha(b) ==> a == b
  }

  /**
   Whatever happened to a file after its cursor was accepted: a replay that succeeds has the accepted
   prefix unchanged, byte for byte, and a changed prefix is refused.
   */
  lemma {:induction false} ReplayProvesPrefix(c: Cursor, accepted: Bytes, s: Source, f: File, o: Outside)
    requires CursorOf(c, accepted) && |f.content| >= c.complete
    requires NoCollision(f.content[..c.complete], accepted[..c.complete], o)
    ensures Captured(Some(c), true, s, f, o).Success? ==> f.content[..c.complete] == accepted[..c.complete]
    ensures f.content[..c.complete] != accepted[..c.complete] ==> Captured(Some(c), true, s, f, o).Failure?
  {
    hide Captured, Continues, Readable, CompleteLength, Count;
    ReplayIff(c, s, f, o);
  }

  /** A refused read changes nothing, so what was accepted before it still stands. */
  lemma {:induction false} RefusedReadKeepsWorld(w: World, s: Source, o: Outside)
    requires s.thread in w.files && s.thread in w.cursors && !Continues(w.cursors[s.thread], s, w.files[s.thread])
    ensures Step(w, Prepare(s), o) == w
  {
    hide NewCursor, AdvanceCursor;
  }
}
