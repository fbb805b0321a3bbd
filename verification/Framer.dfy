/**
 Framing of native terminal output.

 `Step` is the per-byte reference machine: it updates the screen at once.  `StreamFeed` is the screen's
 own byte interface, which re-splits a batch into text and complete instructions.  The batching class in
 `Projection` is proved to agree with `Step`, whatever the batch boundaries.
 */
module Framer {
  import opened Wrappers

  type byte = b: int | 0 <= b < 256

  const ESC: byte := 27
  const SEQUENCE_LIMIT := 4096

  datatype Frame =
    | Ground | Escape | Intermediate
    | CsiEnter | CsiParameter | CsiIntermediate | CsiIgnore
    | Osc | Apc | ConsumeSt | Rename
    | DcsEnter | DcsParameter | DcsIntermediate | DcsIgnore | DcsBody | DcsEscape

  /** What a status query reads off the screen; `origin` is the top margin in origin mode. */
  datatype View = View(verified: bool, x: int, y: int, lines: int, columns: int, origin: Option<int>)

  /** The screen as an abstract fold over text bytes and complete instructions. */
  datatype Emulator<!S> = Emulator(text: (S, byte) -> S, execute: (S, seq<byte>) -> S, view: S -> View)

  datatype State<S> = State(
    frame: Frame, sequence: seq<byte>, instruction: seq<byte>,
    control: bool, oversize: bool, synchronized: bool, screen: S)

  datatype Output = Output(native: seq<byte>, controls: seq<byte>, replies: seq<byte>)

  const SILENT := Output([], [], [])

  function Both(bytes: seq<byte>): Output { Output(bytes, bytes, []) }

  function Join(a: Output, b: Output): Output {
    Output(a.native + b.native, a.controls + b.controls, a.replies + b.replies)
  }

  // ---------------------------------------------------------------- byte classes and instruction tests

  predicate DcsHeader(f: Frame) { f.DcsEnter? || f.DcsParameter? || f.DcsIntermediate? || f.DcsIgnore? }

  predicate DcsPayload(f: Frame) { f.DcsBody? || f.DcsEscape? }

  predicate Opaque(f: Frame) { f.Osc? || f.Apc? || f.ConsumeSt? || f.Rename? || DcsHeader(f) }

  predicate Csi(f: Frame) { f.CsiEnter? || f.CsiParameter? || f.CsiIntermediate? || f.CsiIgnore? }

  /** The frames that collect a sequence byte by byte. */
  predicate Collecting(f: Frame) { f.Escape? || f.Intermediate? || Csi(f) }

  predicate Final(b: byte) { 0x40 <= b <= 0x7E }

  /** Strings introduced by ESC: their frame, if the byte introduces one. */
  function StringFrame(b: byte): Option<Frame> {
    if b == 93 then Some(Osc)
    else if b == 80 then Some(DcsEnter)
    else if b == 95 then Some(Apc)
    else if b == 94 || b == 88 then Some(ConsumeSt)
    else if b == 107 then Some(Rename)
    else None
  }

  function Last(s: seq<byte>): byte
    requires s != []
  {
    s[|s| - 1]
  }

  predicate CsiInstruction(s: seq<byte>) { |s| >= 2 && s[0] == ESC && s[1] == 91 }

  function StripZeros(s: seq<byte>): seq<byte> {
    if s != [] && s[0] == 48 then StripZeros(s[1..]) else s
  }

  function SplitParameters(s: seq<byte>): seq<seq<byte>>
    ensures SplitParameters(s) != []
  {
    if s == [] then [[]]
    else
      var rest := SplitParameters(s[1..]);
      if s[0] == 59 then [[]] + rest else [[s[0]] + rest[0]] + rest[1..]
  }

  predicate AnyParameterIs(parameters: seq<seq<byte>>, wanted: seq<byte>) {
    exists i :: 0 <= i < |parameters| && StripZeros(parameters[i]) == wanted
  }

  const SYNCHRONIZED_MODE: seq<byte> := [50, 48, 50, 54]

  /** `_synchronized_update`. */
  function Synchronized(s: seq<byte>): Option<bool> {
    if |s| >= 4 && CsiInstruction(s) && s[2] == 63 && (Last(s) == 104 || Last(s) == 108)
       && AnyParameterIs(SplitParameters(s[3..|s| - 1]), SYNCHRONIZED_MODE)
    then Some(Last(s) == 104) else None
  }

  /** `_terminal_control`. */
  predicate TerminalControl(s: seq<byte>) {
    && CsiInstruction(s)
    && (|| Last(s) == 99 || Last(s) == 110 || Last(s) == 116
        || (Last(s) == 112 && s[|s| - 2] == 36)
        || (|s| >= 3 && (s[2] == 62 || s[2] == 61))
        || s == [27, 91, 63, 117])
  }

  predicate EncodingSwitch(s: seq<byte>) {
    s == [27, 37, 64] || s == [27, 37, 71] || s == [27, 37, 56]
  }

  predicate StatusQuery(s: seq<byte>) { CsiInstruction(s) && Last(s) == 110 }

  function Decimal(n: nat): seq<byte> {
    if n < 10 then [48 + n] else Decimal(n / 10) + [48 + n % 10]
  }

  function Signed(n: int): seq<byte> { if n < 0 then [45] + Decimal(-n) else Decimal(n) }

  function Clamp(x: int, hi: int): int {
    var low := if x < 0 then 0 else x;
    if low < hi then low else hi
  }

  /** `_query_reply`: device status, and cursor position from the current view. */
  function QueryReply(v: View, s: seq<byte>): Option<seq<byte>> {
    if !v.verified || !StatusQuery(s) then None
    else
      var body := if |s| < 3 then [] else s[2..|s| - 1];
      var private := body != [] && body[0] == 63;
      var parameter := StripZeros(if private then body[1..] else body);
      if parameter == [53] && !private then Some([27, 91, 48, 110])
      else if parameter == [54] then
        var row := Clamp(v.y, v.lines - 1) - (if v.origin.Some? then v.origin.value else 0);
        var column := Clamp(v.x, v.columns);
        Some([27, 91] + (if private then [63] else []) + Signed(row + 1) + [59] + Signed(column + 1) + [82])
      else None
  }

  // ---------------------------------------------------------------- the per-byte machine

  function Cleared<S>(s: State<S>): State<S> {
    s.(frame := Ground, sequence := [], instruction := [], control := false, oversize := false)
  }

  function Begun<S>(s: State<S>, control: bool): State<S> {
    s.(frame := Escape, sequence := [ESC], instruction := [ESC], control := control)
  }

  function AdvanceDcs(f: Frame, b: byte): Frame {
    if b < 32 || b >= 127 || f.DcsIgnore? then f
    else if Final(b) then DcsBody
    else if (f.DcsIntermediate? && b >= 0x30) || b == 0x3A || (f.DcsParameter? && 0x3C <= b <= 0x3F) then DcsIgnore
    else if b < 0x30 then DcsIntermediate else DcsParameter
  }

  function AdvanceCsi(f: Frame, b: byte): Frame {
    if (f.CsiIntermediate? && b >= 0x30) || (f.CsiParameter? && 0x3C <= b <= 0x3F) then CsiIgnore
    else if f.CsiIgnore? then f
    else if b < 0x30 then CsiIntermediate else CsiParameter
  }

  function Embedded(raw: seq<byte>): seq<byte> {
    if raw == [] then []
    else (if raw[0] < 32 && raw[0] != ESC then [raw[0]] else []) + Embedded(raw[1..])
  }

  function Bells(raw: seq<byte>): seq<byte> {
    if raw == [] then [] else (if raw[0] == 7 then [raw[0]] else []) + Bells(raw[1..])
  }

  predicate Ignored<S>(s: State<S>) { s.oversize || s.frame.CsiIgnore? }

  predicate WithheldFromScreen<S>(s: State<S>) {
    Ignored(s) || s.instruction == [27, 92] || TerminalControl(s.instruction)
  }

  function SyncChange<S>(s: State<S>): Option<bool> {
    if Ignored(s) then None else Synchronized(s.instruction)
  }

  function Reply<S>(e: Emulator<S>, s: State<S>): Option<seq<byte>> {
    if Ignored(s) then None else QueryReply(e.view(s.screen), s.instruction)
  }

  /** What a completed instruction emits, given the reply to it. */
  function CompletionOutput<S>(s: State<S>, reply: Option<seq<byte>>): Output {
    if reply.Some? then
      var kept := (if s.control then [27, 92] else []) + Embedded(s.sequence);
      Output(kept, kept, reply.value)
    else
      Output(s.sequence,
             if WithheldFromScreen(s) || SyncChange(s).Some? || s.control then s.sequence else Bells(s.sequence),
             [])
  }

  /** The framing fields after a completed instruction; the screen is left as it is. */
  function Completed<S>(s: State<S>, reply: Option<seq<byte>>): State<S> {
    Cleared(if reply.None? && SyncChange(s).Some? then s.(synchronized := SyncChange(s).value) else s)
  }

  predicate Projects<S>(s: State<S>, reply: Option<seq<byte>>) { reply.None? && !WithheldFromScreen(s) }

  /** Where a printable byte leaves a collecting frame: still collecting, entering a string, or complete. */
  datatype Move = Collect(frame: Frame) | Enter(frame: Frame) | Finish

  function MoveOn(f: Frame, b: byte): Move {
    if f.Escape? then
      if StringFrame(b).Some? then Enter(StringFrame(b).value)
      else if b == 91 then Collect(CsiEnter)
      else if 0x20 <= b <= 0x2F then Collect(Intermediate)
      else Finish
    else if Csi(f) then
      if Final(b) then Finish else Collect(AdvanceCsi(f, b))
    else if f.Intermediate? && b < 0x30 then Collect(f)
    else Finish
  }

  /** Append one byte to the retained sequence, spilling it when it outgrows the limit. */
  function Retained<S>(s: State<S>, b: byte): State<S> {
    if |s.sequence| >= SEQUENCE_LIMIT
    then s.(sequence := [], instruction := [], oversize := true)
    else s.(sequence := s.sequence + [b])
  }

  function Spill<S>(s: State<S>, b: byte): Output {
    if |s.sequence| >= SEQUENCE_LIMIT then Both(s.sequence + [b]) else SILENT
  }

  function CollectStep<S>(e: Emulator<S>, s: State<S>, b: byte): (State<S>, Output) {
    var kept := Retained(s, b);
    if b < 32 then (kept.(screen := e.text(kept.screen, b)), Spill(s, b))
    else if b >= 127 then (kept, Spill(s, b))
    else
      var grown := kept.(instruction := kept.instruction + [b]);
      match MoveOn(s.frame, b)
      case Collect(f) => (grown.(frame := f), Spill(s, b))
      case Enter(f) => (Cleared(grown).(frame := f), Join(Spill(s, b), Both(grown.sequence)))
      case Finish =>
        var reply := Reply(e, grown);
        var done := Completed(grown, reply);
        (if Projects(grown, reply) then done.(screen := e.execute(done.screen, grown.instruction)) else done,
         Join(Spill(s, b), CompletionOutput(grown, reply)))
  }

  /** CAN, SUB or ESC inside a sequence or string: what was retained is released and framing restarts. */
  function AbandonStep<S>(e: Emulator<S>, s: State<S>, b: byte): (State<S>, Output) {
    var inherited := Opaque(s.frame) || s.control || s.oversize || s.sequence != [];
    var cleared := Cleared(s);
    if b == ESC then (Begun(cleared, inherited), Both(s.sequence))
    else (cleared.(screen := e.text(cleared.screen, b)), Both(s.sequence + [b]))
  }

  function OpaqueFrame(f: Frame, b: byte): Frame {
    if f.Osc? && b == 7 then Ground else if DcsHeader(f) then AdvanceDcs(f, b) else f
  }

  function PayloadFrame(f: Frame, b: byte): Frame {
    if f.DcsEscape? then (if b == 92 then Ground else DcsBody) else if b == ESC then DcsEscape else f
  }

  function Step<S>(e: Emulator<S>, s: State<S>, b: byte): (State<S>, Output) {
    if s.frame.Ground? then
      if b == ESC then (Begun(s, false), SILENT)
      else (s.(screen := e.text(s.screen, b)), Output([b], if b == 7 then [b] else [], []))
    else if DcsPayload(s.frame) then (s.(frame := PayloadFrame(s.frame, b)), Both([b]))
    else if b == 24 || b == 26 || b == ESC then AbandonStep(e, s, b)
    else if Opaque(s.frame) then (s.(frame := OpaqueFrame(s.frame, b)), Both([b]))
    else CollectStep(e, s, b)
  }

  /** The reference machine over a whole input. */
  function Run<S>(e: Emulator<S>, s: State<S>, data: seq<byte>): (State<S>, Output) {
    if data == [] then (s, SILENT)
    else
      var (before, emitted) := Run(e, s, data[..|data| - 1]);
      var (after, more) := Step(e, before, data[|data| - 1]);
      (after, Join(emitted, more))
  }

  // ---------------------------------------------------------------- splitting invariance

  /** Splitting the input anywhere changes neither the final state nor the concatenated outputs. */
  lemma {:induction false} RunSplit<S>(e: Emulator<S>, s: State<S>, a: seq<byte>, b: seq<byte>)
    ensures Run(e, s, a + b).0 == Run(e, Run(e, s, a).0, b).0
    ensures Run(e, s, a + b).1 == Join(Run(e, s, a).1, Run(e, Run(e, s, a).0, b).1)
  {
    hide Step;
    if b == [] {
      assert a + b == a;
    } else {
      var most := b[..|b| - 1];
      assert (a + b)[..|a + b| - 1] == a + most;
      RunSplit(e, s, a, most);
    }
  }

  /** Feeding a list of chunks one after another. */
  function Chunked<S>(e: Emulator<S>, s: State<S>, chunks: seq<seq<byte>>): (State<S>, Output) {
    if chunks == [] then (s, SILENT)
    else
      var (before, emitted) := Chunked(e, s, chunks[..|chunks| - 1]);
      var (after, more) := Run(e, before, chunks[|chunks| - 1]);
      (after, Join(emitted, more))
  }

  function Flatten(chunks: seq<seq<byte>>): seq<byte> {
    if chunks == [] then [] else Flatten(chunks[..|chunks| - 1]) + chunks[|chunks| - 1]
  }

  /** Any chunking of the same bytes ends in the same state with the same bytes emitted on each channel. */
  lemma {:induction false} ChunkingInvariant<S>(e: Emulator<S>, s: State<S>, chunks: seq<seq<byte>>)
    ensures Chunked(e, s, chunks) == Run(e, s, Flatten(chunks))
  {
    if chunks != [] {
      ChunkingInvariant(e, s, chunks[..|chunks| - 1]);
      RunSplit(e, s, Flatten(chunks[..|chunks| - 1]), chunks[|chunks| - 1]);
    }
  }

  // ---------------------------------------------------------------- what every reachable state keeps

  predicate InRange(s: seq<byte>, from: nat, to: int, lo: int, hi: int) {
    forall i :: from <= i < to && i < |s| ==> lo <= s[i] <= hi
  }

  /** The instruction collected so far, by frame. */
  predicate Prefix(f: Frame, q: seq<byte>) {
    match f
    case Escape => q == [ESC]
    case Intermediate => |q| >= 2 && q[0] == ESC && InRange(q, 1, |q|, 0x20, 0x2F)
    case CsiEnter => q == [ESC, 91]
    case CsiParameter => CsiInstruction(q) && InRange(q, 2, |q|, 0x20, 0x3F)
    case CsiIntermediate => CsiInstruction(q) && InRange(q, 2, |q|, 0x20, 0x3F)
    case _ => true
  }

  /** Nothing is retained outside the collecting frames, and what is retained stays bounded and well-formed. */
  predicate Framed<S>(s: State<S>) {
    && |s.sequence| <= SEQUENCE_LIMIT
    && (!Collecting(s.frame) ==> s.sequence == [] && s.instruction == [] && !s.control && !s.oversize)
    && (Collecting(s.frame) && !s.oversize ==> Prefix(s.frame, s.instruction))
  }

  lemma PrefixGrows(f: Frame, q: seq<byte>, b: byte)
    requires Collecting(f) && Prefix(f, q) && 32 <= b < 127 && MoveOn(f, b).Collect?
    ensures Collecting(MoveOn(f, b).frame) && Prefix(MoveOn(f, b).frame, q + [b])
  {
    assert forall i :: 0 <= i < |q| ==> (q + [b])[i] == q[i];
  }

  lemma CollectFramed<S>(e: Emulator<S>, s: State<S>, b: byte)
    requires Framed(s) && Collecting(s.frame)
    ensures Framed(CollectStep(e, s, b).0)
  {
    hide QueryReply, Synchronized, TerminalControl, Prefix;
    if 32 <= b < 127 && MoveOn(s.frame, b).Collect? && !Retained(s, b).oversize {
      PrefixGrows(s.frame, s.instruction, b);
    }
  }

  lemma StepFramed<S>(e: Emulator<S>, s: State<S>, b: byte)
    requires Framed(s)
    ensures Framed(Step(e, s, b).0)
  {
    hide CollectStep;
    if Collecting(s.frame) {
      CollectFramed(e, s, b);
    }
  }

  lemma RepliesAreNonEmpty(v: View, q: seq<byte>)
    ensures QueryReply(v, q).Some? ==> QueryReply(v, q).value != []
  {
  }

  lemma CollectConserves<S>(e: Emulator<S>, s: State<S>, b: byte)
    requires |s.sequence| <= SEQUENCE_LIMIT && CollectStep(e, s, b).1.replies == []
    ensures s.sequence + [b] == CollectStep(e, s, b).1.native + CollectStep(e, s, b).0.sequence
  {
    hide QueryReply, Synchronized, TerminalControl;
    if 32 <= b < 127 && MoveOn(s.frame, b).Finish? {
      var grown := Retained(s, b).(instruction := Retained(s, b).instruction + [b]);
      RepliesAreNonEmpty(e.view(grown.screen), grown.instruction);
    }
  }

  /** One step either answers a query or passes its byte on: emitted, or added to what is retained. */
  lemma StepConserves<S>(e: Emulator<S>, s: State<S>, b: byte)
    requires Framed(s) && Step(e, s, b).1.replies == []
    ensures s.sequence + [b] == Step(e, s, b).1.native + Step(e, s, b).0.sequence
  {
    hide CollectStep, Prefix;
    if Collecting(s.frame) && b != 24 && b != 26 && b != ESC {
      CollectConserves(e, s, b);
    }
  }

  /** When no query was answered, the native output followed by the retained bytes is exactly the input. */
  lemma {:induction false} RunConserves<S>(e: Emulator<S>, s: State<S>, data: seq<byte>)
    requires Framed(s)
    ensures Framed(Run(e, s, data).0)
    ensures Run(e, s, data).1.replies == [] ==>
      s.sequence + data == Run(e, s, data).1.native + Run(e, s, data).0.sequence
  {
    hide Step, Framed;
    if data != [] {
      var most, b := data[..|data| - 1], data[|data| - 1];
      RunConserves(e, s, most);
      var before := Run(e, s, most);
      StepFramed(e, before.0, b);
      if Run(e, s, data).1.replies == [] {
        var after := Step(e, before.0, b);
        assert before.1.replies + after.1.replies == [];
        assert before.1.replies == [] && after.1.replies == [];
        StepConserves(e, before.0, b);
        calc {
          s.sequence + data;
          { assert data == most + [b]; }
          s.sequence + most + [b];
          before.1.native + before.0.sequence + [b];
          before.1.native + (before.0.sequence + [b]);
          before.1.native + (after.1.native + after.0.sequence);
          before.1.native + after.1.native + after.0.sequence;
        }
      }
    }
  }

  /** `a` is obtained from `b` by deleting bytes, keeping their order. */
  predicate Subsequence(a: seq<byte>, b: seq<byte>) {
    if a == [] then true
    else if b == [] then false
    else if a[|a| - 1] == b[|b| - 1] then Subsequence(a[..|a| - 1], b[..|b| - 1])
    else Subsequence(a, b[..|b| - 1])
  }

  lemma {:induction false} SubsequenceOfItself(a: seq<byte>)
    ensures Subsequence(a, a)
  {
    if a != [] {
      SubsequenceOfItself(a[..|a| - 1]);
    }
  }

  lemma {:induction false} SubsequenceGrows(a: seq<byte>, b: seq<byte>, c: seq<byte>)
    requires Subsequence(a, b)
    ensures Subsequence(a, b + c)
    decreases |b| + |c|, 1
  {
    if c == [] {
      assert b + c == b;
    } else {
      var most := c[..|c| - 1];
      assert (b + c)[..|b + c| - 1] == b + most;
      SubsequenceGrows(a, b, most);
      if a != [] && a[|a| - 1] == c[|c| - 1] {
        DropLast(a, b + most);
      }
    }
  }

  lemma {:induction false} DropLast(a: seq<byte>, b: seq<byte>)
    requires a != [] && Subsequence(a, b)
    ensures Subsequence(a[..|a| - 1], b)
    decreases |b|, 2
  {
    var fewer := a[..|a| - 1];
    if a[|a| - 1] == b[|b| - 1] {
      SubsequenceGrows(fewer, b[..|b| - 1], [b[|b| - 1]]);
      assert b[..|b| - 1] + [b[|b| - 1]] == b;
    } else {
      DropLast(a, b[..|b| - 1]);
      SubsequenceGrows(fewer, b[..|b| - 1], [b[|b| - 1]]);
      assert b[..|b| - 1] + [b[|b| - 1]] == b;
    }
  }

  lemma {:induction false} SubsequenceConcat(a: seq<byte>, b: seq<byte>, c: seq<byte>, d: seq<byte>)
    requires Subsequence(a, b) && Subsequence(c, d)
    ensures Subsequence(a + c, b + d)
    decreases |d|
  {
    if c == [] {
      assert a + c == a;
      SubsequenceGrows(a, b, d);
    } else {
      var less := d[..|d| - 1];
      assert (b + d)[..|b + d| - 1] == b + less;
      if c[|c| - 1] == d[|d| - 1] {
        assert (a + c)[..|a + c| - 1] == a + c[..|c| - 1];
        SubsequenceConcat(a, b, c[..|c| - 1], less);
      } else {
        SubsequenceConcat(a, b, c, less);
      }
    }
  }

  lemma {:induction false} BellsAreSubsequence(raw: seq<byte>)
    ensures Subsequence(Bells(raw), raw)
  {
    if raw != [] {
      var head := if raw[0] == 7 then [raw[0]] else [];
      BellsAreSubsequence(raw[1..]);
      SubsequenceOfItself([raw[0]]);
      SubsequenceConcat(head, [raw[0]], Bells(raw[1..]), raw[1..]);
      assert [raw[0]] + raw[1..] == raw;
    }
  }

  lemma CollectControls<S>(e: Emulator<S>, s: State<S>, b: byte)
    ensures Subsequence(CollectStep(e, s, b).1.controls, CollectStep(e, s, b).1.native)
  {
    hide Subsequence, QueryReply, Synchronized, TerminalControl, Bells, Embedded;
    SubsequenceOfItself(Spill(s, b).native);
    var grown := Retained(s, b).(instruction := Retained(s, b).instruction + [b]);
    if b < 32 || b >= 127 {
    } else if MoveOn(s.frame, b).Collect? {
    } else if MoveOn(s.frame, b).Enter? {
      SubsequenceOfItself(grown.sequence);
      SubsequenceConcat(Spill(s, b).controls, Spill(s, b).native, grown.sequence, grown.sequence);
    } else {
      var out := CompletionOutput(grown, Reply(e, grown));
      SubsequenceOfItself(out.native);
      BellsAreSubsequence(grown.sequence);
      SubsequenceConcat(Spill(s, b).controls, Spill(s, b).native, out.controls, out.native);
    }
  }

  lemma StepControls<S>(e: Emulator<S>, s: State<S>, b: byte)
    ensures Subsequence(Step(e, s, b).1.controls, Step(e, s, b).1.native)
  {
    hide Subsequence, CollectStep;
    CollectControls(e, s, b);
    SubsequenceOfItself([]);
    SubsequenceOfItself([b]);
    SubsequenceGrows([], [], [b]);
    assert [] + [b] == [b];
    SubsequenceOfItself(s.sequence);
    SubsequenceOfItself(s.sequence + [b]);
  }

  /** Control output is always an in-order selection of native output. */
  lemma {:induction false} ControlsAreSubsequence<S>(e: Emulator<S>, s: State<S>, data: seq<byte>)
    ensures Subsequence(Run(e, s, data).1.controls, Run(e, s, data).1.native)
  {
    hide Step, Subsequence;
    if data == [] {
      SubsequenceOfItself([]);
    } else {
      var before := Run(e, s, data[..|data| - 1]);
      var after := Step(e, before.0, data[|data| - 1]);
      ControlsAreSubsequence(e, s, data[..|data| - 1]);
      StepControls(e, before.0, data[|data| - 1]);
      SubsequenceConcat(before.1.controls, before.1.native, after.1.controls, after.1.native);
    }
  }

  lemma PayloadStep<S>(e: Emulator<S>, s: State<S>, b: byte)
    requires DcsPayload(s.frame)
    ensures Step(e, s, b).0.screen == s.screen && Step(e, s, b).1 == Both([b])
  {
  }

  /** Before every byte of the input the frame is inside a DCS payload. */
  predicate StaysInPayload<S>(e: Emulator<S>, s: State<S>, data: seq<byte>)
    decreases |data|
  {
    data != [] ==>
      && StaysInPayload(e, s, data[..|data| - 1])
      && DcsPayload(Run(e, s, data[..|data| - 1]).0.frame)
  }

  /** While framing stays inside a DCS payload no byte reaches the screen, and every byte is passed through. */
  lemma {:induction false} PayloadStaysOffScreen<S>(e: Emulator<S>, s: State<S>, data: seq<byte>)
    requires StaysInPayload(e, s, data)
    ensures Run(e, s, data).0.screen == s.screen
    ensures Run(e, s, data).1 == Both(data)
    decreases |data|
  {
    hide Step, DcsPayload;
    if data != [] {
      var most, b := data[..|data| - 1], data[|data| - 1];
      PayloadStaysOffScreen(e, s, most);
      PayloadStep(e, Run(e, s, most).0, b);
      RunLast(e, s, data);
      hide Run;
      assert most + [b] == data;
    }
  }

  // ---------------------------------------------------------------- recognition of control sequences

  /**
   A control sequence in the grammar of section 5.4 of ECMA-48: parameter bytes, of which only the first
   may be a private marker, then intermediate bytes, then one final byte.
   */
  predicate ControlSequence(q: seq<byte>) {
    && 3 <= |q| <= SEQUENCE_LIMIT && q[0] == ESC && q[1] == 91 && Final(q[|q| - 1])
    && InRange(q, 2, |q| - 1, 0x20, 0x3F)
    && (forall i :: 3 <= i < |q| - 1 && q[i] >= 0x30 ==> q[i] < 0x3C && q[i - 1] >= 0x30)
  }

  function CsiFrameAt(q: seq<byte>, k: nat): Frame
    requires 2 <= k <= |q|
  {
    if k == 2 then CsiEnter else if q[k - 1] < 0x30 then CsiIntermediate else CsiParameter
  }

  lemma CollectOne<S>(e: Emulator<S>, s: State<S>, b: byte)
    requires Csi(s.frame) && !s.frame.CsiIgnore? && 0x20 <= b <= 0x3F && |s.sequence| < SEQUENCE_LIMIT
    requires s.frame.CsiIntermediate? ==> b < 0x30
    requires s.frame.CsiParameter? ==> b < 0x3C
    ensures Step(e, s, b) == (
      s.(frame := if b < 0x30 then CsiIntermediate else CsiParameter,
         sequence := s.sequence + [b], instruction := s.instruction + [b]), SILENT)
  {
  }

  lemma OpenCsi<S>(e: Emulator<S>, s: State<S>)
    requires s.frame.Ground?
    ensures Run(e, s, [ESC, 91]) == (
      s.(frame := CsiEnter, sequence := [ESC, 91], instruction := [ESC, 91], control := false), SILENT)
  {
    var one: seq<byte> := [ESC];
    assert one[..0] == [];
    assert Run(e, s, []) == (s, SILENT);
    assert Join(SILENT, SILENT) == SILENT;
    assert Run(e, s, one) == (Begun(s, false), SILENT);
    var two: seq<byte> := [ESC, 91];
    assert two[..1] == one;
    assert Step(e, Begun(s, false), 91) == CollectStep(e, Begun(s, false), 91);
    assert [ESC] + [91 as byte] == two;
  }

  /** Nothing is emitted, and nothing reaches the screen, before the final byte. */
  lemma {:induction false} CsiPrefixRetained<S>(e: Emulator<S>, s: State<S>, q: seq<byte>, k: nat)
    requires ControlSequence(q) && s.frame.Ground? && 2 <= k < |q|
    ensures Run(e, s, q[..k]) == (
      s.(frame := CsiFrameAt(q, k), sequence := q[..k], instruction := q[..k], control := false), SILENT)
  {
    assert q[..k][..k - 1] == q[..k - 1];
    assert q[..k - 1] + [q[k - 1]] == q[..k];
    if k == 2 {
      OpenCsi(e, s);
      assert q[..1] == [ESC] && q[..2] == [ESC, 91];
    } else {
      hide Step;
      CsiPrefixRetained(e, s, q, k - 1);
      CollectOne(e, Run(e, s, q[..k - 1]).0, q[k - 1]);
    }
  }

  lemma FinalByteExecutes<S>(e: Emulator<S>, s: State<S>, b: byte)
    requires Csi(s.frame) && !s.frame.CsiIgnore? && !s.oversize && Final(b) && |s.sequence| < SEQUENCE_LIMIT
    requires CsiInstruction(s.instruction) && !TerminalControl(s.instruction + [b])
    ensures Step(e, s, b).0.screen == e.execute(s.screen, s.instruction + [b])
    ensures Step(e, s, b).0.frame.Ground?
    ensures Step(e, s, b).1.native == s.sequence + [b] && Step(e, s, b).1.replies == []
    ensures Step(e, s, b).0.synchronized ==
      if Synchronized(s.instruction + [b]).Some? then Synchronized(s.instruction + [b]).value else s.synchronized
  {
    hide Synchronized;
    assert Step(e, s, b) == CollectStep(e, s, b);
    assert Last(s.instruction + [b]) == b;
  }

  /**
   Every control sequence that neither queries nor belongs to the terminal is passed on unchanged and
   executed on the screen as one instruction.
   */
  lemma ControlSequenceExecuted<S>(e: Emulator<S>, s: State<S>, q: seq<byte>)
    requires Framed(s) && s.frame.Ground? && ControlSequence(q) && !TerminalControl(q)
    ensures Run(e, s, q).0.screen == e.execute(s.screen, q)
    ensures Run(e, s, q).0.frame.Ground? && Run(e, s, q).1.native == q && Run(e, s, q).1.replies == []
    ensures Run(e, s, q).0.synchronized == if Synchronized(q).Some? then Synchronized(q).value else s.synchronized
  {
    hide Synchronized, Step, Run, TerminalControl, ControlSequence, CsiFrameAt;
    var k := |q| - 1;
    EndsFinally(q);
    CsiPrefixRetained(e, s, q, k);
    RunLast(e, s, q);
    FinalByteExecutes(e, Run(e, s, q[..k]).0, q[k]);
    JoinSilent(Step(e, Run(e, s, q[..k]).0, q[k]).1);
  }

  /** The last byte of a control sequence is final; what comes before it is still being collected. */
  lemma EndsFinally(q: seq<byte>)
    requires ControlSequence(q)
    ensures var k := |q| - 1;
            && 2 <= k < SEQUENCE_LIMIT && Final(q[k]) && CsiInstruction(q[..k]) && q[..k] + [q[k]] == q
            && Csi(CsiFrameAt(q, k)) && !CsiFrameAt(q, k).CsiIgnore?
  {}

  lemma RunLast<S>(e: Emulator<S>, s: State<S>, q: seq<byte>)
    requires q != []
    ensures var (before, emitted) := Run(e, s, q[..|q| - 1]);
            var (after, more) := Step(e, before, q[|q| - 1]);
            Run(e, s, q) == (after, Join(emitted, more))
  {}

  lemma JoinSilent(o: Output)
    ensures Join(SILENT, o) == o
  {}

  // ---------------------------------------------------------------- what a cursor report says

  function DecimalValue(digits: seq<byte>): int {
    if digits == [] then 0 else DecimalValue(digits[..|digits| - 1]) * 10 - 48 + digits[|digits| - 1]
  }

  lemma {:induction false} DecimalRoundTrip(n: nat)
    ensures DecimalValue(Decimal(n)) == n
    ensures forall i :: 0 <= i < |Decimal(n)| ==> 48 <= Decimal(n)[i] <= 57
  {
    if n < 10 {
      assert DecimalValue([48 + n]) == DecimalValue([48 + n][..0]) * 10 + n;
    } else {
      DecimalRoundTrip(n / 10);
      assert Decimal(n)[..|Decimal(n)| - 1] == Decimal(n / 10);
    }
  }

  /** What a terminal program reads back from a signed decimal. */
  function SignedValue(digits: seq<byte>): int {
    if digits != [] && digits[0] == 45 then -DecimalValue(digits[1..]) else DecimalValue(digits)
  }

  lemma SignedRoundTrip(n: int)
    ensures SignedValue(Signed(n)) == n
  {
    hide Decimal, DecimalValue;
    if n < 0 {
      DecimalRoundTrip(-n);
      assert Signed(n)[1..] == Decimal(-n);
    } else {
      DecimalRoundTrip(n);
      NotEmpty(n);
    }
  }

  lemma NotEmpty(n: nat)
    ensures Decimal(n) != []
  {}

  /** The first row that reports count from: the top margin in origin mode. */
  function Top(v: View): int {
    if v.origin.Some? then v.origin.value else 0
  }

  /**
   CPR reports the column one-based, up to one past the last (delayed wrap), and the row one-based from
   the origin. The reported row lies on the screen exactly when the cursor is not above the origin.
   */
  lemma CursorReport(v: View, private: bool)
    requires v.verified && v.lines >= 1 && v.columns >= 1 && Top(v) >= 0
    ensures var row, column := Signed(Clamp(v.y, v.lines - 1) - Top(v) + 1), Signed(Clamp(v.x, v.columns) + 1);
            && QueryReply(v, if private then [27, 91, 63, 54, 110] else [27, 91, 54, 110])
               == Some([27, 91] + (if private then [63] else []) + row + [59] + column + [82])
            && SignedValue(row) == Clamp(v.y, v.lines - 1) - Top(v) + 1
            && (1 <= SignedValue(row) <= v.lines <==> Clamp(v.y, v.lines - 1) >= Top(v))
            && 1 <= SignedValue(column) <= v.columns + 1
            && (0 <= v.x <= v.columns ==> SignedValue(column) == v.x + 1)
  {
    hide Signed, SignedValue, QueryReply;
    SignedRoundTrip(Clamp(v.y, v.lines - 1) - Top(v) + 1);
    SignedRoundTrip(Clamp(v.x, v.columns) + 1);
    CursorReportBytes(v, private);
  }

  lemma CursorReportBytes(v: View, private: bool)
    requires v.verified
    ensures QueryReply(v, if private then [27, 91, 63, 54, 110] else [27, 91, 54, 110])
         == Some([27, 91] + (if private then [63] else []) + Signed(Clamp(v.y, v.lines - 1) - Top(v) + 1) + [59]
                 + Signed(Clamp(v.x, v.columns) + 1) + [82])
  {
    hide Signed;
    var q: seq<byte> := if private then [27, 91, 63, 54, 110] else [27, 91, 54, 110];
    assert q[2..|q| - 1] == if private then [63, 54] else [54];
    assert private ==> q[2..|q| - 1][1..] == [54];
    assert StripZeros([54]) == [54];
  }
}
