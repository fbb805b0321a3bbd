/**
 Where framing ends: control strings run to their terminator and no further, cancelled sequences are
 released, queries are answered in place, and escape sequences are executed.
 */
module FramerStrings {
  import opened Wrappers
  import opened Framer

  // ---------------------------------------------------------------- control strings

  /** The frames of OSC, APC, PM, SOS and title strings; DCS has a header of its own. */
  predicate StringBody(f: Frame) {
    f.Osc? || f.Apc? || f.ConsumeSt? || f.Rename?
  }

  /** A byte that a string of this frame takes as data. */
  predicate StringData(f: Frame, b: byte) {
    b != 24 && b != 26 && b != ESC && (f.Osc? ==> b != 7)
  }

  predicate AllData(f: Frame, data: seq<byte>) {
    forall i :: 0 <= i < |data| ==> StringData(f, data[i])
  }

  lemma TwoBytes<S>(e: Emulator<S>, s: State<S>, a: byte, b: byte)
    ensures var (m, x) := Step(e, s, a);
            var (t, y) := Step(e, m, b);
            Run(e, s, [a, b]) == (t, Join(x, y))
  {
    hide Step;
    var one: seq<byte> := [a];
    var two: seq<byte> := [a, b];
    assert one[..0] == [] && two[..1] == one;
    assert Run(e, s, []) == (s, SILENT);
    RunLast(e, s, one);
    RunLast(e, s, two);
    JoinSilent(Step(e, s, a).1);
  }

  lemma JoinBoth(a: seq<byte>, b: seq<byte>)
    ensures Join(Both(a), Both(b)) == Both(a + b) && Join(SILENT, Both(b)) == Both(b)
  {
    assert [] + b == b;
  }

  /** ESC and a string's opening byte enter it; both are passed on as control output. */
  lemma {:induction false} StringOpens<S>(e: Emulator<S>, s: State<S>, b: byte)
    requires Framed(s) && s.frame.Ground? && StringFrame(b).Some?
    ensures Run(e, s, [ESC, b]) == (s.(frame := StringFrame(b).value), Both([ESC, b]))
  {
    hide Step, Run, StringFrame;
    TwoBytes(e, s, ESC, b);
    EscapeBegins(e, s);
    OpeningByte(e, Begun(s, false), b);
    JoinBoth([], [ESC, b]);
  }

  lemma EscapeBegins<S>(e: Emulator<S>, s: State<S>)
    requires s.frame.Ground?
    ensures Step(e, s, ESC) == (Begun(s, false), SILENT)
  {}

  lemma OpeningByte<S>(e: Emulator<S>, m: State<S>, b: byte)
    requires m.frame.Escape? && m.sequence == [ESC] && StringFrame(b).Some?
    ensures Step(e, m, b) == (Cleared(m).(frame := StringFrame(b).value), Both([ESC, b]))
  {
    assert m.sequence + [b] == [ESC, b];
    JoinBoth([], [ESC, b]);
    assert Step(e, m, b) == CollectStep(e, m, b);
  }

  lemma DataStep<S>(e: Emulator<S>, s: State<S>, b: byte)
    requires StringBody(s.frame) && StringData(s.frame, b)
    ensures Step(e, s, b) == (s, Both([b]))
  {}

  /** Inside a string every data byte is passed on and nothing else happens. */
  lemma {:induction false} StringRuns<S>(e: Emulator<S>, s: State<S>, data: seq<byte>)
    requires StringBody(s.frame) && AllData(s.frame, data)
    ensures Run(e, s, data) == (s, Both(data))
    decreases |data|
  {
    hide Step, StringData;
    if data != [] {
      var most, b := data[..|data| - 1], data[|data| - 1];
      StringRuns(e, s, most);
      DataStep(e, s, b);
      RunLast(e, s, data);
      JoinBoth(most, [b]);
      assert most + [b] == data;
    }
  }

  /** BEL ends an OSC string. */
  lemma BellEndsOsc<S>(e: Emulator<S>, s: State<S>)
    requires s.frame.Osc?
    ensures Step(e, s, 7) == (s.(frame := Ground), Both([7]))
  {}

  /** ESC backslash ends a string of any kind, also in the header of a DCS. */
  lemma {:induction false} TerminatorEnds<S>(e: Emulator<S>, s: State<S>)
    requires Framed(s) && Opaque(s.frame)
    ensures Run(e, s, [ESC, 92]) == (s.(frame := Ground), Both([ESC, 92]))
  {
    hide QueryReply;
    TwoBytes(e, s, ESC, 92);
    var m := Begun(Cleared(s), true);
    assert Step(e, s, ESC) == (m, Both([]));
    TerminatorCompletes(e, m);
    JoinBoth([], [ESC, 92]);
    assert [] + [ESC, 92] == [ESC, 92];
  }

  lemma TerminatorCompletes<S>(e: Emulator<S>, m: State<S>)
    requires m.frame.Escape? && m.sequence == [ESC] && m.instruction == [ESC] && !m.oversize
    ensures Step(e, m, 92) == (Cleared(m), Both([ESC, 92]))
  {
    var grown := m.(sequence := [ESC, 92], instruction := [ESC, 92]);
    assert m.instruction + [92] == [ESC, 92] && m.sequence + [92] == [ESC, 92];
    assert Reply(e, grown).None? && WithheldFromScreen(grown) && SyncChange(grown).None?;
    JoinSilent(CompletionOutput(grown, None));
    assert Step(e, m, 92) == CollectStep(e, m, 92);
  }

  /** Run over three parts, each passed on whole. */
  lemma ThreeParts<S>(e: Emulator<S>, s: State<S>, t: State<S>, u: State<S>, a: seq<byte>, b: seq<byte>, c: seq<byte>)
    requires Run(e, s, a) == (t, Both(a)) && Run(e, t, b) == (t, Both(b)) && Run(e, t, c) == (u, Both(c))
    ensures Run(e, s, a + b + c) == (u, Both(a + b + c))
  {
    hide Run;
    RunSplit(e, s, a, b);
    RunSplit(e, s, a + b, c);
    JoinBoth(a, b);
    JoinBoth(a + b, c);
  }

  /**
   An OSC string ends at its first BEL: back on ground, the screen untouched, exactly its bytes passed
   on; the next text byte reaches the screen.
   */
  lemma {:induction false} OscEndsAtBell<S>(e: Emulator<S>, s: State<S>, payload: seq<byte>, next: byte)
    requires Framed(s) && s.frame.Ground? && AllData(Osc, payload) && next != ESC
    ensures var q := [ESC, 93] + payload + [7];
            && Run(e, s, q) == (s, Both(q))
            && Run(e, s, q + [next]).0 == s.(screen := e.text(s.screen, next))
            && Run(e, s, q + [next]).1.native == q + [next]
  {
    hide Step, AllData;
    var t := s.(frame := Osc);
    StringOpens(e, s, 93);
    StringRuns(e, t, payload);
    OneByte(e, t, 7);
    BellEndsOsc(e, t);
    ThreeParts(e, s, t, s, [ESC, 93], payload, [7]);
    TextFollows(e, s, [ESC, 93] + payload + [7], next);
  }

  lemma OneByte<S>(e: Emulator<S>, s: State<S>, b: byte)
    ensures Run(e, s, [b]) == Step(e, s, b)
  {
    hide Step;
    var one: seq<byte> := [b];
    assert one[..0] == [];
    assert Run(e, s, []) == (s, SILENT);
    RunLast(e, s, one);
    JoinSilent(Step(e, s, b).1);
  }

  lemma TextFollows<S>(e: Emulator<S>, s: State<S>, q: seq<byte>, next: byte)
    requires s.frame.Ground? && next != ESC && Run(e, s, q) == (s, Both(q))
    ensures Run(e, s, q + [next]).0 == s.(screen := e.text(s.screen, next))
    ensures Run(e, s, q + [next]).1.native == q + [next]
  {
    RunSplit(e, s, q, [next]);
    OneByte(e, s, next);
  }

  /** Every string ends at ESC backslash: OSC, APC, PM, SOS and title alike. */
  lemma {:induction false} StringEndsAtTerminator<S>(
    e: Emulator<S>, s: State<S>, b: byte, payload: seq<byte>, next: byte
  )
    requires Framed(s) && s.frame.Ground? && StringFrame(b).Some? && StringBody(StringFrame(b).value)
    requires AllData(StringFrame(b).value, payload) && next != ESC
    ensures var q := [ESC, b] + payload + [ESC, 92];
            && Run(e, s, q) == (s, Both(q))
            && Run(e, s, q + [next]).0 == s.(screen := e.text(s.screen, next))
            && Run(e, s, q + [next]).1.native == q + [next]
  {
    hide Step, AllData, StringFrame;
    var t := s.(frame := StringFrame(b).value);
    StringOpens(e, s, b);
    StringRuns(e, t, payload);
    TerminatorEnds(e, t);
    ThreeParts(e, s, t, s, [ESC, b], payload, [ESC, 92]);
    TextFollows(e, s, [ESC, b] + payload + [ESC, 92], next);
  }

  // ---------------------------------------------------------------- device control strings

  /** Digits and separators, the parameters of a DCS header. */
  predicate Parameters(header: seq<byte>) {
    forall i :: 0 <= i < |header| ==> 0x30 <= header[i] <= 0x39 || header[i] == 0x3B
  }

  lemma RunNothing<S>(e: Emulator<S>, s: State<S>)
    ensures Run(e, s, []) == (s, Both([]))
  {}

  lemma ParameterStep<S>(e: Emulator<S>, s: State<S>, b: byte)
    requires (s.frame.DcsEnter? || s.frame.DcsParameter?) && (0x30 <= b <= 0x39 || b == 0x3B)
    ensures Step(e, s, b) == (s.(frame := DcsParameter), Both([b]))
  {}

  lemma BodyStep<S>(e: Emulator<S>, s: State<S>, b: byte)
    requires s.frame.DcsBody? && b != ESC
    ensures Step(e, s, b) == (s, Both([b]))
  {}

  lemma {:induction false} HeaderRuns<S>(e: Emulator<S>, s: State<S>, header: seq<byte>)
    requires s.frame.DcsEnter? && Parameters(header)
    ensures Run(e, s, header) == (if header == [] then s else s.(frame := DcsParameter), Both(header))
    decreases |header|
  {
    hide Step, Run;
    if header == [] {
      RunNothing(e, s);
    } else {
      var most, b := header[..|header| - 1], header[|header| - 1];
      HeaderRuns(e, s, most);
      ParameterStep(e, if most == [] then s else s.(frame := DcsParameter), b);
      RunLast(e, s, header);
      JoinBoth(most, [b]);
      assert most + [b] == header;
    }
  }

  /** In the body of a DCS everything but an escape is data. */
  lemma {:induction false} BodyRuns<S>(e: Emulator<S>, s: State<S>, data: seq<byte>)
    requires s.frame.DcsBody? && forall i :: 0 <= i < |data| ==> data[i] != ESC
    ensures Run(e, s, data) == (s, Both(data))
    decreases |data|
  {
    hide Step, Run;
    if data == [] {
      RunNothing(e, s);
    } else {
      var most, b := data[..|data| - 1], data[|data| - 1];
      BodyRuns(e, s, most);
      BodyStep(e, s, b);
      RunLast(e, s, data);
      JoinBoth(most, [b]);
      assert most + [b] == data;
    }
  }

  /** A DCS body ends at ESC backslash; ESC and any other byte are data. */
  lemma {:induction false} BodyEscape<S>(e: Emulator<S>, s: State<S>, b: byte)
    requires s.frame.DcsBody?
    ensures Run(e, s, [ESC, b]) == (s.(frame := if b == 92 then Ground else DcsBody), Both([ESC, b]))
  {
    TwoBytes(e, s, ESC, b);
    JoinBoth([ESC], [b]);
    assert [ESC] + [b] == [ESC, b];
  }

  /** The final byte of a DCS header enters the body. */
  lemma HeaderEnds<S>(e: Emulator<S>, s: State<S>, b: byte)
    requires (s.frame.DcsEnter? || s.frame.DcsParameter? || s.frame.DcsIntermediate?) && Final(b)
    ensures Step(e, s, b) == (s.(frame := DcsBody), Both([b]))
  {}

  /** A whole DCS string is passed on, leaves the screen alone and ends on ground. */
  lemma {:induction false} DcsStringPasses<S>(
    e: Emulator<S>, s: State<S>, header: seq<byte>, final: byte, data: seq<byte>
  )
    requires Framed(s) && s.frame.Ground? && Parameters(header) && Final(final)
    requires forall i :: 0 <= i < |data| ==> data[i] != ESC
    ensures var q := [ESC, 80] + header + [final] + data + [ESC, 92]; Run(e, s, q) == (s, Both(q))
  {
    hide Step, Parameters, Run;
    var h := s.(frame := DcsEnter);
    var p := if header == [] then h else s.(frame := DcsParameter);
    var body := s.(frame := DcsBody);
    StringOpens(e, s, 80);
    HeaderRuns(e, h, header);
    OneByte(e, p, final);
    HeaderEnds(e, p, final);
    BodyRuns(e, body, data);
    BodyEscape(e, body, 92);
    Append(e, s, h, p, [ESC, 80], header);
    Append(e, s, p, body, [ESC, 80] + header, [final]);
    Append(e, s, body, body, [ESC, 80] + header + [final], data);
    Append(e, s, body, s, [ESC, 80] + header + [final] + data, [ESC, 92]);
  }

  lemma Append<S>(e: Emulator<S>, s: State<S>, t: State<S>, u: State<S>, a: seq<byte>, b: seq<byte>)
    requires Run(e, s, a) == (t, Both(a)) && Run(e, t, b) == (u, Both(b))
    ensures Run(e, s, a + b) == (u, Both(a + b))
  {
    hide Run;
    RunSplit(e, s, a, b);
    JoinBoth(a, b);
  }

  // ---------------------------------------------------------------- cancelled and restarted sequences

  /** CAN and SUB abandon whatever was being collected: it is released, and the byte itself takes effect. */
  lemma {:induction false} CancelReleases<S>(e: Emulator<S>, s: State<S>, b: byte)
    requires (Collecting(s.frame) || Opaque(s.frame)) && (b == 24 || b == 26)
    ensures Step(e, s, b) == (Cleared(s).(screen := e.text(s.screen, b)), Both(s.sequence + [b]))
  {}

  /** ESC releases what was being collected and begins anew; what follows a fragment is control output. */
  lemma {:induction false} EscapeRestarts<S>(e: Emulator<S>, s: State<S>)
    requires Framed(s) && (Collecting(s.frame) || Opaque(s.frame))
    ensures var t := Step(e, s, ESC).0;
            && t.frame.Escape? && t.sequence == [ESC] && t.instruction == [ESC] && t.screen == s.screen
            && Step(e, s, ESC).1 == Both(s.sequence)
            && (t.control <==> Opaque(s.frame) || s.control || s.oversize || s.sequence != [])
  {}

  /** A sequence that outgrows the limit is spilled and never executed. */
  lemma {:induction false} OversizeSpills<S>(e: Emulator<S>, s: State<S>, b: byte)
    requires Csi(s.frame) && |s.sequence| == SEQUENCE_LIMIT && 0x20 <= b <= 0x3F
    ensures var (t, out) := Step(e, s, b);
            t.oversize && t.sequence == [] && out == Both(s.sequence + [b]) && t.screen == s.screen && Csi(t.frame)
  {}

  lemma {:induction false} OversizeNeverExecutes<S>(e: Emulator<S>, s: State<S>, b: byte)
    requires Csi(s.frame) && s.oversize && Final(b) && |s.sequence| < SEQUENCE_LIMIT
    ensures Step(e, s, b) == (Cleared(s), Both(s.sequence + [b]))
  {
    JoinSilent(Both(s.sequence + [b]));
    assert Step(e, s, b) == CollectStep(e, s, b);
  }

  // ---------------------------------------------------------------- queries and the terminal's own sequences

  lemma LastByte<S>(e: Emulator<S>, s: State<S>, q: seq<byte>)
    requires Framed(s) && s.frame.Ground? && ControlSequence(q)
    ensures var k := |q| - 1;
            var m := s.(frame := CsiFrameAt(q, k), sequence := q[..k], instruction := q[..k], control := false);
            Run(e, s, q) == Step(e, m, q[k]) && q[..k] + [q[k]] == q && 2 <= k < SEQUENCE_LIMIT && Final(q[k])
            && Csi(CsiFrameAt(q, k)) && !CsiFrameAt(q, k).CsiIgnore?
  {
    hide Step, Run, ControlSequence, CsiFrameAt;
    var k := |q| - 1;
    EndsFinally(q);
    CsiPrefixRetained(e, s, q, k);
    RunLast(e, s, q);
    JoinSilent(Step(e, Run(e, s, q[..k]).0, q[k]).1);
  }

  lemma {:induction false} NothingEmbedded(q: seq<byte>)
    requires forall i :: 0 <= i < |q| ==> q[i] >= 32 || q[i] == ESC
    ensures Embedded(q) == []
  {
    if q != [] {
      NothingEmbedded(q[1..]);
    }
  }

  /** A status query with an answer is answered in place: no byte goes on and nothing changes. */
  lemma {:induction false} QueryIsAnswered<S>(e: Emulator<S>, s: State<S>, q: seq<byte>)
    requires Framed(s) && s.frame.Ground? && ControlSequence(q) && QueryReply(e.view(s.screen), q).Some?
    ensures Run(e, s, q) == (s, Output([], [], QueryReply(e.view(s.screen), q).value))
  {
    hide QueryReply, Run, ControlSequence, CsiFrameAt, Synchronized;
    LastByte(e, s, q);
    QueryBytes(q);
    NothingEmbedded(q);
    var k := |q| - 1;
    var m := s.(frame := CsiFrameAt(q, k), sequence := q[..k], instruction := q[..k], control := false);
    assert Step(e, m, q[k]) == CollectStep(e, m, q[k]);
    var grown := m.(sequence := q, instruction := q);
    assert Reply(e, grown) == QueryReply(e.view(s.screen), q);
    assert [] + Embedded(q) == [];
    JoinSilent(CompletionOutput(grown, Reply(e, grown)));
  }

  lemma QueryBytes(q: seq<byte>)
    requires ControlSequence(q)
    ensures forall i :: 0 <= i < |q| ==> q[i] >= 32 || q[i] == ESC
  {}

  /** A sequence that belongs to the terminal and has no local answer is passed on and kept off the screen. */
  lemma {:induction false} TerminalSequencePasses<S>(e: Emulator<S>, s: State<S>, q: seq<byte>)
    requires Framed(s) && s.frame.Ground? && ControlSequence(q) && TerminalControl(q)
    requires QueryReply(e.view(s.screen), q).None?
    ensures var t := Run(e, s, q).0;
            && t == s.(synchronized := t.synchronized) && Run(e, s, q).1 == Both(q)
  {
    hide QueryReply, Run, ControlSequence, CsiFrameAt, Synchronized, TerminalControl;
    LastByte(e, s, q);
    var k := |q| - 1;
    var m := s.(frame := CsiFrameAt(q, k), sequence := q[..k], instruction := q[..k], control := false);
    assert Step(e, m, q[k]) == CollectStep(e, m, q[k]);
  }

  /** The status queries that have an answer: 5, and 6 with or without the private mark. */
  lemma {:induction false} AnsweredExactly(v: View, q: seq<byte>)
    requires StatusQuery(q) && |q| >= 3
    ensures var body := q[2..|q| - 1];
            QueryReply(v, q).Some? <==>
              v.verified && (StripZeros(body) == [53] || StripZeros(body) == [54]
                             || (body != [] && body[0] == 63 && StripZeros(body[1..]) == [54]))
  {
    var body := q[2..|q| - 1];
    if body != [] && body[0] == 63 {
      assert StripZeros(body) == body;
    }
  }

  lemma {:induction false} SingleParameter(p: seq<byte>)
    requires forall i :: 0 <= i < |p| ==> p[i] != 59
    ensures SplitParameters(p) == [p]
  {
    if p != [] {
      SingleParameter(p[1..]);
      assert [p[0]] + p[1..] == p;
    }
  }

  /** A private mode set or reset switches synchronized updates exactly when its parameter is 2026. */
  lemma {:induction false} SynchronizedSwitches(p: seq<byte>, on: bool)
    requires forall i :: 0 <= i < |p| ==> p[i] != 59
    ensures Synchronized([27, 91, 63] + p + [if on then 104 else 108])
         == if StripZeros(p) == [50, 48, 50, 54] then Some(on) else None
  {
    var q := [27, 91, 63] + p + [if on then 104 else 108];
    SingleParameter(p);
    assert q[3..|q| - 1] == p;
    assert SplitParameters(p)[0] == p;
  }

  // ---------------------------------------------------------------- escape sequences

  /** ESC, intermediate bytes and one final byte, where that neither opens a string nor a control sequence. */
  predicate EscapeSequence(q: seq<byte>) {
    && 2 <= |q| <= SEQUENCE_LIMIT && q[0] == ESC && 0x30 <= q[|q| - 1] <= 0x7E
    && InRange(q, 1, |q| - 1, 0x20, 0x2F)
    && (|q| == 2 ==> StringFrame(q[1]).None? && q[1] != 91 && q[1] != 92)
  }

  lemma IntermediateStep<S>(e: Emulator<S>, s: State<S>, b: byte)
    requires (s.frame.Escape? || s.frame.Intermediate?) && 0x20 <= b <= 0x2F && |s.sequence| < SEQUENCE_LIMIT
    ensures Step(e, s, b) ==
      (s.(frame := Intermediate, sequence := s.sequence + [b], instruction := s.instruction + [b]), SILENT)
  {}

  lemma {:induction false} EscapePrefix<S>(e: Emulator<S>, s: State<S>, q: seq<byte>, k: nat)
    requires EscapeSequence(q) && s.frame.Ground? && 1 <= k < |q|
    ensures Run(e, s, q[..k]) ==
      (s.(frame := if k == 1 then Escape else Intermediate, sequence := q[..k], instruction := q[..k],
          control := false),
       SILENT)
    decreases k
  {
    hide Step, Run;
    if k == 1 {
      assert q[..1] == [ESC];
      OneByte(e, s, ESC);
      EscapeBegins(e, s);
    } else {
      EscapePrefix(e, s, q, k - 1);
      RunLast(e, s, q[..k]);
      assert q[..k][..k - 1] == q[..k - 1] && q[..k - 1] + [q[k - 1]] == q[..k];
      IntermediateStep(e, Run(e, s, q[..k - 1]).0, q[k - 1]);
      JoinSilent(SILENT);
    }
  }

  /** A finishing byte completes the instruction. */
  lemma FinishStep<S>(e: Emulator<S>, m: State<S>, b: byte)
    requires Collecting(m.frame) && 32 <= b < 127 && |m.sequence| < SEQUENCE_LIMIT && MoveOn(m.frame, b).Finish?
    ensures var grown := m.(sequence := m.sequence + [b], instruction := m.instruction + [b]);
            var reply := Reply(e, grown);
            var done := Completed(grown, reply);
            Step(e, m, b) ==
            (if Projects(grown, reply) then done.(screen := e.execute(done.screen, grown.instruction)) else done,
             CompletionOutput(grown, reply))
  {
    hide Reply, Projects, Completed, CompletionOutput, MoveOn;
    var grown := m.(sequence := m.sequence + [b], instruction := m.instruction + [b]);
    JoinSilent(CompletionOutput(grown, Reply(e, grown)));
    assert Step(e, m, b) == CollectStep(e, m, b);
  }

  lemma EscapeFinal<S>(e: Emulator<S>, m: State<S>, q: seq<byte>)
    requires EscapeSequence(q) && !m.oversize && !m.control
    requires m.frame == (if |q| == 2 then Escape else Intermediate)
    requires m.sequence == q[..|q| - 1] && m.instruction == q[..|q| - 1]
    ensures Step(e, m, q[|q| - 1]) == (Cleared(m).(screen := e.execute(m.screen, q)), Output(q, Bells(q), []))
  {
    hide Step, Reply, WithheldFromScreen, SyncChange, Bells, EscapeSequence, MoveOn;
    FinalMoves(q);
    var b := q[|q| - 1];
    assert q[..|q| - 1] + [b] == q;
    NoControlSequence(e, m.(sequence := q, instruction := q));
    FinishStep(e, m, b);
  }

  lemma NoControlSequence<S>(e: Emulator<S>, s: State<S>)
    requires EscapeSequence(s.instruction) && !s.oversize && (s.frame.Escape? || s.frame.Intermediate?)
    ensures Reply(e, s).None? && !WithheldFromScreen(s) && SyncChange(s).None?
  {
    hide Synchronized, TerminalControl, QueryReply;
    NotCsi(s.instruction);
  }

  lemma NotCsi(q: seq<byte>)
    requires EscapeSequence(q)
    ensures !TerminalControl(q) && Synchronized(q).None? && forall v :: QueryReply(v, q).None?
    ensures q != [27, 92]
  {}

  lemma FinalMoves(q: seq<byte>)
    requires EscapeSequence(q)
    ensures var f: Frame := if |q| == 2 then Escape else Intermediate; MoveOn(f, q[|q| - 1]).Finish?
    ensures 2 <= |q| <= SEQUENCE_LIMIT && 0x30 <= q[|q| - 1] <= 0x7E
  {}

  /** Every escape sequence outside strings and control sequences is passed on and executed once. */
  lemma {:induction false} EscapeSequenceExecuted<S>(e: Emulator<S>, s: State<S>, q: seq<byte>)
    requires Framed(s) && s.frame.Ground? && EscapeSequence(q)
    ensures Run(e, s, q) == (s.(screen := e.execute(s.screen, q)), Output(q, Bells(q), []))
  {
    hide Step, Run, EscapeSequence, Bells;
    var k := |q| - 1;
    EscapeLength(q);
    EscapePrefix(e, s, q, k);
    RunLast(e, s, q);
    EscapeFinal(e, Run(e, s, q[..k]).0, q);
    JoinSilent(Output(q, Bells(q), []));
  }

  lemma EscapeLength(q: seq<byte>)
    requires EscapeSequence(q)
    ensures |q| >= 2
  {}

  // ---------------------------------------------------------------- text and embedded controls

  /** On ground every byte but an escape is text: it reaches the screen and the native output alone, a bell both. */
  lemma {:induction false} TextReachesScreen<S>(e: Emulator<S>, s: State<S>, b: byte)
    requires s.frame.Ground? && b != ESC
    ensures Step(e, s, b) == (s.(screen := e.text(s.screen, b)), Output([b], if b == 7 then [7] else [], []))
  {}

  /** A control byte inside a sequence takes effect at once and is retained; bytes from DEL on are only retained. */
  lemma {:induction false} EmbeddedControl<S>(e: Emulator<S>, s: State<S>, b: byte)
    requires Collecting(s.frame) && |s.sequence| < SEQUENCE_LIMIT
    requires (b < 32 && b != 24 && b != 26 && b != ESC) || b >= 127
    ensures Step(e, s, b) ==
      (s.(sequence := s.sequence + [b], screen := if b < 32 then e.text(s.screen, b) else s.screen), SILENT)
  {}

  lemma {:induction false} NoBells(q: seq<byte>)
    requires forall i :: 0 <= i < |q| ==> q[i] != 7
    ensures Bells(q) == []
  {
    if q != [] {
      NoBells(q[1..]);
    }
  }

  /** An executed control sequence is native output alone, unless it switches synchronized updates. */
  lemma {:induction false} ExecutedOutput<S>(e: Emulator<S>, s: State<S>, q: seq<byte>)
    requires Framed(s) && s.frame.Ground? && ControlSequence(q) && !TerminalControl(q)
    ensures Run(e, s, q).1 == Output(q, if Synchronized(q).Some? then q else [], [])
  {
    hide Step, Run, ControlSequence, CsiFrameAt, Synchronized, TerminalControl, MoveOn;
    LastByte(e, s, q);
    QueryBytes(q);
    NoBells(q);
    var k := |q| - 1;
    var m := s.(frame := CsiFrameAt(q, k), sequence := q[..k], instruction := q[..k], control := false);
    FinalFinishes(m.frame, q[k]);
    FinishStep(e, m, q[k]);
    NoReply(e.view(s.screen), q);
    CsiIsNotTerminator(q);
  }

  lemma CsiIsNotTerminator(q: seq<byte>)
    requires ControlSequence(q)
    ensures q != [27, 92]
  {}

  lemma FinalFinishes(f: Frame, b: byte)
    requires Csi(f) && Final(b)
    ensures MoveOn(f, b).Finish?
  {}

  lemma NoReply(v: View, q: seq<byte>)
    requires !TerminalControl(q)
    ensures QueryReply(v, q).None?
  {}
}
