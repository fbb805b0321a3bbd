/** The grammar of sequences and headers: which are well formed, what becomes of the others, and whose they are. */
module FramerGrammar {
  import opened Wrappers
  import opened Framer
  import opened FramerStrings

  // ---------------------------------------------------------------- after an escape

  /** What the byte after ESC leads to, for every printable byte. */
  lemma {:induction false} EscapeLeads<S>(e: Emulator<S>, s: State<S>, b: byte)
    requires Framed(s) && s.frame.Ground? && 32 <= b < 127
    ensures Run(e, s, [ESC, b]).0.frame ==
      if b == 93 then Osc else if b == 80 then DcsEnter else if b == 95 then Apc
      else if b == 94 || b == 88 then ConsumeSt else if b == 107 then Rename
      else if b == 91 then CsiEnter else if b < 0x30 then Intermediate else Ground
  {
    hide Run, Reply, Projects, CompletionOutput, Join;
    TwoBytes(e, s, ESC, b);
    EscapeBegins(e, s);
  }

  // ---------------------------------------------------------------- control sequences

  predicate Between(p: seq<byte>) {
    forall i :: 0 <= i < |p| ==> 0x20 <= p[i] <= 0x3F
  }

  /** Parameter bytes, of which only the first may be a private marker, then intermediate bytes. */
  predicate WellFormed(p: seq<byte>) {
    forall i :: 1 <= i < |p| && p[i] >= 0x30 ==> p[i] < 0x3C && p[i - 1] >= 0x30
  }

  function CsiFrame(p: seq<byte>): Frame {
    if p == [] then CsiEnter
    else if !WellFormed(p) then CsiIgnore
    else if p[|p| - 1] < 0x30 then CsiIntermediate else CsiParameter
  }

  lemma WellFormedMost(p: seq<byte>)
    requires p != []
    ensures var most := p[..|p| - 1];
            WellFormed(p) <==> WellFormed(most) && (most != [] && p[|p| - 1] >= 0x30 ==>
                                                      p[|p| - 1] < 0x3C && most[|most| - 1] >= 0x30)
  {
    var most := p[..|p| - 1];
    forall i | 0 <= i < |most| ensures most[i] == p[i] {}
    if WellFormed(p) && most != [] && p[|p| - 1] >= 0x30 {
      assert p[|p| - 1] < 0x3C && p[|p| - 2] >= 0x30;
    }
  }

  lemma ShortWellFormed(p: seq<byte>)
    ensures |p| <= 1 ==> WellFormed(p)
  {}

  lemma CsiFrameNext(p: seq<byte>)
    requires p != [] && Between(p)
    ensures CsiFrame(p) == AdvanceCsi(CsiFrame(p[..|p| - 1]), p[|p| - 1])
  {
    hide WellFormed;
    WellFormedMost(p);
    ShortWellFormed(p[..|p| - 1]);
  }

  lemma CollectCsi<S>(e: Emulator<S>, s: State<S>, b: byte)
    requires Csi(s.frame) && 0x20 <= b <= 0x3F && |s.sequence| < SEQUENCE_LIMIT
    ensures Step(e, s, b) == (
      s.(frame := AdvanceCsi(s.frame, b), sequence := s.sequence + [b], instruction := s.instruction + [b]), SILENT)
  {}

  lemma {:induction false} CsiCollected<S>(e: Emulator<S>, s: State<S>, p: seq<byte>)
    requires s.frame.Ground? && Between(p) && |p| + 2 <= SEQUENCE_LIMIT
    ensures Run(e, s, [ESC, 91] + p) == (
      s.(frame := CsiFrame(p), sequence := [ESC, 91] + p, instruction := [ESC, 91] + p, control := false), SILENT)
    decreases |p|
  {
    hide Step, Run, CsiFrame, AdvanceCsi;
    var q := [ESC, 91] + p;
    if p == [] {
      assert q == [ESC, 91];
      OpenCsi(e, s);
      NothingYet();
    } else {
      var most, b := p[..|p| - 1], p[|p| - 1];
      CsiCollected(e, s, most);
      assert q[..|q| - 1] == [ESC, 91] + most && [ESC, 91] + most + [b] == q;
      RunLast(e, s, q);
      CsiFrames(most);
      CollectCsi(e, Run(e, s, q[..|q| - 1]).0, b);
      CsiFrameNext(p);
      JoinSilent(SILENT);
    }
  }

  lemma NothingYet()
    ensures CsiFrame([]) == CsiEnter
  {}

  lemma CsiFrames(p: seq<byte>)
    ensures Csi(CsiFrame(p))
  {}

  /** A control sequence outside the grammar is passed on as control output and never executed. */
  lemma {:induction false} MalformedNeverExecutes<S>(e: Emulator<S>, s: State<S>, p: seq<byte>, final: byte)
    requires Framed(s) && s.frame.Ground? && Between(p) && Final(final) && |p| + 3 <= SEQUENCE_LIMIT
    requires !WellFormed(p)
    ensures var q := [ESC, 91] + p + [final]; Run(e, s, q) == (s, Both(q))
  {
    hide Step, Run, WellFormed;
    var q := [ESC, 91] + p + [final];
    CsiCollected(e, s, p);
    ShortWellFormed(p);
    assert q[..|q| - 1] == [ESC, 91] + p;
    RunLast(e, s, q);
    IgnoredEnds(e, Run(e, s, [ESC, 91] + p).0, final);
    JoinBoth([], q);
  }

  lemma IgnoredEnds<S>(e: Emulator<S>, m: State<S>, b: byte)
    requires m.frame.CsiIgnore? && Final(b) && |m.sequence| < SEQUENCE_LIMIT
    ensures Step(e, m, b) == (Cleared(m), Both(m.sequence + [b]))
  {
    FinishStep(e, m, b);
  }

  /** Which control sequences belong to the terminal: reports, window operations, and those it marks as its own. */
  lemma {:induction false} TerminalOwns(p: seq<byte>, final: byte)
    ensures TerminalControl([27, 91] + p + [final]) <==>
      || final in {99, 110, 116}
      || (final == 112 && p != [] && p[|p| - 1] == 36)
      || (p != [] && p[0] in {61, 62})
      || (p == [] && final in {61, 62})
      || (p == [63] && final == 117)
  {
    var q := [27, 91] + p + [final];
    assert Last(q) == final && q[2] == if p == [] then final else p[0];
    assert q[|q| - 2] == if p == [] then 91 else p[|p| - 1];
    if q == [27, 91, 63, 117] {
      assert |p| == 1 && p[0] == q[2];
      assert p == [63];
    }
  }

  /** Status queries are the control sequences that end in `n`. */
  lemma {:induction false} QueriesEndInN(p: seq<byte>, final: byte)
    ensures StatusQuery([27, 91] + p + [final]) <==> final == 110
  {
    assert Last([27, 91] + p + [final]) == final;
  }

  /** A reported coordinate carries a sign exactly when it is negative. */
  lemma {:induction false} SignOnlyWhenNegative(n: int)
    ensures Signed(n) != [] && (Signed(n)[0] == 45 <==> n < 0)
  {
    if n >= 0 {
      DecimalIsDigits(n);
    }
  }

  lemma {:induction false} DecimalIsDigits(n: nat)
    ensures Decimal(n) != [] && forall i :: 0 <= i < |Decimal(n)| ==> 48 <= Decimal(n)[i] <= 57
  {
    if n >= 10 {
      DecimalIsDigits(n / 10);
    }
  }

  // ---------------------------------------------------------------- DCS headers

  /** Well formed as a control sequence is, without a colon. */
  predicate WellFormedHeader(p: seq<byte>) {
    WellFormed(p) && forall i :: 0 <= i < |p| ==> p[i] != 0x3A
  }

  function HeaderFrame(p: seq<byte>): Frame {
    if p == [] then DcsEnter
    else if !WellFormedHeader(p) then DcsIgnore
    else if p[|p| - 1] < 0x30 then DcsIntermediate else DcsParameter
  }

  lemma HeaderFrameNext(p: seq<byte>)
    requires p != [] && Between(p)
    ensures HeaderFrame(p) == AdvanceDcs(HeaderFrame(p[..|p| - 1]), p[|p| - 1])
  {
    hide WellFormed;
    WellFormedMost(p);
    ShortWellFormed(p[..|p| - 1]);
    var most := p[..|p| - 1];
    assert forall i :: 0 <= i < |most| ==> most[i] == p[i];
  }

  lemma HeaderStep<S>(e: Emulator<S>, s: State<S>, b: byte)
    requires DcsHeader(s.frame) && b != 24 && b != 26 && b != ESC
    ensures Step(e, s, b) == (s.(frame := AdvanceDcs(s.frame, b)), Both([b]))
  {}

  lemma {:induction false} HeaderCollected<S>(e: Emulator<S>, s: State<S>, p: seq<byte>)
    requires s.frame.DcsEnter? && Between(p)
    ensures Run(e, s, p) == (s.(frame := HeaderFrame(p)), Both(p))
    decreases |p|
  {
    hide Step, Run, AdvanceDcs, WellFormedHeader;
    if p == [] {
      RunNothing(e, s);
    } else {
      var most, b := p[..|p| - 1], p[|p| - 1];
      HeaderCollected(e, s, most);
      RunLast(e, s, p);
      HeaderStep(e, s.(frame := HeaderFrame(most)), b);
      HeaderFrameNext(p);
      JoinBoth(most, [b]);
      assert most + [b] == p;
    }
  }

  /** The final byte enters the body exactly after a well-formed header; otherwise the whole string is ignored. */
  lemma {:induction false} HeaderDecides<S>(e: Emulator<S>, s: State<S>, p: seq<byte>, final: byte)
    requires s.frame.DcsEnter? && Between(p) && Final(final)
    ensures Run(e, s, p + [final])
         == (s.(frame := if WellFormedHeader(p) then DcsBody else DcsIgnore), Both(p + [final]))
  {
    hide Step, Run, WellFormed;
    HeaderCollected(e, s, p);
    ShortWellFormed(p);
    assert (p + [final])[..|p|] == p;
    RunLast(e, s, p + [final]);
    HeaderStep(e, s.(frame := HeaderFrame(p)), final);
    JoinBoth(p, [final]);
  }

  /** Control and eight-bit bytes in a header have no effect, and neither has anything in an ignored string. */
  lemma {:induction false} HeaderNoise<S>(e: Emulator<S>, s: State<S>, b: byte)
    requires DcsHeader(s.frame) && b != 24 && b != 26 && b != ESC
    requires b < 32 || b >= 127 || s.frame.DcsIgnore?
    ensures Step(e, s, b) == (s, Both([b]))
  {}
}
