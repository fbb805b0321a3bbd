/** The batching projection: screen updates are collected and fed to the screen in runs of bytes. */
module Projection {
  import opened Wrappers
  import opened Framer

  // ---------------------------------------------------------------- the screen's byte interface

  datatype Token = Text(b: byte) | Instruction(bytes: seq<byte>)

  function Spell(t: Token): seq<byte> { if t.Text? then [t.b] else t.bytes }

  function SpellAll(tokens: seq<Token>): seq<byte> {
    if tokens == [] then [] else Spell(tokens[0]) + SpellAll(tokens[1..])
  }

  /** The first index at or after `i` whose byte lies outside [lo, hi]. */
  function Span(s: seq<byte>, i: nat, lo: int, hi: int): (r: nat)
    requires i <= |s|
    ensures i <= r <= |s|
    decreases |s| - i
  {
    if i < |s| && lo <= s[i] <= hi then Span(s, i + 1, lo, hi) else i
  }

  /** Length of the complete instruction at the front of `s`, or 0: the stream's instruction pattern. */
  function MatchLength(s: seq<byte>): (n: nat)
    ensures n <= |s|
  {
    if |s| < 2 || s[0] != ESC then 0
    else
      var csi := if s[1] == 91 then Span(s, 2, 0x20, 0x3F) else |s|;
      if csi < |s| && Final(s[csi]) then csi + 1
      else
        var plain := Span(s, 1, 0x20, 0x2F);
        if plain < |s| && 0x30 <= s[plain] <= 0x7E then plain + 1 else 0
  }

  /** How the stream re-splits a batch into complete instructions and text. */
  function Split(s: seq<byte>): seq<Token>
    decreases |s|
  {
    if s == [] then []
    else
      var n := MatchLength(s);
      if n > 0 then [Instruction(s[..n])] + Split(s[n..]) else [Text(s[0])] + Split(s[1..])
  }

  function Apply<S>(e: Emulator<S>, screen: S, tokens: seq<Token>): S {
    if tokens == [] then screen
    else
      var before := Apply(e, screen, tokens[..|tokens| - 1]);
      match tokens[|tokens| - 1]
      case Text(b) => e.text(before, b)
      case Instruction(bytes) => e.execute(before, bytes)
  }

  function StreamFeed<S>(e: Emulator<S>, screen: S, bytes: seq<byte>): S {
    Apply(e, screen, Split(bytes))
  }

  // ---------------------------------------------------------------- batches fall on instruction boundaries

  /** A token the projection may buffer: text that is not ESC, or one complete instruction. */
  predicate Complete(t: Token) {
    match t
    case Text(b) => b != ESC
    case Instruction(q) =>
      || (|q| >= 3 && CsiInstruction(q) && InRange(q, 2, |q| - 1, 0x20, 0x3F) && Final(q[|q| - 1]))
      || (|q| >= 2 && q[0] == ESC && q[1] != 91 && InRange(q, 1, |q| - 1, 0x20, 0x2F) && 0x30 <= q[|q| - 1] <= 0x7E)
  }

  predicate AllComplete(tokens: seq<Token>) {
    forall i :: 0 <= i < |tokens| ==> Complete(tokens[i])
  }

  lemma {:induction false} SpanReaches(s: seq<byte>, i: nat, j: nat, lo: int, hi: int)
    requires i <= j < |s| && InRange(s, i, j, lo, hi) && !(lo <= s[j] <= hi)
    ensures Span(s, i, lo, hi) == j
    decreases j - i
  {
    if i < j {
      SpanReaches(s, i + 1, j, lo, hi);
    }
  }

  /** Whatever follows it, a complete instruction is matched exactly. */
  lemma MatchesExactly(q: seq<byte>, rest: seq<byte>)
    requires Complete(Instruction(q))
    ensures MatchLength(q + rest) == |q|
  {
    var s, last := q + rest, |q| - 1;
    assert forall i :: 0 <= i < |q| ==> s[i] == q[i];
    if q[1] == 91 {
      SpanReaches(s, 2, last, 0x20, 0x3F);
    } else {
      SpanReaches(s, 1, last, 0x20, 0x2F);
    }
  }

  /** Re-splitting a batch of complete tokens gives those tokens back: no flush cuts an instruction. */
  lemma {:induction false} SplitRecoversTokens(tokens: seq<Token>)
    requires AllComplete(tokens)
    ensures Split(SpellAll(tokens)) == tokens
  {
    if tokens != [] {
      var t, rest := tokens[0], tokens[1..];
      var s := SpellAll(tokens);
      assert s == Spell(t) + SpellAll(rest);
      assert AllComplete(rest);
      SplitRecoversTokens(rest);
      assert Complete(t);
      if t.Instruction? {
        MatchesExactly(t.bytes, SpellAll(rest));
        assert s[..|t.bytes|] == t.bytes && s[|t.bytes|..] == SpellAll(rest);
      } else {
        assert MatchLength(s) == 0 && s[1..] == SpellAll(rest);
      }
      assert tokens == [t] + rest;
    }
  }

  lemma {:induction false} SpellAppend(tokens: seq<Token>, t: Token)
    ensures SpellAll(tokens + [t]) == SpellAll(tokens) + Spell(t)
  {
    if tokens == [] {
      assert tokens + [t] == [t];
      assert SpellAll([t]) == Spell(t) + SpellAll([]);
    } else {
      assert (tokens + [t])[1..] == tokens[1..] + [t];
      SpellAppend(tokens[1..], t);
    }
  }

  /** A completed instruction that the framer projects is a complete token. */
  lemma ProjectedInstructionComplete<S>(s: State<S>, b: byte)
    requires Framed(s) && Collecting(s.frame) && 32 <= b < 127
    requires MoveOn(s.frame, b).Finish? && !Retained(s, b).oversize && !s.frame.CsiIgnore?
    ensures Complete(Instruction(s.instruction + [b]))
  {
    var q := s.instruction + [b];
    assert forall i :: 0 <= i < |s.instruction| ==> q[i] == s.instruction[i];
    assert Prefix(s.frame, s.instruction);
  }

  lemma ApplyAppend<S>(e: Emulator<S>, screen: S, tokens: seq<Token>, t: Token)
    ensures Apply(e, screen, tokens + [t]) ==
      if t.Text? then e.text(Apply(e, screen, tokens), t.b) else e.execute(Apply(e, screen, tokens), t.bytes)
  {
    assert (tokens + [t])[..|tokens + [t]| - 1] == tokens;
  }

  /** The reference state that a batching state stands for while `tokens` are still buffered. */
  ghost function Pending<S>(e: Emulator<S>, s: State<S>, tokens: seq<Token>): State<S> {
    s.(screen := Apply(e, s.screen, tokens))
  }

  class NativeTerminalProjection<S> {
    const emulator: Emulator<S>
    var screen: S
    var frame: Frame
    var sequence: seq<byte>
    var instruction: seq<byte>
    var controlSequence: bool
    var oversize: bool
    var synchronizedUpdate: bool

    ghost function Model(): State<S>
      reads this
    {
      State(frame, sequence, instruction, controlSequence, oversize, synchronizedUpdate, screen)
    }

    constructor (emulator: Emulator<S>, screen: S)
      ensures this.emulator == emulator
      ensures Model() == State(Ground, [], [], false, false, false, screen) && Framed(Model())
    {
      this.emulator, this.screen := emulator, screen;
      frame, sequence, instruction := Ground, [], [];
      controlSequence, oversize, synchronizedUpdate := false, false, false;
    }

    /**
     Feed one chunk.  The batched screen updates end in exactly the state of the per-byte machine, with
     the same bytes on every channel; in particular every answered query saw all earlier updates.
     */
    method Feed(data: seq<byte>) returns (out: Output)
      requires Framed(Model())
      modifies this
      ensures Framed(Model())
      ensures (Model(), out) == Run(emulator, old(Model()), data)
    {
      hide Step, Framed, Complete;
      out := SILENT;
      var projection: seq<byte> := [];
      ghost var tokens: seq<Token> := [];
      ghost var start := Model();
      var i := 0;
      while i < |data|
        invariant 0 <= i <= |data|
        invariant Framed(Model())
        invariant projection == SpellAll(tokens) && AllComplete(tokens)
        invariant (Pending(emulator, Model(), tokens), out) == Run(emulator, start, data[..i])
      {
        var more;
        more, projection, tokens := Consume(data[i], projection, tokens);
        out := Join(out, more);
        assert data[..i + 1][..i] == data[..i];
        i := i + 1;
      }
      assert data[..|data|] == data;
      ghost var unflushed := Model();
      if projection != [] {
        projection, tokens := Flush(projection, tokens);
      } else {
        EmptyBatch(tokens);
      }
      FramedAnyScreen(unflushed, screen);
    }

    /** Feed chunks one after another: where the input was cut makes no difference to anything. */
    method FeedAll(chunks: seq<seq<byte>>) returns (out: Output)
      requires Framed(Model())
      modifies this
      ensures Framed(Model())
      ensures (Model(), out) == Run(emulator, old(Model()), Flatten(chunks))
    {
      hide Run, Framed;
      ChunkingInvariant(emulator, Model(), chunks);
      out := SILENT;
      for i := 0 to |chunks|
        invariant Framed(Model())
        invariant (Model(), out) == Chunked(emulator, old(Model()), chunks[..i])
      {
        var more := Feed(chunks[i]);
        out := Join(out, more);
        assert chunks[..i + 1][..i] == chunks[..i];
      }
      assert chunks[..|chunks|] == chunks;
    }

    method Consume(b: byte, buffered: seq<byte>, ghost queued: seq<Token>)
      returns (out: Output, projection: seq<byte>, ghost tokens: seq<Token>)
      requires Framed(Model())
      requires buffered == SpellAll(queued) && AllComplete(queued)
      modifies this
      ensures Framed(Model())
      ensures projection == SpellAll(tokens) && AllComplete(tokens)
      ensures (Pending(emulator, Model(), tokens), out) == Step(emulator, old(Pending(emulator, Model(), queued)), b)
    {
      hide CollectStep, SpellAll, Apply, Prefix;
      StepFramed(emulator, Pending(emulator, Model(), queued), b);
      projection, tokens := buffered, queued;
      if frame.Ground? {
        if b == ESC {
          BeginEscape(false);
          out := SILENT;
        } else {
          projection, tokens := PushByte(b, projection, tokens);
          out := Output([b], if b == 7 then [b] else [], []);
        }
      } else if DcsPayload(frame) {
        frame := PayloadFrame(frame, b);
        out := Both([b]);
      } else if b == 24 || b == 26 || b == ESC {
        var inherited := Opaque(frame) || controlSequence || oversize || sequence != [];
        var released := sequence;
        ClearSequence();
        if b == ESC {
          BeginEscape(inherited);
          out := Both(released);
        } else {
          projection, tokens := PushByte(b, projection, tokens);
          out := Both(released + [b]);
        }
      } else if Opaque(frame) {
        frame := OpaqueFrame(frame, b);
        out := Both([b]);
      } else {
        out, projection, tokens := CollectByte(b, projection, tokens);
      }
    }

    /** Buffer one byte for the screen. */
    method PushByte(b: byte, buffered: seq<byte>, ghost queued: seq<Token>)
      returns (projection: seq<byte>, ghost tokens: seq<Token>)
      requires buffered == SpellAll(queued) && AllComplete(queued) && b != ESC
      ensures projection == SpellAll(tokens) && AllComplete(tokens)
      ensures Apply(emulator, screen, tokens) == emulator.text(Apply(emulator, screen, queued), b)
    {
      projection, tokens := buffered + [b], queued + [Text(b)];
      SpellAppend(queued, Text(b));
      ApplyAppend(emulator, screen, queued, Text(b));
    }

    method BeginEscape(control: bool)
      modifies this`sequence, this`instruction, this`frame, this`controlSequence
      ensures Model() == Begun(old(Model()), control)
    {
      sequence, instruction, frame, controlSequence := [ESC], [ESC], Escape, control;
    }

    method ClearSequence()
      modifies this`sequence, this`instruction, this`frame, this`controlSequence, this`oversize
      ensures Model() == Cleared(old(Model()))
    {
      sequence, instruction, oversize, controlSequence, frame := [], [], false, false, Ground;
    }

    method CollectByte(b: byte, buffered: seq<byte>, ghost queued: seq<Token>)
      returns (out: Output, projection: seq<byte>, ghost tokens: seq<Token>)
      requires Framed(Model()) && Collecting(frame) && b != ESC
      requires buffered == SpellAll(queued) && AllComplete(queued)
      modifies this
      ensures projection == SpellAll(tokens) && AllComplete(tokens)
      ensures (Pending(emulator, Model(), tokens), out)
        == CollectStep(emulator, old(Pending(emulator, Model(), queued)), b)
    {
      hide SpellAll, Apply, Prefix, Reply, CompletionOutput, Completed, Projects, Complete;
      projection, tokens := buffered, queued;
      ghost var before := Model();
      out := RetainByte(b);
      if b < 32 {
        projection, tokens := PushByte(b, projection, tokens);
        return;
      }
      if b >= 127 {
        return;
      }
      instruction := instruction + [b];
      var move := MoveOn(frame, b);
      if move.Collect? {
        frame := move.frame;
      } else if move.Enter? {
        out := Join(out, Both(sequence));
        ClearSequence();
        frame := move.frame;
      } else {
        if !oversize && !frame.CsiIgnore? {
          ProjectedInstructionComplete(before, b);
        }
        var more;
        more, projection, tokens := FinishInstruction(projection, tokens);
        out := Join(out, more);
      }
    }

    /** Retain one more byte of a sequence; one that grows too long is given up and spilled. */
    method RetainByte(b: byte) returns (spilled: Output)
      modifies this`sequence, this`instruction, this`oversize
      ensures Model() == Retained(old(Model()), b) && spilled == Spill(old(Model()), b)
    {
      spilled := SILENT;
      sequence := sequence + [b];
      if |sequence| > SEQUENCE_LIMIT {
        spilled := Both(sequence);
        sequence, instruction, oversize := [], [], true;
      }
    }

    method FinishInstruction(buffered: seq<byte>, ghost queued: seq<Token>)
      returns (out: Output, projection: seq<byte>, ghost tokens: seq<Token>)
      requires buffered == SpellAll(queued) && AllComplete(queued)
      requires !Ignored(Model()) ==> Complete(Instruction(instruction))
      modifies this
      ensures projection == SpellAll(tokens) && AllComplete(tokens)
      ensures
        var was := old(Pending(emulator, Model(), queued));
        var reply := Reply(emulator, was);
        var done := Completed(was, reply);
        && out == CompletionOutput(was, reply)
        && Pending(emulator, Model(), tokens) ==
             if Projects(was, reply) then done.(screen := emulator.execute(done.screen, was.instruction)) else done
    {
      hide SpellAll, Apply, Complete, Embedded, Bells, TerminalControl, Synchronized, Reply;
      var reply;
      reply, projection, tokens := AnswerQuery(buffered, queued);
      if reply.Some? {
        var kept := (if controlSequence then [27, 92] else []) + Embedded(sequence);
        out := Output(kept, kept, reply.value);
      } else {
        out, projection, tokens := PassInstruction(EncodingSwitch(instruction), projection, tokens);
      }
      ClearSequence();
    }

    /** Flush before a status query or an encoding switch, so that the reply reads an up-to-date screen. */
    method AnswerQuery(buffered: seq<byte>, ghost queued: seq<Token>)
      returns (reply: Option<seq<byte>>, projection: seq<byte>, ghost tokens: seq<Token>)
      requires buffered == SpellAll(queued) && AllComplete(queued)
      modifies this`screen
      ensures projection == SpellAll(tokens) && AllComplete(tokens)
      ensures EncodingSwitch(instruction) ==> tokens == []
      ensures Apply(emulator, screen, tokens) == old(Apply(emulator, screen, queued))
      ensures reply == Reply(emulator, old(Pending(emulator, Model(), queued)))
    {
      hide SpellAll, Apply, QueryReply, StatusQuery, EncodingSwitch;
      projection, tokens := buffered, queued;
      ghost var was := Pending(emulator, Model(), queued);
      OnlyStatusQueriesAnswered(emulator.view(screen), instruction);
      OnlyStatusQueriesAnswered(emulator.view(was.screen), instruction);
      if projection != [] && (EncodingSwitch(instruction) || StatusQuery(instruction)) {
        projection, tokens := Flush(projection, tokens);
      }
      if EncodingSwitch(instruction) || StatusQuery(instruction) {
        EmptyBatch(tokens);
        ApplyNothing(emulator, screen);
      }
      reply := if oversize || frame.CsiIgnore? then None else QueryReply(emulator.view(screen), instruction);
    }

    /** An instruction that was not answered: pass it on, and project it unless the terminal owns it. */
    method PassInstruction(encodingSwitch: bool, buffered: seq<byte>, ghost queued: seq<Token>)
      returns (out: Output, projection: seq<byte>, ghost tokens: seq<Token>)
      requires buffered == SpellAll(queued) && AllComplete(queued)
      requires !Ignored(Model()) ==> Complete(Instruction(instruction))
      requires encodingSwitch ==> queued == []
      modifies this`screen, this`synchronizedUpdate
      ensures projection == SpellAll(tokens) && AllComplete(tokens)
      ensures out == CompletionOutput(old(Model()), None)
      ensures synchronizedUpdate == if SyncChange(old(Model())).Some? then SyncChange(old(Model())).value
        else old(synchronizedUpdate)
      ensures Apply(emulator, screen, tokens) ==
        if WithheldFromScreen(old(Model())) then old(Apply(emulator, screen, queued))
        else emulator.execute(old(Apply(emulator, screen, queued)), instruction)
    {
      hide SpellAll, Apply, Complete, TerminalControl, Synchronized, Bells;
      projection, tokens := buffered, queued;
      var ignored := oversize || frame.CsiIgnore?;
      var terminalControl := ignored || instruction == [27, 92] || TerminalControl(instruction);
      var synchronized := if ignored then None else Synchronized(instruction);
      out := Output(sequence,
                    if terminalControl || synchronized.Some? || controlSequence then sequence else Bells(sequence),
                    []);
      if synchronized.Some? {
        synchronizedUpdate := synchronized.value;
      }
      if !terminalControl {
        projection, tokens := ProjectInstruction(encodingSwitch, projection, tokens);
      }
    }

    /** Hand the buffered batch to the screen. */
    method Flush(buffered: seq<byte>, ghost queued: seq<Token>)
      returns (projection: seq<byte>, ghost tokens: seq<Token>)
      requires buffered == SpellAll(queued) && AllComplete(queued)
      modifies this`screen
      ensures projection == [] && tokens == [] && projection == SpellAll(tokens)
      ensures screen == old(Apply(emulator, screen, queued))
    {
      SplitRecoversTokens(queued);
      screen := StreamFeed(emulator, screen, buffered);
      projection, tokens := [], [];
    }

    /** Buffer a completed instruction; an encoding switch goes to the screen by itself. */
    method ProjectInstruction(encodingSwitch: bool, buffered: seq<byte>, ghost queued: seq<Token>)
      returns (projection: seq<byte>, ghost tokens: seq<Token>)
      requires buffered == SpellAll(queued) && AllComplete(queued) && Complete(Instruction(instruction))
      requires encodingSwitch ==> queued == []
      modifies this`screen
      ensures projection == SpellAll(tokens) && AllComplete(tokens)
      ensures Apply(emulator, screen, tokens) == emulator.execute(old(Apply(emulator, screen, queued)), instruction)
    {
      var token := Instruction(instruction);
      SpellAppend(queued, token);
      ApplyAppend(emulator, screen, queued, token);
      if encodingSwitch {
        SplitRecoversTokens([token]);
        assert SpellAll([token]) == instruction;
        assert queued + [token] == [token];
        screen := StreamFeed(emulator, screen, instruction);
        projection, tokens := [], [];
      } else {
        projection, tokens := buffered + instruction, queued + [token];
      }
    }
  }

  lemma OnlyStatusQueriesAnswered(v: View, q: seq<byte>)
    ensures !StatusQuery(q) ==> QueryReply(v, q) == None
  {
  }

  lemma FramedAnyScreen<S>(s: State<S>, screen: S)
    requires Framed(s)
    ensures Framed(s.(screen := screen))
  {
  }

  lemma ApplyNothing<S>(e: Emulator<S>, screen: S)
    ensures Apply(e, screen, []) == screen
  {
  }

  lemma EmptyBatch(tokens: seq<Token>)
    requires AllComplete(tokens)
    ensures SpellAll(tokens) == [] ==> tokens == []
  {
    if tokens != [] {
      assert Complete(tokens[0]) && Spell(tokens[0]) != [];
    }
  }
}
