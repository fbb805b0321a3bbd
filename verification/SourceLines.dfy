/** Complete records of a rollout, line splitting, and the analyzer's line filter. */
module SourceLines {
  import opened Wrappers

  type Bytes = seq<bv8>

  const NL: bv8 := 10
  const CR: bv8 := 13

  function Count(s: Bytes): nat {
    if s == [] then 0 else (if s[0] == NL then 1 else 0) + Count(s[1..])
  }

  /** The length of the longest prefix that ends with a newline. */
  function CompleteLength(s: Bytes): (n: nat)
    ensures n <= |s| && (n > 0 ==> s[n - 1] == NL)
    ensures forall i :: n <= i < |s| ==> s[i] != NL
  {
    if s == [] then 0 else if s[|s| - 1] == NL then |s| else CompleteLength(s[..|s| - 1])
  }

  predicate Aligned(s: Bytes) {
    s == [] || s[|s| - 1] == NL
  }

  /** The length of the first line with its terminator: a newline, a carriage return, or both together. */
  function LineLength(s: Bytes): (n: nat)
    requires s != []
    ensures 1 <= n <= |s|
  {
    if s[0] == NL then 1
    else if s[0] == CR then (if |s| > 1 && s[1] == NL then 2 else 1)
    else if |s| == 1 then 1
    else 1 + LineLength(s[1..])
  }

  function Lines(s: Bytes): seq<Bytes>
    decreases |s|
  {
    if s == [] then [] else [s[..LineLength(s)]] + Lines(s[LineLength(s)..])
  }

  /** Carriage returns that end a line on their own. */
  function BareReturns(s: Bytes): nat {
    if s == [] then 0
    else (if s[0] == CR && (|s| == 1 || s[1] != NL) then 1 else 0) + BareReturns(s[1..])
  }

  // ---------------------------------------------------------------- the filter

  /** What a record says about its own position; malformed lines and other values say nothing. */
  datatype Verdict = Silent | Ordinal(n: nat)

  datatype Kind = Root | Subagent(cutoff: nat)

  datatype Filtered = Filtered(content: Bytes, ordinals: seq<nat>)

  const NOTHING := Filtered([], [])

  function Cat(a: Filtered, b: Filtered): Filtered {
    Filtered(a.content + b.content, a.ordinals + b.ordinals)
  }

  predicate Retained(line: Bytes, ordinal: nat, cutoff: nat, json: Bytes -> Verdict) {
    ordinal == 0 || (if json(line).Ordinal? then json(line).n else ordinal) > cutoff
  }

  function Chosen(line: Bytes, ordinal: nat, cutoff: nat, json: Bytes -> Verdict): Filtered {
    if Retained(line, ordinal, cutoff, json) then Filtered(line, [ordinal]) else NOTHING
  }

  function FilterLines(lines: seq<Bytes>, offset: nat, cutoff: nat, json: Bytes -> Verdict): Filtered
    decreases |lines|
  {
    if lines == [] then NOTHING
    else Cat(Chosen(lines[0], offset, cutoff, json), FilterLines(lines[1..], offset + 1, cutoff, json))
  }

  function Range(from: nat, count: nat): seq<nat> {
    seq(count, i requires 0 <= i < count => from + i)
  }

  function Filter(kind: Kind, content: Bytes, offset: nat, json: Bytes -> Verdict): Filtered {
    if kind.Root? then Filtered(content, Range(offset, Count(content)))
    else FilterLines(Lines(content), offset, kind.cutoff, json)
  }

  // ---------------------------------------------------------------- splitting at a complete record

  lemma {:induction false} CountAppend(a: Bytes, b: Bytes)
    ensures Count(a + b) == Count(a) + Count(b)
  {
    if a == [] {
      assert a + b == b;
    } else {
      assert (a + b)[1..] == a[1..] + b;
      CountAppend(a[1..], b);
    }
  }

  lemma {:induction false} LineLengthAppend(a: Bytes, b: Bytes)
    requires a != [] && Aligned(a)
    ensures LineLength(a + b) == LineLength(a) && Aligned(a[LineLength(a)..])
  {
    if a[0] != NL && a[0] != CR {
      assert (a + b)[1..] == a[1..] + b;
      LineLengthAppend(a[1..], b);
    }
  }

  /** Splitting after a complete record never splits a line. */
  lemma {:induction false} LinesAppend(a: Bytes, b: Bytes)
    requires Aligned(a)
    ensures Lines(a + b) == Lines(a) + Lines(b)
    decreases |a|
  {
    if a == [] {
      assert a + b == b;
    } else {
      var n := LineLength(a);
      LineLengthAppend(a, b);
      LinesAppend(a[n..], b);
      FirstLine(a, b, n);
    }
  }

  lemma FirstLine(a: Bytes, b: Bytes, n: nat)
    requires n <= |a|
    ensures (a + b)[..n] == a[..n] && (a + b)[n..] == a[n..] + b
  {}

  lemma {:induction false} LineLengthCounts(s: Bytes)
    requires s != [] && Aligned(s)
    ensures var n := LineLength(s);
            Count(s) + BareReturns(s) == 1 + Count(s[n..]) + BareReturns(s[n..])
  {
    if s[0] != NL && s[0] != CR {
      LineLengthCounts(s[1..]);
      assert s[1..][LineLength(s[1..])..] == s[LineLength(s)..];
    } else if s[0] == CR && s[1] == NL {
      assert s[1..][1..] == s[2..];
    }
  }

  /** Complete content has one line per newline and one more per bare carriage return. */
  lemma {:induction false} LineCount(s: Bytes)
    requires Aligned(s)
    ensures |Lines(s)| == Count(s) + BareReturns(s)
    decreases |s|
  {
    if s != [] {
      LineLengthCounts(s);
      LineLengthAppend(s, []);
      LineCount(s[LineLength(s)..]);
    }
  }

  lemma CatAssociates(a: Filtered, b: Filtered, c: Filtered)
    ensures Cat(Cat(a, b), c) == Cat(a, Cat(b, c)) && Cat(NOTHING, a) == a && Cat(a, NOTHING) == a
  {}

  lemma {:induction false} FilterLinesAppend(
    a: seq<Bytes>, b: seq<Bytes>, offset: nat, cutoff: nat, json: Bytes -> Verdict
  )
    ensures FilterLines(a + b, offset, cutoff, json)
         == Cat(FilterLines(a, offset, cutoff, json), FilterLines(b, offset + |a|, cutoff, json))
    decreases |a|
  {
    hide Chosen, Cat;
    var tail := FilterLines(b, offset + |a|, cutoff, json);
    if a == [] {
      assert a + b == b;
      CatAssociates(tail, tail, tail);
    } else {
      assert (a + b)[1..] == a[1..] + b;
      FilterLinesAppend(a[1..], b, offset + 1, cutoff, json);
      CatAssociates(Chosen(a[0], offset, cutoff, json), FilterLines(a[1..], offset + 1, cutoff, json), tail);
    }
  }

  /** The filter may be split after the prefix for every possible rest, counting newlines as lines. */
  ghost predicate SplitExact(kind: Kind, prefix: Bytes, json: Bytes -> Verdict) {
    forall rest: Bytes :: Filter(kind, prefix + rest, 0, json)
      == Cat(Filter(kind, prefix, 0, json), Filter(kind, rest, Count(prefix), json))
  }

  lemma RootSplits(prefix: Bytes, rest: Bytes, json: Bytes -> Verdict)
    ensures Filter(Root, prefix + rest, 0, json)
      == Cat(Filter(Root, prefix, 0, json), Filter(Root, rest, Count(prefix), json))
  {
    CountAppend(prefix, rest);
    assert Range(0, Count(prefix + rest)) == Range(0, Count(prefix)) + Range(Count(prefix), Count(rest));
  }

  lemma {:induction false} FilterAppend(kind: Kind, prefix: Bytes, rest: Bytes, json: Bytes -> Verdict)
    requires Aligned(prefix) && (kind.Subagent? ==> BareReturns(prefix) == 0)
    ensures Filter(kind, prefix + rest, 0, json)
      == Cat(Filter(kind, prefix, 0, json), Filter(kind, rest, Count(prefix), json))
  {
    if kind.Root? {
      RootSplits(prefix, rest, json);
    } else {
      LinesAppend(prefix, rest);
      LineCount(prefix);
      FilterLinesAppend(Lines(prefix), Lines(rest), 0, kind.cutoff, json);
    }
  }

  // ---------------------------------------------------------------- and only then

  function Newlines(n: nat): Bytes {
    seq(n, _ => NL)
  }

  lemma {:induction false} NewlineLines(n: nat)
    ensures Lines(Newlines(n)) == seq(n, _ => [NL])
  {
    if n > 0 {
      assert Newlines(n)[1..] == Newlines(n - 1);
      NewlineLines(n - 1);
      assert seq(n, _ => [NL]) == [[NL]] + seq(n - 1, _ => [NL]);
      assert Newlines(n)[..1] == [NL];
    }
  }

  /** Filtering blank lines, the last of which is past the cutoff, ends with that line's position. */
  lemma {:induction false} BlankLinesEnd(n: nat, offset: nat, cutoff: nat, json: Bytes -> Verdict)
    requires n > 0 && offset + n - 1 > cutoff && json([NL]).Silent?
    ensures var ordinals := FilterLines(seq(n, _ => [NL]), offset, cutoff, json).ordinals;
            ordinals != [] && ordinals[|ordinals| - 1] == offset + n - 1
  {
    var blank := seq(n, _ => [NL]);
    assert blank[0] == [NL];
    if n == 1 {
      assert blank == [[NL]] && blank[1..] == [];
    } else {
      assert blank[1..] == seq(n - 1, _ => [NL]);
      BlankLinesEnd(n - 1, offset + 1, cutoff, json);
    }
  }

  /** Blank lines after a prefix come out at positions counted from its lines, or from its newlines. */
  lemma {:induction false} BlankRest(cutoff: nat, prefix: Bytes, n: nat, json: Bytes -> Verdict)
    requires Aligned(prefix)
    ensures var rest, blank := Newlines(n), seq(n, _ => [NL]);
            var head := Filter(Subagent(cutoff), prefix, 0, json);
            && Filter(Subagent(cutoff), prefix + rest, 0, json)
               == Cat(head, FilterLines(blank, |Lines(prefix)|, cutoff, json))
            && Filter(Subagent(cutoff), rest, Count(prefix), json) == FilterLines(blank, Count(prefix), cutoff, json)
  {
    hide Lines, FilterLines, Cat, Newlines, Aligned;
    LinesAppend(prefix, Newlines(n));
    NewlineLines(n);
    FilterLinesAppend(Lines(prefix), Lines(Newlines(n)), 0, cutoff, json);
  }

  /** A bare carriage return in the prefix makes some rest come out at other positions. */
  lemma {:induction false} BareReturnBreaks(cutoff: nat, prefix: Bytes, json: Bytes -> Verdict)
    requires Aligned(prefix) && BareReturns(prefix) > 0 && json([NL]).Silent?
    ensures !SplitExact(Subagent(cutoff), prefix, json)
  {
    hide Lines, FilterLines, Newlines, Filter, BareReturns, Count;
    var n := cutoff + 2;
    var blank := seq(n, _ => [NL]);
    LineCount(prefix);
    BlankRest(cutoff, prefix, n, json);
    BlankLinesEnd(n, |Lines(prefix)|, cutoff, json);
    BlankLinesEnd(n, Count(prefix), cutoff, json);
    LastDiffers(Filter(Subagent(cutoff), prefix, 0, json).ordinals,
                FilterLines(blank, |Lines(prefix)|, cutoff, json).ordinals,
                FilterLines(blank, Count(prefix), cutoff, json).ordinals);
    var rest := Newlines(n);
    assert Filter(Subagent(cutoff), prefix + rest, 0, json)
        != Cat(Filter(Subagent(cutoff), prefix, 0, json), Filter(Subagent(cutoff), rest, Count(prefix), json));
  }

  lemma LastDiffers(s: seq<nat>, a: seq<nat>, b: seq<nat>)
    requires a != [] && b != [] && a[|a| - 1] != b[|b| - 1]
    ensures s + a != s + b
  {
    assert (s + a)[|s + a| - 1] == a[|a| - 1];
    assert (s + b)[|s + b| - 1] == b[|b| - 1];
  }

  /**
   Reading on from a complete prefix counts its newlines as lines. For a sub-agent that is exact for
   every continuation if and only if the prefix has no bare carriage return; for a root always.
   */
  lemma {:induction false} SplitExactIff(kind: Kind, prefix: Bytes, json: Bytes -> Verdict)
    requires Aligned(prefix) && json([NL]).Silent?
    ensures SplitExact(kind, prefix, json) <==> kind.Root? || BareReturns(prefix) == 0
  {
    if kind.Root? || BareReturns(prefix) == 0 {
      forall rest: Bytes ensures Filter(kind, prefix + rest, 0, json)
        == Cat(Filter(kind, prefix, 0, json), Filter(kind, rest, Count(prefix), json))
      {
        FilterAppend(kind, prefix, rest, json);
      }
    } else {
      BareReturnBreaks(kind.cutoff, prefix, json);
    }
  }

  // ---------------------------------------------------------------- the filter as the source runs it

  /** The position of the last newline, or -1. */
  method FindLastNewline(content: Bytes) returns (i: int)
    ensures i + 1 == CompleteLength(content)
  {
    i := |content| - 1;
    while i >= 0 && content[i] != NL
      invariant -1 <= i < |content|
      invariant CompleteLength(content) == CompleteLength(content[..i + 1])
    {
      assert content[..i + 1][..i] == content[..i];
      i := i - 1;
    }
  }

  method FilterAnalyzerLines(kind: Kind, content: Bytes, offset: nat, json: Bytes -> Verdict) returns (r: Filtered)
    ensures r == Filter(kind, content, offset, json)
  {
    if kind.Root? || content == [] {
      return Filtered(content, Range(offset, Count(content)));
    }
    var lines := Lines(content);
    r := NOTHING;
    assert lines[0..] == lines;
    CatAssociates(FilterLines(lines, offset, kind.cutoff, json), NOTHING, NOTHING);
    for i := 0 to |lines|
      invariant Cat(r, FilterLines(lines[i..], offset + i, kind.cutoff, json))
        == FilterLines(lines, offset, kind.cutoff, json)
    {
      var line, ordinal := lines[i], offset + i;
      assert lines[i..][1..] == lines[i + 1..];
      CatAssociates(r, Chosen(line, ordinal, kind.cutoff, json),
                    FilterLines(lines[i + 1..], ordinal + 1, kind.cutoff, json));
      if ordinal == 0 {
        r := Cat(r, Filtered(line, [ordinal]));
      } else {
        var verdict := json(line);
        var position := if verdict.Ordinal? then verdict.n else ordinal;
        if position > kind.cutoff {
          r := Cat(r, Filtered(line, [ordinal]));
        } else {
          CatAssociates(r, NOTHING, NOTHING);
        }
      }
    }
    CatAssociates(r, NOTHING, NOTHING);
  }
}
