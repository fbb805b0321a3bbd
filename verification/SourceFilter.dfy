/** What splitting and filtering mean: which bytes make a line, and which lines the analyzer is given. */
module SourceFilter {
  import opened Wrappers
  import opened SourceLines

  // ---------------------------------------------------------------- lines

  function Flatten(lines: seq<Bytes>): Bytes {
    if lines == [] then [] else lines[0] + Flatten(lines[1..])
  }

  /** A line has its terminator, if any, at its end alone. */
  predicate IsLine(line: Bytes) {
    && line != []
    && forall i :: 0 <= i < |line| - 1 ==>
         line[i] != NL && (line[i] == CR ==> i == |line| - 2 && line[|line| - 1] == NL)
  }

  /** The line is ended before the byte that follows it; a carriage return takes a following newline along. */
  predicate EndedBefore(line: Bytes, next: bv8)
    requires line != []
  {
    line[|line| - 1] == NL || (line[|line| - 1] == CR && next != NL)
  }

  predicate AllEnded(lines: seq<Bytes>) {
    && (forall i :: 0 <= i < |lines| ==> IsLine(lines[i]))
    && (forall i :: 0 <= i < |lines| - 1 ==> EndedBefore(lines[i], lines[i + 1][0]))
  }

  /** A division of the bytes into lines. */
  predicate Division(lines: seq<Bytes>, s: Bytes) {
    Flatten(lines) == s && AllEnded(lines)
  }

  lemma {:induction false} FirstIsLine(s: Bytes)
    requires s != []
    ensures var n := LineLength(s); IsLine(s[..n]) && (n < |s| ==> EndedBefore(s[..n], s[n]))
  {
    if s[0] != NL && s[0] != CR && |s| > 1 {
      var n, m := LineLength(s), LineLength(s[1..]);
      FirstIsLine(s[1..]);
      assert s[..n] == [s[0]] + s[1..][..m];
    }
  }

  lemma {:induction false} FirstEndsThere(line: Bytes, rest: Bytes)
    requires IsLine(line) && (rest != [] ==> EndedBefore(line, rest[0]))
    ensures LineLength(line + rest) == |line|
  {
    if |line| > 1 && line[0] != CR {
      assert IsLine(line[1..]) by { TailIsLine(line); }
      assert (line + rest)[1..] == line[1..] + rest;
      FirstEndsThere(line[1..], rest);
    }
  }

  lemma TailIsLine(line: Bytes)
    requires IsLine(line) && |line| > 1
    ensures IsLine(line[1..])
  {
    var t := line[1..];
    forall i | 0 <= i < |t| - 1 ensures t[i] != NL && (t[i] == CR ==> i == |t| - 2 && t[|t| - 1] == NL) {
      assert t[i] == line[i + 1];
    }
  }

  lemma ConsEnded(line: Bytes, lines: seq<Bytes>)
    requires IsLine(line) && AllEnded(lines) && (lines != [] ==> EndedBefore(line, lines[0][0]))
    ensures AllEnded([line] + lines)
  {
    var all := [line] + lines;
    forall i | 0 <= i < |all| - 1 ensures EndedBefore(all[i], all[i + 1][0]) {
      assert all[i + 1] == lines[i];
      assert i > 0 ==> all[i] == lines[i - 1];
    }
  }

  lemma FlattenCons(line: Bytes, lines: seq<Bytes>)
    ensures Flatten([line] + lines) == line + Flatten(lines)
  {
    assert ([line] + lines)[1..] == lines;
  }

  /** The lines are a division: nothing is lost, and each ends at a newline, a carriage return, or both together. */
  lemma {:induction false} LinesDivide(s: Bytes)
    ensures Division(Lines(s), s)
    decreases |s|
  {
    hide AllEnded, IsLine;
    if s == [] {
      NothingEnded();
    } else {
      var n := LineLength(s);
      var rest := Lines(s[n..]);
      FirstIsLine(s);
      LinesDivide(s[n..]);
      FirstByte(s[n..]);
      ConsEnded(s[..n], rest);
      FlattenCons(s[..n], rest);
    }
  }

  lemma NothingEnded()
    ensures AllEnded([])
  {}

  lemma FirstByte(s: Bytes)
    ensures s != [] ==> Lines(s) != [] && Lines(s)[0] != [] && Lines(s)[0][0] == s[0]
    ensures s == [] ==> Lines(s) == []
  {}

  /** There is only one division. */
  lemma {:induction false} DivisionUnique(lines: seq<Bytes>, s: Bytes)
    requires Division(lines, s)
    ensures lines == Lines(s)
    decreases |lines|
  {
    hide IsLine, LineLength;
    if lines != [] {
      var rest := Flatten(lines[1..]);
      LaterEnded(lines);
      FirstEndsThere(lines[0], rest);
      assert s[..|lines[0]|] == lines[0] && s[|lines[0]|..] == rest;
      DivisionUnique(lines[1..], rest);
      assert lines == [lines[0]] + lines[1..];
      assert s != [];
    }
  }

  lemma LaterEnded(lines: seq<Bytes>)
    requires AllEnded(lines) && lines != []
    ensures AllEnded(lines[1..]) && IsLine(lines[0]) && lines[0] != []
    ensures var rest := Flatten(lines[1..]); rest != [] ==> EndedBefore(lines[0], rest[0])
  {
    var later := lines[1..];
    forall i | 0 <= i < |later| - 1 ensures EndedBefore(later[i], later[i + 1][0]) {
      assert later[i] == lines[i + 1] && later[i + 1] == lines[i + 2];
    }
    if later != [] {
      assert later[0] == lines[1] && IsLine(later[0]);
      assert Flatten(later)[0] == later[0][0];
    }
  }

  // ---------------------------------------------------------------- the filter

  /** The position a record counts as: its own ordinal if it states one, else its physical position. */
  function Position(line: Bytes, physical: nat, json: Bytes -> Verdict): nat {
    match json(line)
    case Silent => physical
    case Ordinal(n) => n
  }

  predicate Within(ordinals: seq<nat>, low: nat, high: nat) {
    forall i :: 0 <= i < |ordinals| ==> low <= ordinals[i] < high
  }

  /** The lines at these physical positions, joined. */
  function Picked(lines: seq<Bytes>, offset: nat, ordinals: seq<nat>): Bytes
    requires Within(ordinals, offset, offset + |lines|)
  {
    if ordinals == [] then []
    else
      lines[ordinals[0] - offset] + Picked(lines, offset, ordinals[1..])
  }

  /** Kept are the very first line, and the lines whose own ordinal, else physical position, exceeds the cutoff. */
  lemma {:induction false} KeptExactly(lines: seq<Bytes>, offset: nat, cutoff: nat, json: Bytes -> Verdict, n: nat)
    ensures n in FilterLines(lines, offset, cutoff, json).ordinals <==>
      && offset <= n < offset + |lines|
      && (n == 0 || Position(lines[n - offset], n, json) > cutoff)
    decreases |lines|
  {
    if lines != [] {
      KeptExactly(lines[1..], offset + 1, cutoff, json, n);
    }
  }

  lemma {:induction false} PickedLater(lines: seq<Bytes>, offset: nat, ordinals: seq<nat>)
    requires lines != [] && Within(ordinals, offset + 1, offset + |lines|)
    ensures Picked(lines, offset, ordinals) == Picked(lines[1..], offset + 1, ordinals)
    decreases |ordinals|
  {
    if ordinals != [] {
      PickedLater(lines, offset, ordinals[1..]);
    }
  }

  lemma {:induction false} KeptWithin(lines: seq<Bytes>, offset: nat, cutoff: nat, json: Bytes -> Verdict)
    ensures Within(FilterLines(lines, offset, cutoff, json).ordinals, offset, offset + |lines|)
  {
    var ordinals := FilterLines(lines, offset, cutoff, json).ordinals;
    forall i | 0 <= i < |ordinals| ensures offset <= ordinals[i] < offset + |lines| {
      KeptExactly(lines, offset, cutoff, json, ordinals[i]);
    }
  }

  /** The content handed over is the kept lines, whole and in order. */
  lemma {:induction false} KeptContent(lines: seq<Bytes>, offset: nat, cutoff: nat, json: Bytes -> Verdict)
    ensures var r := FilterLines(lines, offset, cutoff, json);
            && Within(r.ordinals, offset, offset + |lines|)
            && r.content == Picked(lines, offset, r.ordinals)
    decreases |lines|
  {
    hide Picked;
    KeptWithin(lines, offset, cutoff, json);
    if lines == [] {
      PickedNone(lines, offset);
    } else {
      var rest := FilterLines(lines[1..], offset + 1, cutoff, json);
      KeptWithin(lines[1..], offset + 1, cutoff, json);
      KeptContent(lines[1..], offset + 1, cutoff, json);
      PickedLater(lines, offset, rest.ordinals);
      PickedFirst(lines, offset, rest.ordinals);
      assert [] + rest.ordinals == rest.ordinals && [] + rest.content == rest.content;
    }
  }

  lemma PickedNone(lines: seq<Bytes>, offset: nat)
    ensures Picked(lines, offset, []) == []
  {}

  lemma PickedFirst(lines: seq<Bytes>, offset: nat, ordinals: seq<nat>)
    requires lines != [] && Within(ordinals, offset, offset + |lines|)
    ensures Picked(lines, offset, [offset] + ordinals) == lines[0] + Picked(lines, offset, ordinals)
  {
    assert ([offset] + ordinals)[1..] == ordinals;
  }

  /** A sub-agent's content is filtered line by line; a root's is handed over whole, one position per newline. */
  lemma {:induction false} FilterExactly(kind: Kind, content: Bytes, offset: nat, json: Bytes -> Verdict, n: nat)
    ensures var r, lines := Filter(kind, content, offset, json), Lines(content);
            && Division(lines, content)
            && (kind.Subagent? ==>
                  (n in r.ordinals <==>
                     && offset <= n < offset + |lines|
                     && (n == 0 || Position(lines[n - offset], n, json) > kind.cutoff)))
            && (kind.Root? ==> r.content == content && (n in r.ordinals <==> offset <= n < offset + Count(content)))
  {
    hide Lines, FilterLines, Position;
    LinesDivide(content);
    if kind.Subagent? {
      KeptExactly(Lines(content), offset, kind.cutoff, json, n);
    } else if offset <= n < offset + Count(content) {
      assert Range(offset, Count(content))[n - offset] == n;
    }
  }

  /** The first line of a rollout is always kept, whatever position it states. */
  lemma {:induction false} FirstLineKept(content: Bytes, cutoff: nat, json: Bytes -> Verdict)
    requires content != []
    ensures 0 in Filter(Subagent(cutoff), content, 0, json).ordinals
  {
    KeptExactly(Lines(content), 0, cutoff, json, 0);
  }
}
