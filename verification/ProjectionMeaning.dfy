/** What each aggregate of the projection index counts, in terms of the turns themselves. */
module ProjectionMeaning {
  import opened Wrappers
  import opened Tally
  import opened ProjectionIndex
  import opened ProjectionRefresh

  /** Every counter entry is the number of turns with that outcome, workspace, model, effort or hour. */
  lemma {:induction false} CountersMean(i: Index, x: string, hour: int)
    requires Exact(i)
    ensures Get(i.counters.outcomes, x) == |set k | k in i.turns && i.turns[k].outcome == x|
    ensures Get(i.counters.workspaces, x) == |set k | k in i.turns && i.turns[k].workspace == Some(x)|
    ensures Get(i.counters.models, x) == |set k | k in i.turns && i.turns[k].model == Some(x)|
    ensures Get(i.counters.efforts, x) == |set k | k in i.turns && i.turns[k].effort == Some(x)|
    ensures Get(i.counters.hours, hour) == |set k | k in i.turns && i.turns[k].hour == Some(hour)|
  {
    hide TalliesExact, DistributionsExact;
    var ts := i.turns;
    assert Holders(ts, OutcomeOf, x) == set k | k in ts && ts[k].outcome == x;
    assert Holders(ts, WorkspaceOf, x) == set k | k in ts && ts[k].workspace == Some(x);
    assert Holders(ts, ModelOf, x) == set k | k in ts && ts[k].model == Some(x);
    assert Holders(ts, EffortOf, x) == set k | k in ts && ts[k].effort == Some(x);
    assert Holders(ts, HourOf, hour) == set k | k in ts && ts[k].hour == Some(hour);
  }

  /** A turn in which some command exited with a failure. */
  predicate FailedSomewhere(t: Turn) {
    exists n :: n in t.named && n.kind == "command_exit_status" && n.name == "nonzero_exit" && n.occurrences > 0
  }

  lemma FailedMeans(t: Turn)
    ensures HasFailedCommand(t.named) <==> FailedSomewhere(t)
  {
    if HasFailedCommand(t.named) {
      var i :| 0 <= i < |t.named| && t.named[i].kind == "command_exit_status" && t.named[i].name == "nonzero_exit"
               && t.named[i].occurrences > 0;
      assert t.named[i] in t.named;
    }
  }

  /** Turns with a failed command are counted, each once. */
  lemma {:induction false} FailedCommandsMean(i: Index)
    requires Exact(i)
    ensures i.tallies.failedCommand == |set k | k in i.turns && FailedSomewhere(i.turns[k])|
  {
    hide CountersExact, DistributionsExact, HasFailedCommand, FailedSomewhere;
    var ts := i.turns;
    forall k | k in ts ensures HasFailedCommand(ts[k].named) <==> FailedSomewhere(ts[k]) {
      FailedMeans(ts[k]);
    }
    assert Holders(ts, FailedCommand, true) == set k | k in ts && FailedSomewhere(ts[k]);
  }

  /** So is every turn that was hands-on, recovered or edited files. */
  lemma {:induction false} TalliesMean(i: Index)
    requires Exact(i)
    ensures i.tallies.handsOn == |set k | k in i.turns && i.turns[k].handsOn|
    ensures i.tallies.recovered == |set k | k in i.turns && i.turns[k].recovered|
    ensures i.tallies.edited == |set k | k in i.turns && i.turns[k].fileOperations > 0|
  {
    hide CountersExact, DistributionsExact;
    var ts := i.turns;
    assert Holders(ts, HandsOn, true) == set k | k in ts && ts[k].handsOn;
    assert Holders(ts, RecoveredTurn, true) == set k | k in ts && ts[k].recovered;
    assert Holders(ts, Edited, true) == set k | k in ts && ts[k].fileOperations > 0;
  }

  /** So is every turn that verified its edits, used the web, or followed it up. */
  lemma {:induction false} FollowUpsMean(i: Index)
    requires Exact(i)
    ensures i.tallies.verified == |set k | k in i.turns && i.turns[k].editedThenVerified|
    ensures i.tallies.web == |set k | k in i.turns && i.turns[k].webOperations > 0|
    ensures i.tallies.webFollowed == |set k | k in i.turns && i.turns[k].webFollowed|
  {
    hide CountersExact, DistributionsExact;
    var ts := i.turns;
    assert Holders(ts, Verified, true) == set k | k in ts && ts[k].editedThenVerified;
    assert Holders(ts, UsedWeb, true) == set k | k in ts && ts[k].webOperations > 0;
    assert Holders(ts, FollowedWeb, true) == set k | k in ts && ts[k].webFollowed;
  }

  /** Durations and times to the first token are those of the completed turns alone, each as often as it occurs. */
  lemma {:induction false} DurationsMean(i: Index, x: int)
    requires Exact(i)
    ensures i.distributions.durations[x]
         == |set k | k in i.turns && i.turns[k].outcome == "completed" && i.turns[k].duration == Some(x)|
    ensures i.distributions.firstTokens[x]
         == |set k | k in i.turns && i.turns[k].outcome == "completed" && i.turns[k].firstToken == Some(x)|
  {
    hide CountersExact, TalliesExact;
    var ts := i.turns;
    assert Holders(ts, CompletedDuration, x)
        == set k | k in ts && ts[k].outcome == "completed" && ts[k].duration == Some(x);
    assert Holders(ts, CompletedFirstToken, x)
        == set k | k in ts && ts[k].outcome == "completed" && ts[k].firstToken == Some(x);
  }

  /** Tokens, commands, tools and files are those of every turn. */
  lemma {:induction false} PerTurnMean(i: Index, x: int)
    requires Exact(i)
    ensures i.distributions.tokens[x] == |set k | k in i.turns && i.turns[k].tokens == Some(x)|
    ensures i.distributions.commands[x] == |set k | k in i.turns && i.turns[k].commands == x|
    ensures i.distributions.tools[x] == |set k | k in i.turns && i.turns[k].tools == x|
    ensures i.distributions.files[x] == |set k | k in i.turns && i.turns[k].files == x|
  {
    hide CountersExact, TalliesExact;
    var ts := i.turns;
    assert Holders(ts, TokensOf, x) == set k | k in ts && ts[k].tokens == Some(x);
    assert Holders(ts, CommandsOf, x) == set k | k in ts && ts[k].commands == x;
    assert Holders(ts, ToolsOf, x) == set k | k in ts && ts[k].tools == x;
    assert Holders(ts, FilesOf, x) == set k | k in ts && ts[k].files == x;
  }

  // ---------------------------------------------------------------- totals

  function AtLeastTwo(m: map<string, nat>): set<string> {
    set k | k in m && m[k] >= 2
  }

  function ExactlyOnce(m: map<string, nat>): set<string> {
    set k | k in m && m[k] == 1
  }

  /** The total of revisited paths counts the paths operated on at least twice. */
  lemma {:induction false} RevisitedMeans(m: map<string, nat>)
    ensures Total(m, RevisitContribution) == |AtLeastTwo(m)|
    decreases |m|
  {
    if m == map[] {
      assert AtLeastTwo(m) == {};
    } else {
      var k :| k in m;
      TotalWithout(m, RevisitContribution, k);
      RevisitedMeans(m - {k});
      assert AtLeastTwo(m) - {k} == AtLeastTwo(m - {k});
      SizeSplit(AtLeastTwo(m), k);
    }
  }

  function All(count: nat): nat {
    count
  }

  /** The total of repeated commands counts every execution but those of commands that ran once. */
  lemma {:induction false} RepeatedMeans(m: map<string, nat>)
    ensures Total(m, RepeatContribution) + |ExactlyOnce(m)| == Total(m, All)
    decreases |m|
  {
    if m == map[] {
      assert ExactlyOnce(m) == {};
    } else {
      var k :| k in m;
      TotalWithout(m, RepeatContribution, k);
      TotalWithout(m, All, k);
      RepeatedMeans(m - {k});
      assert ExactlyOnce(m) - {k} == ExactlyOnce(m - {k});
      SizeSplit(ExactlyOnce(m), k);
    }
  }
}
