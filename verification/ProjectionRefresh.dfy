/** The incremental projection index as an object, and its refresh from a batch's touched keys. */
module ProjectionRefresh {
  import opened Wrappers
  import opened Tally
  import opened ProjectionIndex
  import opened TreapNodes

  // ---------------------------------------------------------------- totals from touched keys

  function RepeatContribution(count: nat): nat {
    if count > 1 then count else 0
  }

  function RevisitContribution(count: nat): nat {
    if count >= 2 then 1 else 0
  }

  /** The retained counts after the touched keys were read again. */
  function Merged(counts: map<string, nat>, touched: set<string>, current: map<string, nat>): map<string, nat> {
    map k | k in counts.Keys + touched :: if k in touched then Count(current, k) else counts[k]
  }

  /** Every key whose count changed was touched. */
  ghost predicate Covers(counts: map<string, nat>, touched: set<string>, current: map<string, nat>) {
    forall k :: k !in touched ==> Count(counts, k) == Count(current, k)
  }

  lemma MergedStep(counts: map<string, nat>, done: set<string>, k: string, current: map<string, nat>)
    requires k !in done
    ensures Merged(counts, done + {k}, current) == Merged(counts, done, current)[k := Count(current, k)]
    ensures Count(Merged(counts, done, current), k) == Count(counts, k)
  {}

  lemma MergedNothing(counts: map<string, nat>, current: map<string, nat>)
    ensures Merged(counts, {}, current) == counts
  {}

  lemma MergedAll(counts: map<string, nat>)
    ensures Merged(map[], counts.Keys, counts) == counts
  {}

  lemma {:induction false} CoveredTotal(
    counts: map<string, nat>, touched: set<string>, current: map<string, nat>, g: nat -> nat
  )
    requires Covers(counts, touched, current) && g(0) == 0
    ensures Total(Merged(counts, touched, current), g) == Total(current, g)
  {
    var merged := Merged(counts, touched, current);
    forall k ensures Count(merged, k) == Count(current, k) {
      if k !in touched {
        assert Count(counts, k) == Count(current, k);
      }
    }
    TotalAgrees(merged, current, g);
  }

  /**
   The loops over touched command hashes and touched path hashes. The total always matches the
   retained counts; when the touched keys cover every change it is the total of the current counts.
   */
  method RefreshTotal(
    total: int, counts: map<string, nat>, touched: set<string>, current: map<string, nat>, g: nat -> nat
  ) returns (newTotal: int, newCounts: map<string, nat>)
    requires total == Total(counts, g) && g(0) == 0
    ensures newCounts == Merged(counts, touched, current) && newTotal == Total(newCounts, g)
    ensures Covers(counts, touched, current) ==> newTotal == Total(current, g)
  {
    hide Merged, Total;
    newTotal, newCounts := total, counts;
    var rest := touched;
    MergedNothing(counts, current);
    assert touched - rest == {};
    while rest != {}
      invariant rest <= touched
      invariant newCounts == Merged(counts, touched - rest, current) && newTotal == Total(newCounts, g)
      decreases rest
    {
      var k :| k in rest;
      assert touched - (rest - {k}) == touched - rest + {k};
      MergedStep(counts, touched - rest, k, current);
      TotalUpdate(newCounts, g, k, Count(current, k));
      var previous := if k in newCounts then newCounts[k] else 0;
      var now := Count(current, k);
      newTotal := newTotal + g(now) - g(previous);
      newCounts := newCounts[k := now];
      rest := rest - {k};
    }
    assert touched - rest == touched;
    if Covers(counts, touched, current) {
      CoveredTotal(counts, touched, current, g);
    }
  }

  // ---------------------------------------------------------------- tools

  datatype ToolKey = ToolKey(thread: string, call: string)

  function ToolName(name: string): Option<string> {
    Some(name)
  }

  /** Requests once seen keep their name; touched new ones are added. */
  function ToolsSeen(
    seen: map<ToolKey, string>, touched: set<ToolKey>, requests: map<ToolKey, string>
  ): map<ToolKey, string>
  {
    map k | k in seen.Keys + requests.Keys && (k in seen || k in touched) :: if k in seen then seen[k] else requests[k]
  }

  lemma ToolsSeenStep(seen: map<ToolKey, string>, done: set<ToolKey>, k: ToolKey, requests: map<ToolKey, string>)
    requires k !in done
    ensures var s := ToolsSeen(seen, done, requests);
            && (k in s <==> k in seen)
            && ToolsSeen(seen, done + {k}, requests) == if k !in s && k in requests then s[k := requests[k]] else s
  {}

  lemma ToolsSeenNothing(seen: map<ToolKey, string>, requests: map<ToolKey, string>)
    ensures ToolsSeen(seen, {}, requests) == seen
  {}

  /** No request was renamed or withdrawn, and every new one was touched. */
  predicate ToolsCovered(seen: map<ToolKey, string>, touched: set<ToolKey>, requests: map<ToolKey, string>) {
    && (forall k :: k in seen ==> k in requests && requests[k] == seen[k])
    && (forall k :: k in requests ==> k in seen || k in touched)
  }

  /** The named tools stay an exact tally of the requests seen. */
  method RefreshTools(
    seen: map<ToolKey, string>, names: map<string, int>, paired: set<ToolKey>, touched: set<ToolKey>,
    requests: map<ToolKey, string>, outputs: set<ToolKey>
  ) returns (newSeen: map<ToolKey, string>, newNames: map<string, int>, newPaired: set<ToolKey>)
    requires CounterExact(names, seen, ToolName)
    ensures newSeen == ToolsSeen(seen, touched, requests) && CounterExact(newNames, newSeen, ToolName)
    ensures newPaired == paired + touched * requests.Keys * outputs
    ensures ToolsCovered(seen, touched, requests) ==> newSeen == requests
  {
    hide ToolsSeen, CounterExact, Adjusted;
    newSeen, newNames, newPaired := seen, names, paired;
    var rest := touched;
    ToolsSeenNothing(seen, requests);
    assert touched - rest == {};
    while rest != {}
      invariant rest <= touched
      invariant newSeen == ToolsSeen(seen, touched - rest, requests) && CounterExact(newNames, newSeen, ToolName)
      invariant newPaired == paired + (touched - rest) * requests.Keys * outputs
      decreases rest
    {
      var k :| k in rest;
      assert touched - (rest - {k}) == touched - rest + {k};
      ToolsSeenStep(seen, touched - rest, k, requests);
      if k !in newSeen && k in requests {
        CounterReplace(newNames, newSeen, ToolName, k, requests[k]);
        newNames := Adjusted(newNames, Some(requests[k]), 1);
        newSeen := newSeen[k := requests[k]];
      }
      if k !in newPaired && k in requests && k in outputs {
        newPaired := newPaired + {k};
      }
      rest := rest - {k};
    }
    assert touched - rest == touched;
    SeenAll(seen, touched, requests);
  }

  lemma SeenAll(seen: map<ToolKey, string>, touched: set<ToolKey>, requests: map<ToolKey, string>)
    ensures ToolsCovered(seen, touched, requests) ==> ToolsSeen(seen, touched, requests) == requests
  {
    if ToolsCovered(seen, touched, requests) {
      var s := ToolsSeen(seen, touched, requests);
      assert forall k :: k in s <==> k in requests;
      assert s == requests;
    }
  }

  // ---------------------------------------------------------------- appended observations

  /** Only the observations after the first `count` are added. */
  method ExtendDistribution(tree: OrderStatisticMultiset, list: seq<int>, count: nat)
    requires tree.Valid() && count <= |list| && tree.contents == multiset(list[..count])
    modifies tree.repr
    ensures tree.Valid() && fresh(tree.repr - old(tree.repr))
    ensures tree.contents == multiset(list)
  {
    assert list == list[..count] + list[count..];
    tree.AddAll(list[count..]);
  }

  predicate HighWater(mark: real, list: seq<real>) {
    mark >= 0.0 && (forall i :: 0 <= i < |list| ==> list[i] <= mark)
    && (mark == 0.0 || exists i :: 0 <= i < |list| && list[i] == mark)
  }

  method RaiseHighWater(mark: real, list: seq<real>, count: nat) returns (r: real)
    requires count <= |list| && HighWater(mark, list[..count])
    ensures HighWater(r, list)
  {
    r := mark;
    for i := count to |list|
      invariant HighWater(r, list[..i])
    {
      assert list[..i + 1] == list[..i] + [list[i]];
      if list[i] > r {
        assert list[..i + 1][i] == list[i];
        r := list[i];
      } else if r != 0.0 {
        var j :| 0 <= j < i && list[..i][j] == r;
        assert list[..i + 1][j] == r;
      }
    }
    assert list[..|list|] == list;
  }

  // ---------------------------------------------------------------- six trees side by side

  /** Within `repr` each tree is sound and shares no node with another. */
  ghost predicate Separate(trees: seq<OrderStatisticMultiset>, repr: set<object>)
    reads trees, repr
  {
    && (forall i :: 0 <= i < |trees| ==> trees[i] in trees[i].repr && trees[i].repr <= repr && trees[i].Valid())
    && (forall i, j :: 0 <= i < j < |trees| ==> trees[i].repr !! trees[j].repr)
  }

  ghost function Bags(trees: seq<OrderStatisticMultiset>): (bags: seq<multiset<int>>)
    reads trees
    ensures |bags| == |trees| && forall i :: 0 <= i < |trees| ==> bags[i] == trees[i].contents
  {
    seq(|trees|, i requires 0 <= i < |trees| reads trees => trees[i].contents)
  }

  /** One value in or out of one tree; an absent value changes nothing. The discard never fails. */
  method AdjustDistribution(tree: OrderStatisticMultiset, x: Option<int>, direction: int)
    requires tree.Valid() && (direction > 0 || Given(x) <= tree.contents)
    modifies tree.repr
    ensures tree.Valid() && fresh(tree.repr - old(tree.repr))
    ensures tree.contents == Moved(old(tree.contents), x, direction)
  {
    if x.None? {
      return;
    }
    if direction > 0 {
      tree.Add(x.value);
    } else {
      assert x.value in tree.contents;
      var ok := tree.Discard(x.value);
      assert ok;
    }
  }

  /** Adjusting one of the trees leaves the others as they were, and all of them apart. */
  method AdjustOne(
    trees: seq<OrderStatisticMultiset>, k: nat, x: Option<int>, direction: int, ghost repr: set<object>
  ) returns (ghost grown: set<object>)
    requires Separate(trees, repr) && k < |trees| && (direction > 0 || Given(x) <= trees[k].contents)
    modifies trees[k].repr
    ensures Separate(trees, grown) && repr <= grown && fresh(grown - repr)
    ensures trees[k].contents == Moved(old(trees[k].contents), x, direction)
    ensures forall i :: 0 <= i < |trees| && i != k ==> trees[i].contents == old(trees[i].contents)
  {
    hide Moved, Given, OrderStatisticMultiset.Valid;
    assert forall i :: 0 <= i < |trees| && i != k ==> trees[i].repr !! trees[k].repr;
    AdjustDistribution(trees[k], x, direction);
    grown := repr + trees[k].repr;
    assert forall i :: 0 <= i < |trees| && i != k ==> trees[i].repr == old(trees[i].repr) && trees[i].Valid();
  }

  method AdjustTrees(
    trees: seq<OrderStatisticMultiset>, values: seq<Option<int>>, direction: int, ghost repr: set<object>
  ) returns (ghost grown: set<object>)
    requires Separate(trees, repr) && |values| == |trees|
    requires direction > 0 || forall i :: 0 <= i < |trees| ==> Given(values[i]) <= trees[i].contents
    modifies repr
    ensures Separate(trees, grown) && repr <= grown && fresh(grown - repr)
    ensures forall i :: 0 <= i < |trees| ==> trees[i].contents == Moved(old(trees[i].contents), values[i], direction)
  {
    hide Moved, Given, OrderStatisticMultiset.Valid;
    grown := repr;
    for k := 0 to |trees|
      invariant Separate(trees, grown) && repr <= grown && fresh(grown - repr)
      invariant forall i :: 0 <= i < k ==> trees[i].contents == Moved(old(trees[i].contents), values[i], direction)
      invariant forall i :: k <= i < |trees| ==> trees[i].contents == old(trees[i].contents)
    {
      grown := AdjustOne(trees, k, values[k], direction, grown);
    }
  }

  // ---------------------------------------------------------------- the index

  /** The turn's value for each of the six distributions, in the order of the index's trees. */
  function DistributionValues(t: Turn): seq<Option<int>> {
    [CompletedDuration(t), CompletedFirstToken(t), TokensOf(t), CommandsOf(t), ToolsOf(t), FilesOf(t)]
  }

  /** The analyzer's own counts of commands and paths, its tool requests, and the requests answered. */
  datatype Ledgers = Ledgers(
    commands: map<string, nat>, paths: map<string, nat>, requests: map<ToolKey, string>, outputs: set<ToolKey>)

  class IncrementalProjectionIndex {
    var turns: Turns
    var outcomes: map<string, int>
    var workspaces: map<string, int>
    var models: map<string, int>
    var efforts: map<string, int>
    var hours: map<int, int>
    var tallies: Tallies
    /** Completed durations, first tokens, turn tokens, commands, tools and files per turn. */
    const trees: seq<OrderStatisticMultiset>
    var commandCounts: map<string, nat>
    var repeatedCommands: int
    var pathCounts: map<string, nat>
    var revisitedPaths: int
    var toolRequests: map<ToolKey, string>
    var toolNames: map<string, int>
    var pairedTools: set<ToolKey>
    ghost var repr: set<object>

    function CounterModel(): Counters
      reads this
    {
      Counters(outcomes, workspaces, models, efforts, hours)
    }

    ghost function DistributionModel(): Distributions
      reads this, trees
      requires |trees| == 6
    {
      Distributions(trees[0].contents, trees[1].contents, trees[2].contents, trees[3].contents, trees[4].contents,
                    trees[5].contents)
    }

    ghost function Model(): Index
      reads this, trees
      requires |trees| == 6
    {
      Index(turns, CounterModel(), tallies, DistributionModel())
    }

    /** The six trees are sound and apart, and every aggregate equals its recomputation. */
    ghost predicate Valid()
      reads this, trees, repr
    {
      |trees| == 6 && this !in repr && Separate(trees, repr) && Exact(Model())
    }

    /** The totals kept from touched keys match the retained counts and requests. */
    ghost predicate LedgersExact()
      reads this
    {
      && repeatedCommands == Total(commandCounts, RepeatContribution)
      && revisitedPaths == Total(pathCounts, RevisitContribution)
      && CounterExact(toolNames, toolRequests, ToolName)
    }

    /** The index of what the analyzer has seen so far, over trees that are its own. */
    constructor (priorityOf: int -> int, seen: seq<Turn>, ledgers: Ledgers)
      ensures Valid() && LedgersExact() && fresh(repr) && Model() == ReplacedAll(EMPTY, seen)
      ensures commandCounts == ledgers.commands && pathCounts == ledgers.paths && toolRequests == ledgers.requests
      ensures pairedTools == ledgers.requests.Keys * ledgers.outputs
    {
      hide Exact, Separate, ReplacedAll, Total, CounterExact;
      var forest;
      ghost var nodes;
      forest, nodes := PlantTrees(priorityOf);
      turns, outcomes, workspaces, models, efforts, hours := map[], map[], map[], map[], map[], map[];
      tallies := Tallies(0, 0, 0, 0, 0, 0, 0);
      trees := forest;
      commandCounts, repeatedCommands, pathCounts, revisitedPaths := map[], 0, map[], 0;
      toolRequests, toolNames, pairedTools := map[], map[], {};
      repr := nodes;
      new;
      EmptyExact();
      EmptyLedgers();
      Load(seen, ledgers);
    }

    method Load(seen: seq<Turn>, ledgers: Ledgers)
      requires Valid() && Model() == EMPTY
      requires LedgersExact() && commandCounts == map[] && pathCounts == map[] && toolRequests == map[]
      requires pairedTools == {}
      modifies this, repr
      ensures Valid() && LedgersExact() && fresh(repr - old(repr)) && Model() == ReplacedAll(EMPTY, seen)
      ensures commandCounts == ledgers.commands && pathCounts == ledgers.paths && toolRequests == ledgers.requests
      ensures pairedTools == ledgers.requests.Keys * ledgers.outputs
    {
      hide Exact, Separate, ReplacedAll, Total, CounterExact;
      LoadLedgers(ledgers);
      ReplaceTurns(seen);
    }

    /** Into empty ledgers every key counts as touched. */
    method LoadLedgers(ledgers: Ledgers)
      requires LedgersExact() && commandCounts == map[] && pathCounts == map[] && toolRequests == map[]
      requires pairedTools == {}
      modifies this`commandCounts, this`repeatedCommands, this`pathCounts, this`revisitedPaths, this`toolRequests,
        this`toolNames, this`pairedTools
      ensures LedgersExact()
      ensures commandCounts == ledgers.commands && pathCounts == ledgers.paths && toolRequests == ledgers.requests
      ensures pairedTools == ledgers.requests.Keys * ledgers.outputs
    {
      hide LedgersExact, Merged;
      MergedAll(ledgers.commands);
      MergedAll(ledgers.paths);
      RefreshRepeatedCommands(ledgers.commands.Keys, ledgers.commands);
      RefreshRevisitedPaths(ledgers.paths.Keys, ledgers.paths);
      RefreshToolRequests(ledgers.requests.Keys, ledgers.requests, ledgers.outputs);
    }

    method AdjustCounters(t: Turn, direction: int)
      modifies this`outcomes, this`workspaces, this`models, this`efforts, this`hours
      ensures CounterModel() == CountersWith(old(CounterModel()), t, direction)
    {
      hide AdjustedCounter;
      outcomes := AdjustedCounter(outcomes, t.outcome, direction);
      if t.workspace.Some? {
        workspaces := AdjustedCounter(workspaces, t.workspace.value, direction);
      }
      if t.model.Some? {
        models := AdjustedCounter(models, t.model.value, direction);
      }
      if t.effort.Some? {
        efforts := AdjustedCounter(efforts, t.effort.value, direction);
      }
      if t.hour.Some? {
        hours := AdjustedCounter(hours, t.hour.value, direction);
      }
    }

    method AdjustTallies(t: Turn, direction: int)
      modifies this`tallies
      ensures tallies == TalliesWith(old(tallies), t, direction)
    {
      var failed := AnyFailedCommand(t.named);
      tallies := Tallies(
        tallies.handsOn + direction * One(t.handsOn), tallies.failedCommand + direction * One(failed),
        tallies.recovered + direction * One(t.recovered), tallies.edited + direction * One(t.fileOperations > 0),
        tallies.verified + direction * One(t.editedThenVerified), tallies.web + direction * One(t.webOperations > 0),
        tallies.webFollowed + direction * One(t.webFollowed));
    }

    /** A turn is taken out of the trees only where all its values are present, so no discard fails. */
    method AdjustDistributions(t: Turn, direction: int)
      requires |trees| == 6 && this !in repr && Separate(trees, repr)
      requires direction > 0 || CanDiscard(DistributionModel(), t)
      modifies this`repr, repr
      ensures this !in repr && Separate(trees, repr) && fresh(repr - old(repr))
      ensures DistributionModel() == DistributionsWith(old(DistributionModel()), t, direction)
    {
      hide Given, Moved, Separate;
      var ended := t.outcome == "completed";
      var values := [if ended then t.duration else None, if ended then t.firstToken else None, t.tokens,
                     Some(t.commands), Some(t.tools), Some(t.files)];
      assert values == DistributionValues(t);
      repr := AdjustTrees(trees, values, direction, repr);
    }

    method AdjustTurn(t: Turn, direction: int)
      requires |trees| == 6 && this !in repr && Separate(trees, repr)
      requires direction > 0 || CanDiscard(DistributionModel(), t)
      modifies this`outcomes, this`workspaces, this`models, this`efforts, this`hours, this`tallies, this`repr, repr
      ensures this !in repr && Separate(trees, repr) && fresh(repr - old(repr))
      ensures CounterModel() == CountersWith(old(CounterModel()), t, direction)
      ensures tallies == TalliesWith(old(tallies), t, direction)
      ensures DistributionModel() == DistributionsWith(old(DistributionModel()), t, direction)
    {
      hide CountersWith, TalliesWith, DistributionsWith, Separate;
      AdjustDistributions(t, direction);
      AdjustCounters(t, direction);
      AdjustTallies(t, direction);
    }

    method ReplaceTurn(t: Turn)
      requires Valid()
      modifies this`turns, this`outcomes, this`workspaces, this`models, this`efforts, this`hours, this`tallies,
        this`repr, repr
      ensures Valid() && fresh(repr - old(repr)) && Model() == Replaced(old(Model()), t)
    {
      hide Exact, CountersWith, TalliesWith, DistributionsWith, CanDiscard, Separate;
      ReplacedExact(Model(), t);
      if t.key in turns {
        AdjustTurn(turns[t.key], -1);
      }
      turns := turns[t.key := t];
      AdjustTurn(t, 1);
    }

    method ReplaceTurns(ts: seq<Turn>)
      requires Valid()
      modifies this`turns, this`outcomes, this`workspaces, this`models, this`efforts, this`hours, this`tallies,
        this`repr, repr
      ensures Valid() && fresh(repr - old(repr)) && Model() == ReplacedAll(old(Model()), ts)
    {
      hide Exact, Replaced, Separate;
      assert ts[0..] == ts;
      for i := 0 to |ts|
        invariant Valid() && fresh(repr - old(repr)) && ReplacedAll(Model(), ts[i..]) == ReplacedAll(old(Model()), ts)
      {
        assert ts[i..][1..] == ts[i + 1..];
        ReplaceTurn(ts[i]);
      }
    }

    /** Commands that ran more than once, from the touched command hashes. */
    method RefreshRepeatedCommands(touched: set<string>, current: map<string, nat>)
      requires LedgersExact()
      modifies this`commandCounts, this`repeatedCommands
      ensures LedgersExact() && commandCounts == Merged(old(commandCounts), touched, current)
      ensures Covers(old(commandCounts), touched, current) ==> repeatedCommands == Total(current, RepeatContribution)
    {
      hide Merged, Total, CounterExact;
      repeatedCommands, commandCounts :=
        RefreshTotal(repeatedCommands, commandCounts, touched, current, RepeatContribution);
    }

    /** Paths that were operated on at least twice, from the touched path hashes. */
    method RefreshRevisitedPaths(touched: set<string>, current: map<string, nat>)
      requires LedgersExact()
      modifies this`pathCounts, this`revisitedPaths
      ensures LedgersExact() && pathCounts == Merged(old(pathCounts), touched, current)
      ensures Covers(old(pathCounts), touched, current) ==> revisitedPaths == Total(current, RevisitContribution)
    {
      hide Merged, Total, CounterExact;
      revisitedPaths, pathCounts := RefreshTotal(revisitedPaths, pathCounts, touched, current, RevisitContribution);
    }

    method RefreshToolRequests(touched: set<ToolKey>, requests: map<ToolKey, string>, outputs: set<ToolKey>)
      requires LedgersExact()
      modifies this`toolRequests, this`toolNames, this`pairedTools
      ensures LedgersExact() && toolRequests == ToolsSeen(old(toolRequests), touched, requests)
      ensures pairedTools == old(pairedTools) + touched * requests.Keys * outputs
      ensures ToolsCovered(old(toolRequests), touched, requests) ==> toolRequests == requests
    {
      hide Total, CounterExact, ToolsSeen, ToolsCovered;
      toolRequests, toolNames, pairedTools :=
        RefreshTools(toolRequests, toolNames, pairedTools, touched, requests, outputs);
    }
  }

  /** Six empty trees, each with nodes of its own. */
  method PlantTrees(priorityOf: int -> int) returns (trees: seq<OrderStatisticMultiset>, ghost repr: set<object>)
    ensures |trees| == 6 && forall i :: 0 <= i < 6 ==> trees[i].contents == multiset{}
    ensures Separate(trees, repr) && fresh(repr)
  {
    trees, repr := [], {};
    for i := 0 to 6
      invariant |trees| == i && Separate(trees, repr) && fresh(repr)
      invariant forall j :: 0 <= j < i ==> trees[j].contents == multiset{}
    {
      trees, repr := PlantTree(trees, priorityOf, repr);
    }
  }

  method PlantTree(trees: seq<OrderStatisticMultiset>, priorityOf: int -> int, ghost repr: set<object>)
    returns (more: seq<OrderStatisticMultiset>, ghost grown: set<object>)
    requires Separate(trees, repr)
    ensures |more| == |trees| + 1 && trees <= more && more[|trees|].contents == multiset{}
    ensures Separate(more, grown) && repr <= grown && fresh(grown - repr)
  {
    var tree := new OrderStatisticMultiset(priorityOf, []);
    assert tree in tree.repr && tree.Valid() && tree.contents == multiset{};
    hide OrderStatisticMultiset.Valid;
    more, grown := trees + [tree], repr + tree.repr;
    assert forall i :: 0 <= i < |trees| ==> trees[i].Valid() && trees[i].repr !! tree.repr;
  }

  lemma EmptyLedgers()
    ensures Total(map[], RepeatContribution) == 0 && Total(map[], RevisitContribution) == 0
    ensures CounterExact<ToolKey, string, string>(map[], map[], ToolName)
  {
    assert forall x :: Holders<ToolKey, string, string>(map[], ToolName, x) == {};
  }

  method AnyFailedCommand(named: seq<NamedCount>) returns (failed: bool)
    ensures failed == HasFailedCommand(named)
  {
    for i := 0 to |named|
      invariant forall j :: 0 <= j < i ==>
        !(named[j].kind == "command_exit_status" && named[j].name == "nonzero_exit" && named[j].occurrences > 0)
    {
      if named[i].kind == "command_exit_status" && named[i].name == "nonzero_exit" && named[i].occurrences > 0 {
        return true;
      }
    }
    return false;
  }
}
