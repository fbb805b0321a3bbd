/**
 The incremental projection index: counters, tallies and distributions kept by taking a turn's old
 contribution out and putting its new one in, and totals kept from touched keys only.

 A distribution is the multiset of its values, which the order-statistic tree represents.
 */
module ProjectionIndex {
  import opened Wrappers
  import opened Tally

  datatype TurnKey = TurnKey(thread: string, turn: string)

  datatype NamedCount = NamedCount(kind: string, name: string, occurrences: int)

  datatype Turn = Turn(
    key: TurnKey, outcome: string, workspace: Option<string>, model: Option<string>, effort: Option<string>,
    hour: Option<int>, handsOn: bool, named: seq<NamedCount>, recovered: bool, fileOperations: int,
    editedThenVerified: bool, webOperations: int, webFollowed: bool, duration: Option<int>, firstToken: Option<int>,
    tokens: Option<int>, commands: int, tools: int, files: int)

  // ---------------------------------------------------------------- the features of a turn

  predicate HasFailedCommand(named: seq<NamedCount>) {
    exists i :: 0 <= i < |named| && named[i].kind == "command_exit_status" && named[i].name == "nonzero_exit"
      && named[i].occurrences > 0
  }

  function Flag(b: bool): Option<bool> {
    if b then Some(true) else None
  }

  function OutcomeOf(t: Turn): Option<string> { Some(t.outcome) }
  function WorkspaceOf(t: Turn): Option<string> { t.workspace }
  function ModelOf(t: Turn): Option<string> { t.model }
  function EffortOf(t: Turn): Option<string> { t.effort }
  function HourOf(t: Turn): Option<int> { t.hour }
  function HandsOn(t: Turn): Option<bool> { Flag(t.handsOn) }
  function FailedCommand(t: Turn): Option<bool> { Flag(HasFailedCommand(t.named)) }
  function RecoveredTurn(t: Turn): Option<bool> { Flag(t.recovered) }
  function Edited(t: Turn): Option<bool> { Flag(t.fileOperations > 0) }
  function Verified(t: Turn): Option<bool> { Flag(t.editedThenVerified) }
  function UsedWeb(t: Turn): Option<bool> { Flag(t.webOperations > 0) }
  function FollowedWeb(t: Turn): Option<bool> { Flag(t.webFollowed) }
  function CompletedDuration(t: Turn): Option<int> { if t.outcome == "completed" then t.duration else None }
  function CompletedFirstToken(t: Turn): Option<int> { if t.outcome == "completed" then t.firstToken else None }
  function TokensOf(t: Turn): Option<int> { t.tokens }
  function CommandsOf(t: Turn): Option<int> { Some(t.commands) }
  function ToolsOf(t: Turn): Option<int> { Some(t.tools) }
  function FilesOf(t: Turn): Option<int> { Some(t.files) }

  datatype Counters = Counters(
    outcomes: map<string, int>, workspaces: map<string, int>, models: map<string, int>, efforts: map<string, int>,
    hours: map<int, int>)

  datatype Tallies = Tallies(
    handsOn: int, failedCommand: int, recovered: int, edited: int, verified: int, web: int, webFollowed: int)

  datatype Distributions = Distributions(
    durations: multiset<int>, firstTokens: multiset<int>, tokens: multiset<int>, commands: multiset<int>,
    tools: multiset<int>, files: multiset<int>)

  type Turns = map<TurnKey, Turn>

  // ---------------------------------------------------------------- recomputation

  ghost predicate CountersExact(c: Counters, turns: Turns) {
    && CounterExact(c.outcomes, turns, OutcomeOf) && CounterExact(c.workspaces, turns, WorkspaceOf)
    && CounterExact(c.models, turns, ModelOf) && CounterExact(c.efforts, turns, EffortOf)
    && CounterExact(c.hours, turns, HourOf)
  }

  /** How many turns have the flag. */
  function Having(turns: Turns, f: Turn -> Option<bool>): nat {
    |Holders(turns, f, true)|
  }

  predicate TalliesExact(s: Tallies, turns: Turns) {
    && s.handsOn == Having(turns, HandsOn) && s.failedCommand == Having(turns, FailedCommand)
    && s.recovered == Having(turns, RecoveredTurn) && s.edited == Having(turns, Edited)
    && s.verified == Having(turns, Verified) && s.web == Having(turns, UsedWeb)
    && s.webFollowed == Having(turns, FollowedWeb)
  }

  ghost predicate DistributionsExact(d: Distributions, turns: Turns) {
    && DistributionExact(d.durations, turns, CompletedDuration)
    && DistributionExact(d.firstTokens, turns, CompletedFirstToken)
    && DistributionExact(d.tokens, turns, TokensOf) && DistributionExact(d.commands, turns, CommandsOf)
    && DistributionExact(d.tools, turns, ToolsOf) && DistributionExact(d.files, turns, FilesOf)
  }

  // ---------------------------------------------------------------- one turn in or out

  function CountersWith(c: Counters, t: Turn, direction: int): Counters {
    Counters(Adjusted(c.outcomes, OutcomeOf(t), direction), Adjusted(c.workspaces, WorkspaceOf(t), direction),
             Adjusted(c.models, ModelOf(t), direction), Adjusted(c.efforts, EffortOf(t), direction),
             Adjusted(c.hours, HourOf(t), direction))
  }

  function TalliesWith(s: Tallies, t: Turn, direction: int): Tallies {
    Tallies(s.handsOn + direction * One(HandsOn(t).Some?), s.failedCommand + direction * One(FailedCommand(t).Some?),
            s.recovered + direction * One(RecoveredTurn(t).Some?), s.edited + direction * One(Edited(t).Some?),
            s.verified + direction * One(Verified(t).Some?), s.web + direction * One(UsedWeb(t).Some?),
            s.webFollowed + direction * One(FollowedWeb(t).Some?))
  }

  function Moved(d: multiset<int>, x: Option<int>, direction: int): multiset<int> {
    if direction > 0 then d + Given(x) else d - Given(x)
  }

  function DistributionsWith(d: Distributions, t: Turn, direction: int): Distributions {
    Distributions(Moved(d.durations, CompletedDuration(t), direction),
                  Moved(d.firstTokens, CompletedFirstToken(t), direction),
                  Moved(d.tokens, TokensOf(t), direction), Moved(d.commands, CommandsOf(t), direction),
                  Moved(d.tools, ToolsOf(t), direction), Moved(d.files, FilesOf(t), direction))
  }

  /** Every value the turn would discard is there. */
  predicate CanDiscard(d: Distributions, t: Turn) {
    && Given(CompletedDuration(t)) <= d.durations && Given(CompletedFirstToken(t)) <= d.firstTokens
    && Given(TokensOf(t)) <= d.tokens && Given(CommandsOf(t)) <= d.commands
    && Given(ToolsOf(t)) <= d.tools && Given(FilesOf(t)) <= d.files
  }

  lemma {:induction false} CountersReplaced(c: Counters, turns: Turns, t: Turn)
    requires CountersExact(c, turns)
    ensures var out := if t.key in turns then CountersWith(c, turns[t.key], -1) else c;
            CountersExact(CountersWith(out, t, 1), turns[t.key := t])
  {
    hide Adjusted, CounterExact;
    CounterReplace(c.outcomes, turns, OutcomeOf, t.key, t);
    CounterReplace(c.workspaces, turns, WorkspaceOf, t.key, t);
    CounterReplace(c.models, turns, ModelOf, t.key, t);
    CounterReplace(c.efforts, turns, EffortOf, t.key, t);
    CounterReplace(c.hours, turns, HourOf, t.key, t);
  }

  lemma HavingReplaced(turns: Turns, f: Turn -> Option<bool>, t: Turn)
    requires forall u: Turn :: f(u).Some? ==> f(u).value
    ensures Having(turns[t.key := t], f)
         == Having(turns, f) - (if t.key in turns then One(f(turns[t.key]).Some?) else 0) + One(f(t).Some?)
  {
    HoldersReplace(turns, f, true, t.key, t);
  }

  lemma {:induction false} TalliesReplaced(s: Tallies, turns: Turns, t: Turn)
    requires TalliesExact(s, turns)
    ensures var out := if t.key in turns then TalliesWith(s, turns[t.key], -1) else s;
            TalliesExact(TalliesWith(out, t, 1), turns[t.key := t])
  {
    hide Having, HasFailedCommand;
    HavingReplaced(turns, HandsOn, t);
    HavingReplaced(turns, FailedCommand, t);
    HavingReplaced(turns, RecoveredTurn, t);
    HavingReplaced(turns, Edited, t);
    HavingReplaced(turns, Verified, t);
    HavingReplaced(turns, UsedWeb, t);
    HavingReplaced(turns, FollowedWeb, t);
  }

  /** No discard fails, and the distributions stay exact. */
  lemma {:induction false} DistributionsReplaced(d: Distributions, turns: Turns, t: Turn)
    requires DistributionsExact(d, turns)
    ensures t.key in turns ==> CanDiscard(d, turns[t.key])
    ensures var out := if t.key in turns then DistributionsWith(d, turns[t.key], -1) else d;
            DistributionsExact(DistributionsWith(out, t, 1), turns[t.key := t])
  {
    hide Given, DistributionExact;
    DistributionReplace(d.durations, turns, CompletedDuration, t.key, t);
    DistributionReplace(d.firstTokens, turns, CompletedFirstToken, t.key, t);
    DistributionReplace(d.tokens, turns, TokensOf, t.key, t);
    DistributionReplace(d.commands, turns, CommandsOf, t.key, t);
    DistributionReplace(d.tools, turns, ToolsOf, t.key, t);
    DistributionReplace(d.files, turns, FilesOf, t.key, t);
  }

  // ---------------------------------------------------------------- whole sequences of replacements

  datatype Index = Index(turns: Turns, counters: Counters, tallies: Tallies, distributions: Distributions)

  const EMPTY := Index(map[], Counters(map[], map[], map[], map[], map[]), Tallies(0, 0, 0, 0, 0, 0, 0),
                       Distributions(multiset{}, multiset{}, multiset{}, multiset{}, multiset{}, multiset{}))

  function Replaced(i: Index, t: Turn): Index {
    var known := t.key in i.turns;
    var c := if known then CountersWith(i.counters, i.turns[t.key], -1) else i.counters;
    var s := if known then TalliesWith(i.tallies, i.turns[t.key], -1) else i.tallies;
    var d := if known then DistributionsWith(i.distributions, i.turns[t.key], -1) else i.distributions;
    Index(i.turns[t.key := t], CountersWith(c, t, 1), TalliesWith(s, t, 1), DistributionsWith(d, t, 1))
  }

  function ReplacedAll(i: Index, ts: seq<Turn>): Index
    decreases |ts|
  {
    if ts == [] then i else ReplacedAll(Replaced(i, ts[0]), ts[1..])
  }

  /** Every aggregate equals its recomputation over the current turns, and counters hold no zeros. */
  ghost predicate Exact(i: Index) {
    && CountersExact(i.counters, i.turns) && TalliesExact(i.tallies, i.turns)
    && DistributionsExact(i.distributions, i.turns)
  }

  lemma {:induction false} ReplacedExact(i: Index, t: Turn)
    requires Exact(i)
    ensures Exact(Replaced(i, t))
    ensures t.key in i.turns ==> CanDiscard(i.distributions, i.turns[t.key])
  {
    hide CountersExact, TalliesExact, DistributionsExact, CountersWith, TalliesWith, DistributionsWith;
    CountersReplaced(i.counters, i.turns, t);
    TalliesReplaced(i.tallies, i.turns, t);
    DistributionsReplaced(i.distributions, i.turns, t);
  }

  /** After any sequence of replacements every aggregate is exact. */
  lemma {:induction false} RunExact(i: Index, ts: seq<Turn>)
    requires Exact(i)
    ensures Exact(ReplacedAll(i, ts))
    decreases |ts|
  {
    hide Exact, Replaced;
    if ts != [] {
      ReplacedExact(i, ts[0]);
      RunExact(Replaced(i, ts[0]), ts[1..]);
    }
  }

  lemma EmptyExact()
    ensures Exact(EMPTY)
  {
    NoHolders(OutcomeOf);
    NoHolders(WorkspaceOf);
    NoHolders(ModelOf);
    NoHolders(EffortOf);
    NoHolders(HourOf);
    NoHolders(HandsOn);
    NoHolders(FailedCommand);
    NoHolders(RecoveredTurn);
    NoHolders(Edited);
    NoHolders(Verified);
    NoHolders(UsedWeb);
    NoHolders(FollowedWeb);
    NoHolders(CompletedDuration);
    NoHolders(CompletedFirstToken);
    NoHolders(TokensOf);
    NoHolders(CommandsOf);
    NoHolders(ToolsOf);
    NoHolders(FilesOf);
  }

  lemma NoHolders<F(!new)>(f: Turn -> Option<F>)
    ensures forall x :: Holders<TurnKey, Turn, F>(map[], f, x) == {}
  {}

  /** Two histories that end in the same turns give the same aggregates, whatever was replaced on the way. */
  lemma {:induction false} HistoryIrrelevant(ts: seq<Turn>, us: seq<Turn>)
    requires ReplacedAll(EMPTY, ts).turns == ReplacedAll(EMPTY, us).turns
    ensures ReplacedAll(EMPTY, ts) == ReplacedAll(EMPTY, us)
  {
    hide ReplacedAll;
    EmptyExact();
    RunExact(EMPTY, ts);
    RunExact(EMPTY, us);
    ExactUnique(ReplacedAll(EMPTY, ts), ReplacedAll(EMPTY, us));
  }

  lemma ExactUnique(i: Index, j: Index)
    requires Exact(i) && Exact(j) && i.turns == j.turns
    ensures i == j
  {
    hide Holders, CounterExact, DistributionExact;
    SameCounter(i.counters.outcomes, j.counters.outcomes, i.turns, OutcomeOf);
    SameCounter(i.counters.workspaces, j.counters.workspaces, i.turns, WorkspaceOf);
    SameCounter(i.counters.models, j.counters.models, i.turns, ModelOf);
    SameCounter(i.counters.efforts, j.counters.efforts, i.turns, EffortOf);
    SameCounter(i.counters.hours, j.counters.hours, i.turns, HourOf);
    SameDistribution(i.distributions.durations, j.distributions.durations, i.turns, CompletedDuration);
    SameDistribution(i.distributions.firstTokens, j.distributions.firstTokens, i.turns, CompletedFirstToken);
    SameDistribution(i.distributions.tokens, j.distributions.tokens, i.turns, TokensOf);
    SameDistribution(i.distributions.commands, j.distributions.commands, i.turns, CommandsOf);
    SameDistribution(i.distributions.tools, j.distributions.tools, i.turns, ToolsOf);
    SameDistribution(i.distributions.files, j.distributions.files, i.turns, FilesOf);
  }

  lemma SameCounter<F(!new)>(a: map<F, int>, b: map<F, int>, turns: Turns, f: Turn -> Option<F>)
    requires CounterExact(a, turns, f) && CounterExact(b, turns, f)
    ensures a == b
  {
    hide Holders;
    forall x ensures Get(a, x) == Get(b, x) {}
    assert forall x :: (x in a <==> Get(a, x) != 0) && (x in b <==> Get(b, x) != 0);
  }

  lemma SameDistribution(a: multiset<int>, b: multiset<int>, turns: Turns, f: Turn -> Option<int>)
    requires DistributionExact(a, turns, f) && DistributionExact(b, turns, f)
    ensures a == b
  {
    hide Holders;
    forall x ensures a[x] == b[x] {
      assert a[x] == |Holders(turns, f, x)|;
    }
  }
}
