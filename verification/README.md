# Rodex: verified models of its stateful protocols

Rodex keeps several stateful protocols and incremental structures, each meant to agree with a simpler
one. This project models them in Dafny and proves the agreement, over whole runs and every
interleaving of lock sections.

- **Distributions.** `Treap` and `TreapNodes`: the order-statistic tree refines a multiset, as a value
  and as mutable nodes. `Tally`, `ProjectionIndex`, `ProjectionRefresh`: the incremental statistics
  index equals a recomputation over the current turns; `ProjectionMeaning`: what each aggregate counts.
- **Terminal.** `Framer` and `Projection`: the byte framer, and its batching loop as a refinement of a
  per-byte machine; `FramerStrings` and `FramerGrammar`: where strings, sequences and queries begin,
  end and go. `Reflow` and `Screen`: greedy rewrapping with its cursor, history and viewport, sparse
  row shifting; `ScreenRows`: the same line by line, with the wrap links.
- **Steering.** `Steering`: the context-threshold controller, at most one steer per crossing;
  `SteeringCrossings`: exactly when a crossing is armed, and that a due one is always pending.
- **Observer.** `Observer` holds the producer's operations; `ObserverCredit`, `ObserverBounds` and
  `ObserverStream` prove single credit, the limits, and convergence of a consumer over a lossy stream;
  `ObserverEffects` and `ObserverWork` say exactly what each operation does to board, records and work;
  `ObserverParse` says what a consumer makes of any snapshot, `ObserverSchema` what follows from its
  callers' events and `ObserverPrune` what pruning removes; `ObserverReducer` and `Dispatcher` are the
  mutable objects.
- **Rollout reader.** `SourceLines` and `SourceReader`: incremental reading equals one filtered read;
  `SourceFilter`: which bytes make a line and which lines are kept; `SourceRefusals`: which reads are
  refused.
- **Daemon.** `Daemon` and `DaemonRuntimes`: reservations, finalization and descriptor ownership;
  `DaemonLifecycle`: what every reservation answers and what whole lifecycles leave behind.
- **Analytics coordinator.** `Coordinator`, `CoordinatorProofs`, `CoordinatorWorker`: fenced
  retirement, conservation of thread ids, fair dispatch; `CoordinatorTiming`: when waiting work falls
  due. `Closure`: the parent closure and the ancestor walk. `Recovery`: the failure budget.

`Wrappers`, `OrderedDict` and `Finite` are shared: optional values and results, insertion-ordered
dictionaries, sizes of finite sets. Concurrent components are state machines whose steps are the
source's lock sections; a class beside each runs the same sections over mutable fields, and its
methods are proved equal to the steps. `dafny verify dfyconfig.toml` checks everything.

Four things the source promises or suggests do not hold of it in general, and are stated with the
exact condition under which they do:

- incremental reading of a sub-agent rollout is exact for every continuation only if the accepted
  prefix has no bare carriage return (`SourceLines.SplitExactIff`), because lines are split at those
  too while only newlines are counted;
- pruning a target leaves events addressed to it that have another receiver
  (`ObserverPrune.PruneRemovesEveryMention`);
- a terminal operation id may be admitted again under another runtime id
  (`Daemon.OperationNeverReadmittedIff`);
- a genuine newer snapshot is refused when one of its events lacks the observer schema, which the
  producer does not test (`ObserverStream.NewerIsAccepted`), and then consuming only the newest of a
  batch may lose an older acceptable one (`ObserverStream.NewestOfBatch`, with the run in
  `ObserverSchema.MissingSchemaRefused`). Every caller in the repository sets the schema, and then
  neither happens (`ObserverSchema.NewerNeverRefused`, `ObserverSchema.NewestSuffices`).

## Model

| member | source | states |
|---|---|---|
| `Treap.InsertBetween` | src/rodex/analytics_analyzer.py:361-375 | inserting keeps the tree a binary search tree within the same key bounds |
| `Treap.InsertHeap` | src/rodex/analytics_analyzer.py:361-375 | inserting keeps min-heap order of priorities, whatever the priorities are |
| `Treap.InsertCounts` | src/rodex/analytics_analyzer.py:361-375 | inserting keeps every size and total exact and raises the count of that key alone by one |
| `Treap.RemoveBetween` | src/rodex/analytics_analyzer.py:378-398 | removal by rotation keeps the search order |
| `Treap.RemoveHeap` | src/rodex/analytics_analyzer.py:378-398 | removal by rotation keeps the heap order |
| `Treap.RemoveAugmented` | src/rodex/analytics_analyzer.py:378-398 | removal keeps every size and total exact |
| `Treap.RemoveCounts` | src/rodex/analytics_analyzer.py:378-398 | removal succeeds exactly when the key is present, and then lowers its count alone by one |
| `Treap.ExpansionExact` | src/rodex/analytics_analyzer.py:421-430 | size, total and counts of a tree are those of its in-order expansion |
| `Treap.ExpansionSorted` | src/rodex/analytics_analyzer.py:308-320 | the in-order expansion is sorted |
| `Treap.SoundMeaning` | src/rodex/analytics_analyzer.py:322-334 | a sound tree is the sorted form of a multiset with its size and sum |
| `Treap.InsertRefines` | src/rodex/analytics_analyzer.py:330-331 | add adds one occurrence to the abstract multiset and keeps the tree sound |
| `Treap.RemoveRefines` | src/rodex/analytics_analyzer.py:333-334 | discard fails exactly on an absent value and otherwise takes one occurrence out |
| `Treap.AfterRefines` | src/rodex/analytics_analyzer.py:330-334 | one call of either kind; a failed discard leaves the tree as it was |
| `Treap.RunRefines` | src/rodex/analytics_analyzer.py:330-398 | after every sequence of add and discard calls the tree is sound and its expansion is the sorted multiset of the calls |
| `Treap.PickIsKth` | src/rodex/analytics_analyzer.py:400-414 | selection by subtree sizes gives the k-th element of the sorted expansion for every k in range |
| `Treap.NearestRank` | src/rodex/analytics_analyzer.py:416-419 | the chosen ordinal holds the nearest-rank percentile: at least p percent at or below it, fewer than p percent strictly below |
| `Treap.PercentileUnique` | src/rodex/analytics_analyzer.py:416-419 | there is only one nearest-rank percentile |
| `TreapNodes.OrderNode.constructor` | src/rodex/analytics_analyzer.py:308-320 | a new node is a one-element tree |
| `TreapNodes.OrderNode.Refresh` | src/rodex/analytics_analyzer.py:421-430 | a node's size and total are recomputed from its children |
| `TreapNodes.RotateNodesRight` | src/rodex/analytics_analyzer.py:442-450 | the node rotation is the tree rotation, on the same nodes |
| `TreapNodes.RotateNodesLeft` | src/rodex/analytics_analyzer.py:432-440 | the node rotation is the tree rotation, on the same nodes |
| `TreapNodes.InsertNode` | src/rodex/analytics_analyzer.py:361-375 | insertion into the mutable nodes equals insertion into the tree value |
| `TreapNodes.RemoveNode` | src/rodex/analytics_analyzer.py:378-398 | removal from the mutable nodes equals removal from the tree value; a failed one changes nothing |
| `TreapNodes.Select` | src/rodex/analytics_analyzer.py:400-414 | the selection loop never reaches a missing child and returns the k-th value |
| `TreapNodes.Percentile` | src/rodex/analytics_analyzer.py:416-419 | the reported value is the nearest-rank percentile of the contents |
| `TreapNodes.Median` | src/rodex/analytics_analyzer.py:336-358 | the median is the middle value or the mean of the two middle values |
| `TreapNodes.OrderStatisticMultiset.constructor` | src/rodex/analytics_analyzer.py:325-328 | a new distribution holds exactly the given values |
| `TreapNodes.OrderStatisticMultiset.AddAll` | src/rodex/analytics_analyzer.py:327-328 | the given values are added, each as often as listed |
| `TreapNodes.OrderStatisticMultiset.Add` | src/rodex/analytics_analyzer.py:330-331 | one more occurrence of the value, nothing else changed |
| `TreapNodes.OrderStatisticMultiset.Discard` | src/rodex/analytics_analyzer.py:333-334 | one occurrence fewer, or a failure that leaves the tree as it was, exactly when the value is absent |
| `TreapNodes.OrderStatisticMultiset.Summary` | src/rodex/analytics_analyzer.py:336-358 | count, sum, extremes, median and percentiles of the contents, or the empty summary |
| `Tally.CounterReplace` | src/rodex/analytics_analyzer.py:729-732 | taking one turn's feature out and another's in keeps a counter equal to a recount, without zero entries |
| `Tally.DistributionReplace` | src/rodex/analytics_analyzer.py:716-726 | the discarded value is present and the distribution stays equal to a recount |
| `Tally.TotalUpdate` | src/rodex/analytics_analyzer.py:530-539 | changing one key's count changes a total by the difference of the contributions |
| `Tally.TotalAgrees` | src/rodex/analytics_analyzer.py:495-498 | totals agree for counts that agree up to absent zeros |
| `ProjectionIndex.CountersReplaced` | src/rodex/analytics_analyzer.py:676-685 | all five counters stay exact over a turn replacement |
| `ProjectionIndex.TalliesReplaced` | src/rodex/analytics_analyzer.py:686-696 | all seven flag tallies stay exact over a turn replacement |
| `ProjectionIndex.DistributionsReplaced` | src/rodex/analytics_analyzer.py:697-713 | no discard fails and all six distributions stay exact over a turn replacement |
| `ProjectionIndex.ReplacedExact` | src/rodex/analytics_analyzer.py:668-674 | one replacement keeps every aggregate equal to its recomputation over the current turns |
| `ProjectionIndex.RunExact` | src/rodex/analytics_analyzer.py:503-522 | so does every sequence of replacements |
| `ProjectionIndex.EmptyExact` | src/rodex/analytics_analyzer.py:471-490 | a fresh index is exact |
| `ProjectionIndex.HistoryIrrelevant` | src/rodex/analytics_analyzer.py:668-713 | two histories that end in the same turns leave identical aggregates |
| `ProjectionRefresh.CoveredTotal` | src/rodex/analytics_analyzer.py:530-539 | retained counts brought up to date at every changed key have the total of the current counts |
| `ProjectionRefresh.RefreshTotal` | src/rodex/analytics_analyzer.py:530-539 | repeated-command and revisited-path totals always match the retained counts, and are those of the current counts when the touched keys cover every change |
| `ProjectionRefresh.RefreshTools` | src/rodex/analytics_analyzer.py:540-551 | tool names stay an exact tally of the requests seen; the requests seen are the current ones when none was renamed or withdrawn and every new one was touched |
| `ProjectionRefresh.ExtendDistribution` | src/rodex/analytics_analyzer.py:524-526 | adding only the appended durations to the tree gives the multiset of all of them |
| `ProjectionRefresh.RaiseHighWater` | src/rodex/analytics_analyzer.py:527-529 | comparing only the appended ratios gives the maximum of all of them |
| `ProjectionRefresh.IncrementalProjectionIndex.constructor` | src/rodex/analytics_analyzer.py:471-504 | the index of the turns and ledgers the analyzer has so far, exact, over trees of its own |
| `ProjectionRefresh.IncrementalProjectionIndex.AdjustCounters` | src/rodex/analytics_analyzer.py:676-685 | the five counters move by the turn's own features |
| `ProjectionRefresh.IncrementalProjectionIndex.AdjustTallies` | src/rodex/analytics_analyzer.py:686-696 | the seven tallies move by the turn's own flags |
| `ProjectionRefresh.IncrementalProjectionIndex.AdjustDistributions` | src/rodex/analytics_analyzer.py:697-713 | the six trees gain or lose the turn's own values; no discard fails and the trees stay apart |
| `ProjectionRefresh.IncrementalProjectionIndex.AdjustTurn` | src/rodex/analytics_analyzer.py:676-713 | a turn is put in, or taken out where all its values are present in the trees |
| `ProjectionRefresh.IncrementalProjectionIndex.ReplaceTurn` | src/rodex/analytics_analyzer.py:668-674 | the index stays exact over its mutable trees; no tree discard fails |
| `ProjectionRefresh.IncrementalProjectionIndex.ReplaceTurns` | src/rodex/analytics_analyzer.py:517-523 | the index stays exact over a batch |
| `ProjectionRefresh.AnyFailedCommand` | src/rodex/analytics_analyzer.py:687-690 | whether some named count is a non-zero exit with occurrences |
| `ProjectionRefresh.AdjustDistribution` | src/rodex/analytics_analyzer.py:716-726 | an absent value changes nothing; otherwise one occurrence in or out of the tree, and the discard never fails |
| `ProjectionRefresh.AdjustOne` | src/rodex/analytics_analyzer.py:716-726 | adjusting one tree leaves the other five and their nodes as they were |
| `ProjectionRefresh.AdjustTrees` | src/rodex/analytics_analyzer.py:697-713 | the loop over the distributions moves each by its own value |
| `ProjectionRefresh.IncrementalProjectionIndex.RefreshRepeatedCommands` | src/rodex/analytics_analyzer.py:530-534 | commands that ran more than once: the total of the retained counts, and of the current ones when the touched hashes cover every change |
| `ProjectionRefresh.IncrementalProjectionIndex.RefreshRevisitedPaths` | src/rodex/analytics_analyzer.py:535-539 | paths operated on at least twice: the total of the retained counts, and of the current ones when the touched hashes cover every change |
| `ProjectionRefresh.IncrementalProjectionIndex.RefreshToolRequests` | src/rodex/analytics_analyzer.py:540-551 | tool names, requests and answered requests follow the touched keys |
| `Framer.RunSplit` | src/rodex/native_terminal_projection.py:78-202 | splitting the input anywhere changes neither the final state nor the concatenated outputs |
| `Framer.ChunkingInvariant` | src/rodex/native_terminal_projection.py:78-202 | any division of the input into chunks gives the same state and outputs as the whole |
| `Framer.StepFramed` | src/rodex/native_terminal_projection.py:80-199 | every byte keeps the framing invariant: the retained sequence never exceeds 4096 bytes and spells a prefix of an instruction |
| `Framer.StepConserves` | src/rodex/native_terminal_projection.py:80-199 | without a local reply a byte is either emitted or retained |
| `Framer.RunConserves` | src/rodex/native_terminal_projection.py:80-199 | without local replies the emitted native bytes followed by the retained sequence are exactly the input |
| `Framer.ControlsAreSubsequence` | src/rodex/native_terminal_projection.py:80-199 | control output is an in-order subsequence of native output |
| `Framer.PayloadStaysOffScreen` | src/rodex/native_terminal_projection.py:91-100 | while inside a device control string no byte reaches the screen and every byte is passed on |
| `Framer.CsiPrefixRetained` | src/rodex/native_terminal_projection.py:127-162 | nothing is emitted and nothing reaches the screen before the final byte of a control sequence |
| `Framer.ControlSequenceExecuted` | src/rodex/native_terminal_projection.py:154-199 | every control sequence of section 5.4 of ECMA-48 that is not the terminal's own is passed on unchanged and executed as one instruction |
| `Framer.DecimalRoundTrip` | src/rodex/native_terminal_projection.py:231-249 | a coordinate written in decimal reads back as itself |
| `Framer.SignedRoundTrip` | src/rodex/native_terminal_projection.py:231-249 | so does a negative one, which origin mode can report |
| `Framer.CursorReport` | src/rodex/native_terminal_projection.py:231-249 | the answer to a cursor position request (DSR 8.3.35, CPR 8.3.14 of ECMA-48) reads back as the one-based column and the row counted from the origin, which lies on the screen exactly when the cursor is not above the origin |
| `Projection.MatchesExactly` | src/rodex/native_terminal_projection.py:16-40 | a complete instruction at the front of a batch is recognised with exactly its own length |
| `Projection.SplitRecoversTokens` | src/rodex/native_terminal_projection.py:16-40 | re-splitting a batch of complete instructions and text gives back the same instructions and text |
| `Projection.ProjectedInstructionComplete` | src/rodex/native_terminal_projection.py:165-198 | an instruction is projected only when it is complete |
| `Projection.NativeTerminalProjection.constructor` | src/rodex/native_terminal_projection.py:52-61 | a new projection is at ground with nothing retained |
| `Projection.NativeTerminalProjection.Feed` | src/rodex/native_terminal_projection.py:78-202 | the batching loop computes the same state, screen and outputs as the per-byte machine |
| `Projection.NativeTerminalProjection.FeedAll` | src/rodex/native_terminal_projection.py:78-202 | feeding any chunks through the batching loop ends in the state, screen and outputs of the whole input at once |
| `Projection.NativeTerminalProjection.Consume` | src/rodex/native_terminal_projection.py:80-199 | one byte, with the pending batch, is one step of the per-byte machine |
| `Projection.NativeTerminalProjection.BeginEscape` | src/rodex/native_terminal_projection.py:204-208 | a new sequence begins with its escape byte |
| `Projection.NativeTerminalProjection.ClearSequence` | src/rodex/native_terminal_projection.py:210-215 | the retained sequence is forgotten |
| `Projection.NativeTerminalProjection.CollectByte` | src/rodex/native_terminal_projection.py:127-199 | collecting a sequence byte is the machine's collecting step |
| `Projection.NativeTerminalProjection.FinishInstruction` | src/rodex/native_terminal_projection.py:165-199 | a finished instruction is answered, executed or passed on as the machine does |
| `Projection.NativeTerminalProjection.AnswerQuery` | src/rodex/native_terminal_projection.py:168-183 | a locally answered query sees the screen with every earlier update applied |
| `Projection.NativeTerminalProjection.PassInstruction` | src/rodex/native_terminal_projection.py:184-198 | the synchronized-update flag and the outputs follow the machine |
| `Projection.NativeTerminalProjection.Flush` | src/rodex/native_terminal_projection.py:200-201 | a flush applies exactly the pending instructions and text |
| `Projection.NativeTerminalProjection.ProjectInstruction` | src/rodex/native_terminal_projection.py:194-198 | a projected instruction takes effect once, after everything pending |
| `Projection.OnlyStatusQueriesAnswered` | src/rodex/native_terminal_projection.py:231-249 | nothing but a status query is ever answered locally |
| `Reflow.WrapFromIsWrapping` | src/rodex/native_terminal_screen.py:320-337 | the greedy rows hold the cells in order; each fits the width or holds a single cell, and none could take the next cell |
| `Reflow.WrappingUnique` | src/rodex/native_terminal_screen.py:320-337 | only one division into rows has these properties |
| `Reflow.WrapCorrect` | src/rodex/native_terminal_screen.py:320-337 | the greedy rows are that division |
| `Reflow.LogicalOfWrap` | src/rodex/native_terminal_screen.py:301-346 | joining wrapped rows again gives the same logical lines |
| `Reflow.ReflowKeepsCells` | src/rodex/native_terminal_screen.py:301-346 | reflow keeps the cell sequence |
| `Reflow.ReflowTwice` | src/rodex/native_terminal_screen.py:301-346 | reflowing to one width and then another equals reflowing to the second, up to trailing blank rows |
| `Reflow.LogicalSplit` | src/rodex/native_terminal_screen.py:308-312 | logical lines may be collected part by part at unwrapped row ends |
| `Reflow.LogicalExtend` | src/rodex/native_terminal_screen.py:308-312 | the rows up to an unwrapped one extend the logical lines by exactly one |
| `Screen.WrapLine` | src/rodex/native_terminal_screen.py:320-337 | the loop over one logical line produces its rows; a cursor on a cell lands on that cell, a cursor past the end after the last cell |
| `Screen.AppendLine` | src/rodex/native_terminal_screen.py:309-339 | one logical line is joined, wrapped and appended, carrying the cursor along |
| `Screen.ReflowRows` | src/rodex/native_terminal_screen.py:303-339 | all rows are rewrapped and the cursor follows its cell |
| `Screen.DeleteUndoesInsert` | src/rodex/native_terminal_screen.py:210-251 | deleting as many rows as were inserted restores all but the rows pushed out |
| `Screen.ShiftedContents` | src/rodex/native_terminal_screen.py:210-251 | breaking the wrap flags around shifted rows changes no cell |
| `Screen.WithHeightKeepsRows` | src/rodex/native_terminal_screen.py:268-287 | a height change keeps history and visible rows down to the cursor, except what the history cap discards |
| `Screen.HeightRunKeepsRows` | src/rodex/native_terminal_screen.py:268-287 | over any sequence of height changes those rows stay the same, and all of them until the cap |
| `Screen.RewrapTwice` | src/rodex/native_terminal_screen.py:301-346 | two reflows equal the last one up to trailing blanks while history keeps everything; past its cap they agree after the oldest logical line that remains |
| `Screen.DroppedRows` | src/rodex/native_terminal_screen.py:301-346 | rows dropped from the front leave the rest of one logical line and all later lines |
| `Screen.ClampMovesOnlyEmptyCells` | src/rodex/native_terminal_screen.py:323-336 | where every cell occupies a column no cell lies past the width |
| `Screen.ShiftDown` | src/rodex/native_terminal_screen.py:225-230 | the in-place sparse loop equals list insertion within the affected rows, absent rows being blank |
| `Screen.ShiftUp` | src/rodex/native_terminal_screen.py:244-249 | the in-place sparse loop equals list deletion within the affected rows |
| `Screen.ChangeHeight` | src/rodex/native_terminal_screen.py:272-287 | the branches of a height change move rows between history and screen |
| `Screen.NativeTerminalScreen.BreakWrapBefore` | src/rodex/native_terminal_screen.py:179-183 | the row above, visible or newest in history, no longer continues |
| `Screen.NativeTerminalScreen.InsertLines` | src/rodex/native_terminal_screen.py:210-233 | blank rows are inserted at the cursor down to the bottom margin, or to the last row when the cursor is outside the margins, where an insertion of full height changes nothing |
| `Screen.NativeTerminalScreen.DeleteLines` | src/rodex/native_terminal_screen.py:235-251 | rows are deleted at the cursor up to the bottom margin, or to the last row when the cursor is outside the margins |
| `Screen.NativeTerminalScreen.ReflowTo` | src/rodex/native_terminal_screen.py:301-346 | history and screen are rewrapped together and the cursor stays on its cell unless it scrolled into history |
| `Screen.NativeTerminalScreen.WrapScreen` | src/rodex/native_terminal_screen.py:303-340 | the rewrapped rows of history and screen with the mapped cursor |
| `Screen.NativeTerminalScreen.Install` | src/rodex/native_terminal_screen.py:340-344 | the last rows become visible and the others history within its cap |
| `Screen.NativeTerminalScreen.ResizeHeight` | src/rodex/native_terminal_screen.py:272-288 | the new height with rows and cursor as the height change says |
| `Screen.NativeTerminalScreen.SetRows` | src/rodex/native_terminal_screen.py:297-299 | history and visible rows are replaced |
| `Screen.NativeTerminalScreen.Resize` | src/rodex/native_terminal_screen.py:268-295 | height first, then width; after a width change the cursor is on its cell exactly when that is no further right than the width and did not scroll into history |
| `Screen.NativeTerminalScreen.ResizeWidth` | src/rodex/native_terminal_screen.py:288-294 | an unchanged width changes nothing; another one reflows, and the final clamp moves the cursor exactly off cells past the width |
| `Steering.StepConsistent` | src/rodex/context_threshold_steering.py:139-471 | every lock section keeps the invariant, in which a pending attempt implies an armed threshold, and never lowers the generation |
| `Steering.OnlyRearmsArm` | src/rodex/context_threshold_steering.py:157-269 | only an accepted reading below the threshold or a change of main thread arms a disarmed crossing |
| `Steering.AdmissionConsumes` | src/rodex/context_threshold_steering.py:278-308 | an admitted steer disarms and consumes the pending attempt |
| `Steering.AdmittedIffPending` | src/rodex/context_threshold_steering.py:278-308 | a faithful request of this controller is admitted exactly while its attempt is the pending one |
| `Steering.StaleGenerationsInert` | src/rodex/context_threshold_steering.py:392-471 | callbacks, registrations and requests of an old generation change nothing and are not admitted |
| `Steering.RunConsistent` | src/rodex/context_threshold_steering.py:139-471 | every reachable state keeps the invariant |
| `Steering.ArmedAgainNeedsRearm` | src/rodex/context_threshold_steering.py:157-269 | between a disarmed and a later armed state there is a re-arming event |
| `Steering.AtMostOneSteerPerCrossing` | src/rodex/context_threshold_steering.py:278-308 | in every interleaving two admitted steers have a re-arm between them |
| `Steering.RetriesAccumulate` | src/rodex/context_threshold_steering.py:428-444 | the retry count is the number of binding retries since its last reset |
| `Steering.AtMostThreeRetries` | src/rodex/context_threshold_steering.py:428-444 | binding retries never exceed three per reset |
| `Steering.ContextThresholdSteeringController.constructor` | src/rodex/context_threshold_steering.py:83-123 | a new controller is armed and idle |
| `Steering.ContextThresholdSteeringController.ClearPending` | src/rodex/context_threshold_steering.py:463-471 | the pending attempt and its timer are gone and the generation moved on |
| `Steering.ContextThresholdSteeringController.ScheduleIfReady` | src/rodex/context_threshold_steering.py:341-368 | a due crossing reserves one attempt under a new generation |
| `Steering.ContextThresholdSteeringController.BindRootThread` | src/rodex/context_threshold_steering.py:139-155 | binding the registered root thread is its step |
| `Steering.ContextThresholdSteeringController.BindPrimaryThread` | src/rodex/context_threshold_steering.py:157-175 | binding the primary thread is its step |
| `Steering.ContextThresholdSteeringController.ObserveProtocolEvent` | src/rodex/context_threshold_steering.py:177-235 | turn, status and compaction events are their steps |
| `Steering.ContextThresholdSteeringController.ObserveContextPercent` | src/rodex/context_threshold_steering.py:237-269 | a usage reading is its step |
| `Steering.ContextThresholdSteeringController.TakePending` | src/rodex/context_threshold_steering.py:392-402 | a fired timer takes the attempt only in its own generation |
| `Steering.ContextThresholdSteeringController.RegisterRequest` | src/rodex/context_threshold_steering.py:412-415 | a request is registered only for the live attempt |
| `Steering.ContextThresholdSteeringController.AdmitDispatch` | src/rodex/context_threshold_steering.py:278-308 | a request passes exactly when it is another's or admissible |
| `Steering.ContextThresholdSteeringController.FinishDispatch` | src/rodex/context_threshold_steering.py:423-446 | a finished dispatch retries within the budget or gives the crossing up |
| `Steering.ContextThresholdSteeringController.TimerStartFailed` | src/rodex/context_threshold_steering.py:383-389 | a timer that cannot start releases the crossing |
| `Steering.ContextThresholdSteeringController.ResetAfterDisconnect` | src/rodex/context_threshold_steering.py:310-326 | a disconnect forgets the connection and its turn |
| `Steering.ContextThresholdSteeringController.Close` | src/rodex/context_threshold_steering.py:328-339 | closing ends every pending attempt |
| `ObserverCredit.StartCredits` | src/rodex/observer_state.py:136-174 | a start is credited only to a pair that could still be credited, and uses it up |
| `ObserverCredit.StepKeeps` | src/rodex/observer_state.py:136-451 | no operation but an epoch reset makes a spent pair creditable again or forgets that history was lost |
| `ObserverCredit.CreditSpends` | src/rodex/observer_state.py:136-174 | a credited pair is of the current epoch, was unspent, and is spent afterwards |
| `ObserverCredit.CreditedAtMostOnce` | src/rodex/observer_state.py:136-174 | within an epoch a (request, target) pair is credited at most once over any run, whatever was evicted, expired or retired |
| `ObserverCredit.LostHistoryStaysLost` | src/rodex/observer_state.py:350-394 | a record created after history was lost stays uncertain until the epoch resets |
| `ObserverCredit.AttributionNeedsCredit` | src/rodex/observer_state.py:136-206 | no operation attributes running work to a new request except by crediting that pair |
| `ObserverCredit.ResetEmpties` | src/rodex/observer_state.py:441-451 | a reset clears the connection state and opens the next epoch |
| `ObserverBounds.EvictLinked` | src/rodex/observer_state.py:381-389 | eviction keeps records, payloads and index in step |
| `ObserverBounds.RoomLinked` | src/rodex/observer_state.py:350-361 | making room ends below 512 records and keeps them in step |
| `ObserverBounds.IndexLinked` | src/rodex/observer_state.py:363-368 | indexing a target keeps the index the exact inverse of the records' targets, at most 64 per record |
| `ObserverBounds.PayloadsBoundedFits` | src/rodex/observer_state.py:370-379 | retiring payloads ends within 128 payloads and 512 KiB |
| `ObserverBounds.FinishLinked` | src/rodex/observer_state.py:324-335 | finishing a target everywhere keeps records, payloads and index in step |
| `ObserverBounds.RememberOk` | src/rodex/observer_state.py:176-191 | remembering an agent keeps at most 256 known agents, running ones among them |
| `ObserverBounds.PruneKeepsKey` | src/rodex/observer_state.py:581-600 | dropping a receiver never changes where an event is filed |
| `ObserverBounds.TrimmedOk` | src/rodex/observer_state.py:461-475 | trimming to the byte limit ends publishable, and the loss count grows by exactly what was dropped |
| `ObserverBounds.CountBoundedOk` | src/rodex/observer_state.py:544-552 | the board ends within 64 events, tombstones and removed targets, and the loss count grows by exactly what was dropped |
| `ObserverBounds.StepConsistent` | src/rodex/observer_state.py:136-475 | every operation keeps every limit, the exact inverse index, payloads of retained records only, running agents known, and events filed under their own key |
| `ObserverBounds.RunConsistent` | src/rodex/observer_state.py:136-475 | so does every run |
| `ObserverStream.CollectedRefuses` | src/rodex/observer_state.py:697-706 | listed events are refused exactly when one lacks the schema |
| `ObserverStream.CollectedRoundTrip` | src/rodex/observer_state.py:697-706 | refiling the listed events of a board gives the board back |
| `ObserverStream.SnapshotIsWire` | src/rodex/observer_state.py:524-539 | every consistent producer's snapshot parses back to its board, unless an event lacks the schema |
| `ObserverStream.StepMoves` | src/rodex/observer_state.py:396-475 | every operation publishes under a later label or leaves what was publishable as it was; losses only grow within an epoch |
| `ObserverStream.RunLogged` | src/rodex/observer_state.py:396-475 | over any run an (epoch, revision) label never names two different snapshots |
| `ObserverStream.PublishedIsGenuine` | src/rodex/observer_state.py:396-475 | everything a fresh producer ever publishes is such a log |
| `ObserverStream.NewerIsAccepted` | src/rodex/observer_state.py:477-522 | a genuine newer snapshot is refused exactly when one of its events lacks the schema |
| `ObserverStream.ConsumedMirrors` | src/rodex/observer_state.py:477-522 | after each delivery the consumer holds exactly what was published under its label, which never goes back |
| `ObserverStream.ConsumedAllMirrors` | src/rodex/observer_state.py:477-522 | the same for any loss, repetition or reordering, and nothing delivered that parses is newer |
| `ObserverStream.MirrorsUnique` | src/rodex/observer_state.py:477-522 | the label determines the consumer's state |
| `ObserverStream.DeliveryOrderIrrelevant` | src/rodex/observer_state.py:477-522 | the same snapshots in any order and multiplicity end in the same state |
| `ObserverStream.UnchangedIff` | src/rodex/observer_state.py:477-522 | a batch leaves the consumer as it was exactly when nothing in it that parses is newer |
| `ObserverSchema.StepSchemed` | src/rodex/observer_state.py:396-475 | only an observed event puts something new on the board |
| `ObserverSchema.PublishedSchemed` | src/rodex/observer_state.py:396-475 | if every observed event carries the schema, so does every event of every published snapshot |
| `ObserverSchema.NewerNeverRefused` | src/rodex/observer_state.py:477-522 | then no genuine newer snapshot is ever refused |
| `ObserverSchema.MissingSchemaRefused` | src/rodex/observer_state.py:396-414 | a run with one event without the schema whose snapshot is refused, and a batch whose newest alone leaves the consumer behind |
| `ObserverPrune.PrunedContents` | src/rodex/observer_state.py:416-434 | pruning keeps exactly the events that do not mention the target or have another receiver |
| `ObserverPrune.PruneRemovesEveryMention` | src/rodex/observer_state.py:416-439 | the documented removal of every event for the target happens exactly when no event addressed to it has another receiver |
| `ObserverPrune.PruneLeavesAddressee` | src/rodex/observer_state.py:416-439 | an event addressed to a target and received by another survives the pruning and still names it |
| `ObserverReducer.ObserverStateProducer.constructor` | src/rodex/observer_state.py:65-89 | a new producer is empty and consistent |
| `ObserverReducer.ObserverStateProducer.MarkCorrelationIncomplete` | src/rodex/observer_state.py:391-394 | the loss is flagged, counted and labelled |
| `ObserverReducer.ObserverStateProducer.EvictCorrelation` | src/rodex/observer_state.py:381-389 | the eviction loop, without a missing index entry |
| `ObserverReducer.ObserverStateProducer.Correlation` | src/rodex/observer_state.py:350-361 | the item's record, evicting oldest first when there is no room |
| `ObserverReducer.ObserverStateProducer.IndexTarget` | src/rodex/observer_state.py:363-368 | the target joins the record and the index, or the loss is flagged |
| `ObserverReducer.ObserverStateProducer.EnforcePayloadBounds` | src/rodex/observer_state.py:370-379 | the retirement loop, which always finds an oldest payload |
| `ObserverReducer.ObserverStateProducer.RememberAgent` | src/rodex/observer_state.py:176-191 | the agent is known, in place of an idle one when there is no room |
| `ObserverReducer.ObserverStateProducer.AssignWork` | src/rodex/observer_state.py:164-174 | the running work's turn and request |
| `ObserverReducer.ObserverStateProducer.StartWork` | src/rodex/observer_state.py:136-174 | a start is its step |
| `ObserverReducer.ObserverStateProducer.FinishWork` | src/rodex/observer_state.py:193-206 | a finish removes matching running work only |
| `ObserverReducer.ObserverStateProducer.RememberAgentActivity` | src/rodex/observer_state.py:239-260 | an activity is its step |
| `ObserverReducer.ObserverStateProducer.RememberCollaborationInvocation` | src/rodex/observer_state.py:277-295 | an invocation phase is its step |
| `ObserverReducer.ObserverStateProducer.Settle` | src/rodex/observer_state.py:315-322 | a settled record's payload is dropped |
| `ObserverReducer.ObserverStateProducer.CompleteAgentActivity` | src/rodex/observer_state.py:309-313 | a completed activity is its step |
| `ObserverReducer.ObserverStateProducer.FinishEverywhere` | src/rodex/observer_state.py:329-334 | the loop over the target's records has the same effect in every order |
| `ObserverReducer.ObserverStateProducer.ExpireProtocolState` | src/rodex/observer_state.py:337-345 | one pass evicts exactly the due records and says whether there were any |
| `ObserverReducer.ObserverStateProducer.EnforceBounds` | src/rodex/observer_state.py:544-552 | the board is cut to the event limit |
| `ObserverReducer.ObserverStateProducer.TakeSnapshot` | src/rodex/observer_state.py:461-475 | the board is cut to the byte limit and returned |
| `ObserverReducer.ObserverStateProducer.PostEvent` | src/rodex/observer_state.py:396-414 | an observed event is its step and returns the published snapshot |
| `ObserverReducer.ObserverStateProducer.PruneAgent` | src/rodex/observer_state.py:416-439 | a pruned target is its step; an empty id is refused without effect |
| `ObserverReducer.ObserverStateProducer.PruneProtocolTarget` | src/rodex/observer_state.py:324-335 | work and records of the target are finished and the board pruned; an empty id is refused after the former |
| `ObserverReducer.ObserverStateProducer.ResetConnection` | src/rodex/observer_state.py:441-451 | a reset is its step and publishes the new empty epoch |
| `ObserverReducer.PruneCollection` | src/rodex/observer_state.py:421-434 | the pruning loop over one collection |
| `ObserverReducer.ObserverStateConsumer.constructor` | src/rodex/observer_state.py:73-78 | a new consumer precedes every label |
| `ObserverReducer.ObserverStateConsumer.ConsumeSnapshot` | src/rodex/observer_state.py:477-522 | the accepted snapshot replaces the state, and the delta lists exactly the changed events, the changed tombstones and the newly removed targets |
| `ObserverStream.NewestOfBatch` | src/rodex/agent_observer.py:1970-1989 | consuming only the newest snapshot of a genuine batch ends where consuming all in order ends, exactly when the newest carries the schema throughout or nothing in the batch that does is newer than the consumer |
| `ObserverSchema.NewestSuffices` | src/rodex/agent_observer.py:1970-1989 | if every observed event carries the schema, consuming only the newest always ends where consuming all ends |
| `Dispatcher.StepConsistent` | src/rodex/agent_observer.py:172-276 | every section keeps deliveries genuine and ordered and the newest snapshot kept |
| `Dispatcher.NewestOnly` | src/rodex/agent_observer.py:172-276 | in every interleaving deliveries follow the order of sends, none twice, and the newest snapshot waits, is in hand, was delivered or cannot be encoded |
| `Dispatcher.ObserverEventDispatcher.constructor` | src/rodex/agent_observer.py:154-170 | a new dispatcher is idle |
| `Dispatcher.ObserverEventDispatcher.SendSnapshot` | src/rodex/agent_observer.py:172-188 | the snapshot replaces the waiting one under a new generation; a closed dispatcher refuses it |
| `Dispatcher.ObserverEventDispatcher.CloseDispatcher` | src/rodex/agent_observer.py:190-201 | the end mark replaces the waiting snapshot |
| `Dispatcher.ObserverEventDispatcher.Discard` | src/rodex/agent_observer.py:203-209 | the slot is emptied and the item in hand is superseded |
| `Dispatcher.ObserverEventDispatcher.TakeItem` | src/rodex/agent_observer.py:211-216 | the worker takes the waiting item, or ends |
| `Dispatcher.ObserverEventDispatcher.CheckCurrent` | src/rodex/agent_observer.py:266-268 | an overtaken item is dropped |
| `Dispatcher.ObserverEventDispatcher.ParkItem` | src/rodex/agent_observer.py:220-243 | after its first round of attempts the item is retried at long intervals |
| `Dispatcher.ObserverEventDispatcher.RecordAttempt` | src/rodex/agent_observer.py:220-254 | a delivered item leaves the hand, an unreachable one stays, an unencodable one is parked first and dropped the second time |
| `SourceLines.LinesAppend` | src/rodex/analytics_source_reader.py:419-419 | splitting after a complete record never splits a line |
| `SourceLines.LineCount` | src/rodex/analytics_source_reader.py:406-419 | complete content has one line per newline and one more per bare carriage return |
| `SourceLines.FilterAppend` | src/rodex/analytics_source_reader.py:406-438 | the filter of a prefix and the filter of the rest, offset by the prefix's newlines, are the filter of the whole |
| `SourceLines.BareReturnBreaks` | src/rodex/analytics_source_reader.py:412-420 | a bare carriage return in a sub-agent prefix moves some later record's position |
| `SourceLines.SplitExactIff` | src/rodex/analytics_source_reader.py:406-438 | for a sub-agent reading on is exact for every continuation if and only if the prefix has no bare carriage return; for a root always |
| `SourceLines.FindLastNewline` | src/rodex/analytics_source_reader.py:392-403 | the end of the complete records |
| `SourceLines.FilterAnalyzerLines` | src/rodex/analytics_source_reader.py:406-438 | the filtering loop computes the filtered content and positions |
| `SourceReader.AdvanceCursorOf` | src/rodex/analytics_source_reader.py:327-360 | an advanced cursor's prefix and tail are the bytes read, its count and digest the prefix's, and it appends the filter of exactly what followed |
| `SourceReader.NewCursorAppends` | src/rodex/analytics_source_reader.py:278-324 | a new cursor covers the content and appends exactly what follows the accepted size |
| `SourceReader.CapturedAppends` | src/rodex/analytics_source_reader.py:83-139 | every successful read, incremental or replayed, appends exactly what follows the accepted prefix |
| `SourceReader.AppendedCompletes` | src/rodex/analytics_source_reader.py:83-139 | the appended part completes the filter of the accepted prefix to the filter of the new one |
| `SourceReader.ReplayIsWhole` | src/rodex/analytics_source_reader.py:104-122 | a first or replayed read delivers the whole filtered content, as accepted part and appended part |
| `SourceReader.StepOk` | src/rodex/analytics_source_reader.py:83-146 | growth, preparation, abandonment, acceptance and replay each keep the accepted reads adding up |
| `SourceReader.RunAddsUp` | src/rodex/analytics_source_reader.py:83-146 | so does any interleaving of them over all sources |
| `SourceReader.AcceptedReadsAreOneRead` | src/rodex/analytics_source_reader.py:83-146 | from a fresh reader, the accepted reads past the checkpoint concatenate to one filter of the accepted prefix, contents and positions |
| `SourceReader.FilterLinesIncrease` | src/rodex/analytics_source_reader.py:419-438 | kept positions are strictly increasing: no record is handed over twice |
| `SourceReader.AnalyticsSourceReader.constructor` | src/rodex/analytics_source_reader.py:75-77 | a new reader has no cursors |
| `SourceReader.AnalyticsSourceReader.RequireReplay` | src/rodex/analytics_source_reader.py:79-81 | a replay is due |
| `SourceReader.AnalyticsSourceReader.Capture` | src/rodex/analytics_source_reader.py:83-139 | a read with all its failures; the reader is unchanged |
| `SourceReader.AnalyticsSourceReader.AcceptReads` | src/rodex/analytics_source_reader.py:141-146 | prepared cursors are committed and the replay is over |
| `SourceReader.Begin` | src/rodex/analytics_source_reader.py:278-324 | a new cursor or the reason there is none |
| `SourceReader.Advance` | src/rodex/analytics_source_reader.py:327-360 | the advanced cursor |
| `Daemon.StepConsistent` | src/rodex/daemon.py:147-393 | every lock section keeps ownership, completion records and descriptors consistent |
| `Daemon.RunConsistent` | src/rodex/daemon.py:147-393 | so does every interleaving |
| `Daemon.ExpireKeeps` | src/rodex/daemon.py:368-372 | an expired completion record leaves the floor at or above its operation |
| `Daemon.TerminalNeverReadmitted` | src/rodex/daemon.py:147-180 | a (runtime, operation) pair recorded terminal is refused ever after, even once its record expired |
| `Daemon.AdmittedIff` | src/rodex/daemon.py:147-180 | exactly when a reservation admits a new context |
| `Daemon.OperationNeverReadmittedIff` | src/rodex/daemon.py:147-180 | an operation id is refused under every runtime id exactly when it is at or below the floor |
| `Daemon.TerminalOperationReusable` | src/rodex/daemon.py:147-180 | a terminal operation id is admitted again under another runtime id |
| `Daemon.CannotRunForever` | src/rodex/daemon.py:209-235 | a service that ended or was cancelled before its start never runs again |
| `Daemon.TerminalServiceIsOver` | src/rodex/daemon.py:340-374 | a recorded or done runtime's service ended or can never start, and it holds no descriptor |
| `Daemon.StaysAccounted` | src/rodex/daemon.py:182-235 | every section keeps each descriptor held once, handed over once or closed once |
| `Daemon.DescriptorSingleOwner` | src/rodex/daemon.py:182-235 | in every reachable state a descriptor was handed over or closed at most once, never both |
| `DaemonRuntimes.ManagedRuntime.constructor` | src/rodex/daemon.py:95-112 | a fresh reservation |
| `DaemonRuntimes.ManagedRuntime.RequireAdmission` | src/rodex/daemon.py:237-239 | refused when closing, stopping, finishing or done |
| `DaemonRuntimes.ManagedRuntime.BindTerminal` | src/rodex/daemon.py:197-207 | the context owns the descriptor, or refuses it unchanged |
| `DaemonRuntimes.ManagedRuntime.StartBoundRuntime` | src/rodex/daemon.py:209-235 | the service owns the descriptor, or the context keeps it |
| `DaemonRuntimes.ManagedRuntime.StopSection` | src/rodex/daemon.py:376-393 | the descriptor to close and whether finalization follows |
| `DaemonRuntimes.ManagedRuntime.EndService` | src/rodex/daemon.py:325-332 | the service is marked finished with its failure |
| `DaemonRuntimes.ManagedRuntime.BeginFinish` | src/rodex/daemon.py:340-347 | one caller at a time finalizes |
| `DaemonRuntimes.ManagedRuntime.FailFinish` | src/rodex/daemon.py:353-359 | a failed finalization may be tried again, stopped |
| `DaemonRuntimes.ManagedRuntime.SignalDone` | src/rodex/daemon.py:373-374 | the runtime is done |
| `DaemonRuntimes.DaemonRuntimeManager.constructor` | src/rodex/daemon.py:132-137 | a new manager is the initial state of the lifecycle |
| `DaemonRuntimes.DaemonRuntimeManager.ReserveRuntime` | src/rodex/daemon.py:147-180 | a reservation is its step: every refusal, a repetition, or a new context |
| `DaemonRuntimes.DaemonRuntimeManager.BindTerminal` | src/rodex/daemon.py:197-207 | binding is its step, on the context held at its place |
| `DaemonRuntimes.DaemonRuntimeManager.StartBoundRuntime` | src/rodex/daemon.py:209-235 | starting is its step; a started service owns the descriptor |
| `DaemonRuntimes.DaemonRuntimeManager.StopContext` | src/rodex/daemon.py:376-393 | stopping is its step; the descriptor to close is accounted for once |
| `DaemonRuntimes.DaemonRuntimeManager.EndService` | src/rodex/daemon.py:329-332 | the end of a service is its step |
| `DaemonRuntimes.DaemonRuntimeManager.BeginFinish` | src/rodex/daemon.py:340-347 | beginning finalization is its step |
| `DaemonRuntimes.DaemonRuntimeManager.FailFinish` | src/rodex/daemon.py:353-359 | a failed finalization is its step |
| `DaemonRuntimes.DaemonRuntimeManager.SignalDone` | src/rodex/daemon.py:373-374 | signalling is its step |
| `DaemonRuntimes.DaemonRuntimeManager.BeginClose` | src/rodex/daemon.py:286-288 | closing is its step |
| `DaemonRuntimes.DaemonRuntimeManager.RecordTerminal` | src/rodex/daemon.py:361-372 | the recording section is its step: the owner is recorded and released, another context is not |
| `DaemonRuntimes.DaemonRuntimeManager.ExpireRecords` | src/rodex/daemon.py:368-372 | records past 1024 are expired oldest first, raising the floor |
| `CoordinatorProofs.FencedOk` | src/rodex/analytics.py:1362-1390 | the fence demands a full reconcile, so a poll already in flight can no longer attest |
| `CoordinatorProofs.ReturnedOk` | src/rodex/analytics.py:1610-1659 | a returned poll completes a retirement only by attesting what was captured after the fence |
| `CoordinatorProofs.StepConsistent` | src/rodex/analytics.py:1304-1659 | every lock section keeps the invariant |
| `CoordinatorProofs.RunConsistent` | src/rodex/analytics.py:1304-1659 | so does every run |
| `CoordinatorProofs.CompleteOnlyAfterFencedPoll` | src/rodex/analytics.py:1439-1472 | an outcome is complete only if a poll that captured its batch after the fence returned up to date with no event, thread id or reconcile request left |
| `CoordinatorProofs.RecordedNeverLost` | src/rodex/analytics.py:1343-1360 | a recorded thread id is pending, in flight, or was handed to a poll that returned, also after a raise or an overflow |
| `CoordinatorProofs.QueueKeepsOrder` | src/rodex/analytics.py:1541-1565 | capturing a batch and giving it back after a failed poll keep the order of waiting events |
| `CoordinatorProofs.NotPickedAgain` | src/rodex/analytics.py:1473-1506 | while an entry stays due and undispatched, no entry once dispatched is dispatched again |
| `CoordinatorProofs.DispatchedOnceWhileWaiting` | src/rodex/analytics.py:1473-1506 | the same from the start of any run |
| `CoordinatorProofs.WaitIsBounded` | src/rodex/analytics.py:1473-1506 | the dispatches while an entry waits are bounded by the entries ahead of it plus those reserved meanwhile |
| `CoordinatorProofs.WaitsLessThanEntries` | src/rodex/analytics.py:1473-1506 | with n entries and no new reservation a due entry waits at most n - 1 dispatches |
| `CoordinatorWorker.SharedAnalyticsCoordinator.constructor` | src/rodex/analytics.py:1276-1296 | a new coordinator has no entries |
| `CoordinatorWorker.SharedAnalyticsCoordinator.ReserveRuntime` | src/rodex/analytics.py:1304-1316 | a reservation is its step: admitted, repeated identically, or refused |
| `CoordinatorWorker.SharedAnalyticsCoordinator.ActivateRuntime` | src/rodex/analytics.py:1318-1341 | a live entry is activated exactly by a configuration that extends its reservation, and never by two |
| `CoordinatorWorker.SharedAnalyticsCoordinator.ObserveProtocolEvent` | src/rodex/analytics.py:1343-1360 | an event is its step, with the overflow at 4096 |
| `CoordinatorWorker.SharedAnalyticsCoordinator.RetireRuntime` | src/rodex/analytics.py:1362-1390 | retirement is its step |
| `CoordinatorWorker.SharedAnalyticsCoordinator.CloseCoordinator` | src/rodex/analytics.py:1399-1406 | closing begins every retirement |
| `CoordinatorWorker.SharedAnalyticsCoordinator.BeginRetirements` | src/rodex/analytics.py:1403-1404 | the loop over all entries |
| `CoordinatorWorker.SharedAnalyticsCoordinator.Scan` | src/rodex/analytics.py:1478-1501 | the entries to retire and the due entry dispatched least recently, ties by id |
| `CoordinatorWorker.SharedAnalyticsCoordinator.SelectWork` | src/rodex/analytics.py:1473-1506 | selection is its step |
| `CoordinatorWorker.SharedAnalyticsCoordinator.Capture` | src/rodex/analytics.py:1541-1553 | the batch is taken out as a whole |
| `CoordinatorWorker.SharedAnalyticsCoordinator.RecordStart` | src/rodex/analytics.py:1529-1540 | a worker was built, or the failure counted |
| `CoordinatorWorker.SharedAnalyticsCoordinator.RecordWorkerFailure` | src/rodex/analytics.py:1578-1592 | the worker is dropped and its restart scheduled or disabled |
| `CoordinatorWorker.SharedAnalyticsCoordinator.RestoreBatch` | src/rodex/analytics.py:1558-1562 | a failed poll's batch is back in front, in order |
| `CoordinatorWorker.SharedAnalyticsCoordinator.ScheduleResult` | src/rodex/analytics.py:1610-1659 | a returned poll is its step |
| `CoordinatorWorker.Reschedule` | src/rodex/analytics.py:1622-1659 | the assignments after a returned poll, branch by branch |
| `CoordinatorWorker.RetryWithinWindow` | src/rodex/analytics.py:1651-1658 | retries back off and never lie past their window; at its end there is none |
| `CoordinatorWorker.RescheduleRetiring` | src/rodex/analytics.py:1631-1646 | a retiring entry completes or is looked at again no later than its deadline |
| `CoordinatorWorker.ExtendLeft` | src/rodex/analytics.py:1560-1560 | pushing a batch back one by one puts it in front in order |
| `Closure.ExhaustedUnlinked` | src/rodex/analytics.py:1035-1036 | a candidate that waits when nothing can be added is not linked |
| `Closure.Pass` | src/rodex/analytics.py:1018-1034 | one pass in any order adds only linked candidates of the right depth, reports only real errors, and adds nothing only when nothing can be |
| `Closure.Finished` | src/rodex/analytics.py:1016-1036 | a pass that adds nothing has found everything linked |
| `Closure.Close` | src/rodex/analytics.py:1927-1940 | in any order the loops compute exactly the candidates linked to a verified source, and fail exactly when a linked one has the wrong depth or lost its parent |
| `Closure.ClosureStaysRooted` | src/rodex/analytics.py:1014-1036 | the closure of a verified tree is a verified tree: every parent present, one level up |
| `Closure.CollectAncestors` | src/rodex/analytics.py:1049-1055 | the ancestor walk ends, collects exactly the ancestors, and fails exactly when one is missing |
| `Recovery.RunWithinBudget` | src/rodex/analytics_recovery.py:22-35 | whatever polls are attempted, failed work since the last acceptance is at most one percent of the time from its first attempt to the retry time |
| `Recovery.FloorGrowsAndIsCapped` | src/rodex/analytics_recovery.py:24-27 | the backoff floor starts at 30 seconds, never shrinks with more failures and is capped at 900 |
| `Recovery.FailuresGrow` | src/rodex/analytics_recovery.py:22-35 | between acceptances the number of failures only grows |
| `Recovery.AnalyticsRecoveryBudget.constructor` | src/rodex/analytics_recovery.py:19-20 | a new budget allows everything |
| `Recovery.AnalyticsRecoveryBudget.RecordFailure` | src/rodex/analytics_recovery.py:22-31 | the retry time leaves at least the floor, and a hundred times the attempt's cost from its start |
| `Recovery.AnalyticsRecoveryBudget.Accept` | src/rodex/analytics_recovery.py:33-35 | accepted work resets the budget |
| `Recovery.AnalyticsRecoveryBudget.MustWait` | src/rodex/analytics.py:382-386 | a poll before the retry time must wait |
| `ProjectionMeaning.CountersMean` | src/rodex/analytics_analyzer.py:676-685 | every counter entry is the number of turns with that outcome, workspace, model, effort or hour |
| `ProjectionMeaning.FailedCommandsMean` | src/rodex/analytics_analyzer.py:687-691 | the turns with a failed command are counted, each once |
| `ProjectionMeaning.TalliesMean` | src/rodex/analytics_analyzer.py:686-696 | the hands-on, recovered and edited tallies are the numbers of such turns |
| `ProjectionMeaning.FollowUpsMean` | src/rodex/analytics_analyzer.py:686-696 | the verified, web and followed-up tallies are the numbers of such turns |
| `ProjectionMeaning.DurationsMean` | src/rodex/analytics_analyzer.py:697-713 | durations and times to the first token are those of the completed turns alone |
| `ProjectionMeaning.PerTurnMean` | src/rodex/analytics_analyzer.py:697-713 | tokens, commands, tools and files are those of every turn |
| `ProjectionMeaning.RevisitedMeans` | src/rodex/analytics_analyzer.py:497-498 | the revisited total counts the paths operated on at least twice |
| `ProjectionMeaning.RepeatedMeans` | src/rodex/analytics_analyzer.py:495-496 | the repeated total counts every execution but those of commands that ran once |
| `FramerStrings.StringOpens` | src/rodex/native_terminal_projection.py:143-150 | ESC and a string's opening byte enter it, both passed on as control output |
| `FramerStrings.StringRuns` | src/rodex/native_terminal_projection.py:118-125 | inside a string every data byte is passed on and nothing else happens |
| `FramerStrings.OscEndsAtBell` | src/rodex/native_terminal_projection.py:118-122 | an OSC string ends at its first BEL: back at ground, the screen untouched, exactly its bytes passed on, and the next text byte reaches the screen |
| `FramerStrings.StringEndsAtTerminator` | src/rodex/native_terminal_projection.py:101-116 | OSC, APC, PM, SOS and rename strings end at ESC backslash, and the next text byte reaches the screen |
| `FramerStrings.TerminatorEnds` | src/rodex/native_terminal_projection.py:101-116 | ESC backslash ends a string of any kind, also in the header of a DCS |
| `FramerStrings.BodyRuns` | src/rodex/native_terminal_projection.py:91-99 | in the body of a DCS everything but an escape is data |
| `FramerStrings.BodyEscape` | src/rodex/native_terminal_projection.py:91-99 | a DCS body ends at ESC backslash; ESC and any other byte are data |
| `FramerStrings.DcsStringPasses` | src/rodex/native_terminal_projection.py:217-229 | a whole DCS string, header and body, is passed on, leaves the screen alone and ends at ground |
| `FramerStrings.CancelReleases` | src/rodex/native_terminal_projection.py:102-116 | CAN and SUB abandon what was being collected: it is released and the byte itself takes effect |
| `FramerStrings.EscapeRestarts` | src/rodex/native_terminal_projection.py:102-112 | ESC releases what was being collected and begins anew; what follows a fragment is control output |
| `FramerStrings.OversizeSpills` | src/rodex/native_terminal_projection.py:127-134 | a sequence that outgrows 4096 bytes is spilled |
| `FramerStrings.OversizeNeverExecutes` | src/rodex/native_terminal_projection.py:127-134 | a spilled sequence is never answered and never executed |
| `FramerStrings.EmbeddedControl` | src/rodex/native_terminal_projection.py:135-139 | a control byte inside a sequence takes effect at once and is retained; bytes from DEL on are only retained |
| `FramerStrings.TextReachesScreen` | src/rodex/native_terminal_projection.py:80-89 | at ground every byte but an escape is text: it reaches the screen and the native output, a bell the control output too |
| `FramerStrings.QueryIsAnswered` | src/rodex/native_terminal_projection.py:170-184 | a status query with an answer is answered in place: no byte goes on and nothing changes |
| `FramerStrings.AnsweredExactly` | src/rodex/native_terminal_projection.py:231-249 | the status queries with an answer are 5, and 6 with or without the private mark |
| `FramerStrings.TerminalSequencePasses` | src/rodex/native_terminal_projection.py:185-199 | a sequence that belongs to the terminal and has no local answer is passed on and kept off the screen |
| `FramerStrings.SynchronizedSwitches` | src/rodex/native_terminal_projection.py:252-259 | a private mode set or reset switches synchronized updates exactly when its parameter is 2026 |
| `FramerStrings.EscapeSequenceExecuted` | src/rodex/native_terminal_projection.py:154-165 | every escape sequence outside strings and control sequences is passed on and executed once |
| `FramerStrings.ExecutedOutput` | src/rodex/native_terminal_projection.py:185-199 | an executed control sequence is native output alone, unless it switches synchronized updates |
| `ScreenRows.ShrinkRows` | src/rodex/native_terminal_screen.py:274-279 | shrinking scrolls only as far as the cursor needs; every row that stays is the row it was, the scrolled ones join the history |
| `ScreenRows.GrowRows` | src/rodex/native_terminal_screen.py:280-287 | growing shows the newest history rows, then every old visible row, then blanks |
| `ScreenRows.RowBelowCursorKept` | src/rodex/native_terminal_screen.py:274-279 | a row from the cursor down is still there when it fits below the top row that stays |
| `ScreenRows.InsertLineByLine` | src/rodex/native_terminal_screen.py:210-233 | every visible line after an insertion, with its wrap link: which links are broken, and that lines outside the margins stay as they were |
| `ScreenRows.DeleteLineByLine` | src/rodex/native_terminal_screen.py:235-251 | every visible line after a deletion, with its wrap link |
| `ScreenRows.ShiftLeavesHistory` | src/rodex/native_terminal_screen.py:179-183 | insertion and deletion leave history alone, except that its newest line loses its link exactly when the cursor is on the first row |
| `SteeringCrossings.ArmedExactly` | src/rodex/context_threshold_steering.py:157-308 | after every section: an armed crossing stays armed unless an admission, a given-up attempt or a compaction uses it up; a used one is armed exactly by a low reading or a new main thread |
| `SteeringCrossings.StaysArmed` | src/rodex/context_threshold_steering.py:237-269 | over a run: armed and never used up since, still armed |
| `SteeringCrossings.StepPrompt` | src/rodex/context_threshold_steering.py:341-368 | every section leaves a due crossing pending, except the report that a timer could not start |
| `SteeringCrossings.DueIsPending` | src/rodex/context_threshold_steering.py:341-368 | in every run in which timers start, an armed crossing with a bound controller, a running turn, usage at or above the threshold and no compaction is pending |
| `SteeringCrossings.RunReady` | src/rodex/context_threshold_steering.py:139-175 | in every run the controller is ready exactly when connected with its main thread the registered one |
| `SteeringCrossings.LowThenHigh` | src/rodex/context_threshold_steering.py:257-268 | a reading below the threshold arms, clears and resets; the next at or above it is a new attempt for the running turn |
| `SteeringCrossings.NextCrossingIsPending` | src/rodex/context_threshold_steering.py:257-268 | over a run: after an admitted steer, an accepted low reading followed by an accepted high one leaves an attempt pending |
| `SteeringCrossings.PendingIsAdmitted` | src/rodex/context_threshold_steering.py:278-308 | a pending attempt whose timer fires and whose faithful request is registered is admitted and consumed |
| `SteeringCrossings.RetrySchedules` | src/rodex/context_threshold_steering.py:423-446 | a refused binding within the budget is tried again at once, for the same turn, under a new generation |
| `SteeringCrossings.FinishSettles` | src/rodex/context_threshold_steering.py:423-446 | a finished dispatch leaves no registration, and is remembered exactly when admitted and completed |
| `SteeringCrossings.TurnFollows` | src/rodex/context_threshold_steering.py:189-214 | which turn is running after every section |
| `SteeringCrossings.UsageFollows` | src/rodex/context_threshold_steering.py:237-269 | which usage is known after every section: the last reading outside a compaction, until one begins or the binding is lost |
| `SteeringCrossings.RetriesFollow` | src/rodex/context_threshold_steering.py:261-264 | how many retries are used after every section |
| `SteeringCrossings.CompactionFollows` | src/rodex/context_threshold_steering.py:215-231 | a compaction forgets usage, disarms and cancels; its end changes nothing else |
| `SteeringCrossings.CompactionsFollow` | src/rodex/context_threshold_steering.py:215-231 | which compactions are under way after every section |
| `SteeringCrossings.BindingFollows` | src/rodex/context_threshold_steering.py:139-175 | what the controller is bound to after every section; a close is for good |
| `SteeringCrossings.StrangersIgnored` | src/rodex/context_threshold_steering.py:271-276 | nothing from another thread or connection, and nothing after the close, has any effect |
| `SteeringCrossings.TimerFiresOnce` | src/rodex/context_threshold_steering.py:392-402 | a timer fires once, for its own attempt only, which stays pending |
| `SteeringCrossings.CancelledIsStale` | src/rodex/context_threshold_steering.py:463-471 | whenever the pending attempt changes the generation moves on, so its callbacks and requests are inert for good |
| `SteeringCrossings.PendingDropped` | src/rodex/context_threshold_steering.py:157-339 | exactly which sections drop a pending attempt |
| `ObserverEffects.PostedExactly` | src/rodex/observer_state.py:396-415 | an ending event is filed as the newest tombstone and is not active, any other the reverse; every other event keeps its place and value |
| `ObserverEffects.PostedTargets` | src/rodex/observer_state.py:401-403 | exactly the event's own target stops being a removed one |
| `ObserverEffects.PostFiles` | src/rodex/observer_state.py:396-415 | the same of the whole operation with its limits: what remains is the newest part, and without a loss nothing is dropped |
| `ObserverEffects.PostIsPublished` | src/rodex/observer_state.py:396-415 | the returned snapshot lists an ending event last among the tombstones and not among the active, any other the reverse |
| `ObserverEffects.CountDropsInOrder` | src/rodex/observer_state.py:544-552 | the event limit drops tombstones before removed targets before active events, each oldest first and as few as needed |
| `ObserverEffects.BytesDropInOrder` | src/rodex/observer_state.py:461-475 | the byte limit drops active events before tombstones before removed targets, each oldest first |
| `ObserverEffects.KeysSeparate` | src/rodex/observer_state.py:581-601 | events of items replace one another exactly when thread, item and kind agree |
| `ObserverEffects.FiledByThread` | src/rodex/observer_state.py:581-601 | an event is filed under the acting sub-agent, else its target, else its thread, else globally |
| `ObserverEffects.FiledByItem` | src/rodex/observer_state.py:581-601 | an event is filed under its item, else its activity, else as the latest of its kind |
| `ObserverEffects.AddressedTo` | src/rodex/observer_state.py:603-613 | an event is addressed to its target, else the agent of its item, else its thread |
| `ObserverEffects.KindsSeparate` | src/rodex/observer_state.py:581-601 | events of different kinds never replace one another |
| `ObserverWork.TouchedRecord` | src/rodex/observer_state.py:350-361 | a retained record is left as it is; a new one lives 300 seconds and is certain only if nothing was forgotten |
| `ObserverWork.OldestMakesRoom` | src/rodex/observer_state.py:350-361 | room is made by forgetting the oldest record, and that one alone |
| `ObserverWork.FirstIdleIsFirst` | src/rodex/observer_state.py:179-181 | the agent retired is the first with a path that is not running, if there is one |
| `ObserverWork.RememberedExactly` | src/rodex/observer_state.py:176-191 | exactly when an agent is remembered, what is retired for it, and that running agents never are |
| `ObserverWork.AssignedExactly` | src/rodex/observer_state.py:164-174 | a start with a place for its agent sets that agent's work alone; without one it changes no work |
| `ObserverWork.CreditedExactly` | src/rodex/observer_state.py:140-174 | a start is credited if and only if nothing was forgotten about its request, the target was neither started nor finished for it, its record has room and the agent a place; the work is then attributed to that request and turn |
| `ObserverWork.UncreditedStart` | src/rodex/observer_state.py:150-163 | a start that is not credited takes over the verified active turn of an uncertain request, never its credit, and otherwise changes no work |
| `ObserverWork.UnrequestedStart` | src/rodex/observer_state.py:166-174 | a start without a request continues the running turn under its request; another turn runs under none |
| `ObserverWork.FinishedExactly` | src/rodex/observer_state.py:193-206 | a finish ends work exactly when it names no other turn and no other request |
| `ObserverWork.FinishNeedsOwnRequest` | src/rodex/observer_state.py:193-206 | after a credited start only that request, and only that turn, ends the work |
| `ObserverWork.ActivityExactly` | src/rodex/observer_state.py:239-260 | exactly when an activity is kept, without its attached invocation, and what the agent and the record then are |
| `ObserverWork.InvocationExactly` | src/rodex/observer_state.py:277-295 | a phase is recorded once and never after completion; which receivers become targets and when the payload is kept |
| `ObserverWork.PayloadsOldestFirst` | src/rodex/observer_state.py:370-379 | payloads are retired oldest first, no further than needed, and their records doubted |
| `ObserverWork.SettleExactly` | src/rodex/observer_state.py:315-322 | settling drops the payload of a request that needs nothing more, and nothing else |
| `ObserverWork.CompleteExactly` | src/rodex/observer_state.py:309-313 | a completed activity is remembered, and the payload goes when that was the last thing awaited |
| `ObserverWork.ContextSentExactly` | src/rodex/observer_state.py:306-307 | the sent context is remembered for exactly that target |
| `ObserverWork.FinishTargetExactly` | src/rodex/observer_state.py:324-334 | which requests count a finished target, forget its activity and lose their payload, and that the others stay as they were |
| `ObserverWork.ExpiredExactly` | src/rodex/observer_state.py:337-345 | expiry forgets exactly the records that are due, with their payloads |
| `ObserverParse.CollectedExactly` | src/rodex/observer_state.py:697-706 | listed events are filed under their keys, the last listed winning, each key once |
| `ObserverParse.TargetsExactly` | src/rodex/observer_state.py:686 | the removed targets of a snapshot are the non-empty ones listed, each once |
| `ObserverParse.ParsedIff` | src/rodex/observer_state.py:639-688 | a snapshot is understood exactly when its header is sound, every listed event carries the schema, and its distinct events and listed targets are at most 64 |
| `ObserverParse.ParsedExactly` | src/rodex/observer_state.py:639-706 | what an understood snapshot becomes: its label, its losses, its targets, and the last event under each key |
| `ObserverParse.TakenIff` | src/rodex/observer_state.py:477-500 | an understood snapshot is taken exactly when its label is newer and, within an epoch, no loss is taken back |
| `ObserverParse.ReturnedIsPublished` | src/rodex/observer_state.py:461-475 | over a run the snapshot of every operation that returns one is among the published |
| `Dispatcher.CurrentIsDelivered` | src/rodex/agent_observer.py:218-254 | an item nothing overtook: sending delivers it, a failure keeps it, and only its second refusal drops it |
| `Dispatcher.SentIsDelivered` | src/rodex/agent_observer.py:172-216 | a snapshot sent to an open dispatcher with an idle worker is the next one delivered |
| `Dispatcher.OvertakenIsDropped` | src/rodex/agent_observer.py:266-268 | an item overtaken before its check is never delivered |
| `Dispatcher.ProducersOvertake` | src/rodex/agent_observer.py:172-209 | every send, discard and close overtakes whatever was sent before |
| `Dispatcher.AttemptNeedsCheck` | src/rodex/agent_observer.py:218-254 | an attempt is made only on an item found current since it was taken, parked or last attempted |
| `Dispatcher.RefusedTwiceIsDropped` | src/rodex/agent_observer.py:220-254 | an item that cannot be encoded gets one more attempt and is then given up |
| `Dispatcher.ClosedEnds` | src/rodex/agent_observer.py:190-216 | a closed dispatcher's idle worker ends at its next turn |
| `Dispatcher.QuietForever` | src/rodex/agent_observer.py:190-276 | once closed with nothing found current, nothing is ever delivered |
| `Dispatcher.ClosedDeliversNoMore` | src/rodex/agent_observer.py:190-276 | after a close at most the attempt already under way delivers, and nothing after it |
| `SourceFilter.LinesDivide` | src/rodex/analytics_source_reader.py:419 | splitting loses nothing, and each line ends at a newline, a carriage return, or both together |
| `SourceFilter.DivisionUnique` | src/rodex/analytics_source_reader.py:419 | there is only one such division |
| `SourceFilter.KeptExactly` | src/rodex/analytics_source_reader.py:419-437 | kept are the very first line, and exactly those whose own ordinal, or else physical position, exceeds the cutoff |
| `SourceFilter.KeptContent` | src/rodex/analytics_source_reader.py:419-437 | the content handed over is the kept lines, whole and in order |
| `SourceFilter.FilterExactly` | src/rodex/analytics_source_reader.py:406-437 | the same of the filter itself; a root's content is handed over whole with one position per newline |
| `SourceFilter.FirstLineKept` | src/rodex/analytics_source_reader.py:419-424 | a rollout's first line is kept whatever position it states |
| `SourceRefusals.IncrementalReadIff` | src/rodex/analytics_source_reader.py:246-275 | an incremental read succeeds exactly when the file continues the accepted one |
| `SourceRefusals.ChangedFileRefused` | src/rodex/analytics_source_reader.py:246-275 | other metadata, another identity, a shorter file and a same-size rewrite are each refused as such, on incremental reads and replays |
| `SourceRefusals.FirstReadIff` | src/rodex/analytics_source_reader.py:225-243 | a first read succeeds exactly when the checkpoint's prefix has its digest and the records are readable |
| `SourceRefusals.ReplayIff` | src/rodex/analytics_source_reader.py:378-386 | a replay succeeds exactly when the file continues, is readable, and its accepted prefix has the accepted digest |
| `SourceRefusals.ReplayProvesPrefix` | src/rodex/analytics_source_reader.py:378-386 | whatever happened to the file: unless the hash collides, a replay that succeeds has the accepted prefix unchanged, and a changed prefix is refused |
| `SourceRefusals.ReadSays` | src/rodex/analytics_source_reader.py:83-139 | what a read says of itself: whether something was accepted before, and that an incremental one hands over the appended part alone |
| `SourceRefusals.UnchangedFileReadable` | src/rodex/analytics_source_reader.py:246-275 | reading the same unchanged file again is never refused |
| `SourceRefusals.RefusedReadKeepsWorld` | src/rodex/analytics_source_reader.py:83-139 | a refused read changes nothing |
| `DaemonLifecycle.RepeatedIff` | src/rodex/daemon.py:155-160 | a reservation is repeated exactly when operation and configuration are equal and its context is not stopping, finishing or done; it changes nothing |
| `DaemonLifecycle.RefusedAs` | src/rodex/daemon.py:147-180 | every refusal, and exactly when it is given; a recorded runtime answers with its own error |
| `DaemonLifecycle.ExpireNewest` | src/rodex/daemon.py:368-372 | exactly the records past the newest 1024 expire, and the floor becomes the largest operation among them |
| `DaemonLifecycle.CommitFiles` | src/rodex/daemon.py:361-367 | recording the owner releases its runtime id and files its operation, configuration and error |
| `DaemonLifecycle.RecordedAnswers` | src/rodex/daemon.py:161-165 | from then on an identical reservation is answered with the recorded error, and another one is refused |
| `DaemonLifecycle.StrangerRecordsNothing` | src/rodex/daemon.py:361-367 | a context that does not own its runtime id touches no record |
| `DaemonLifecycle.BindIff` | src/rodex/daemon.py:182-207 | binding succeeds exactly on an admissible context without a terminal, which then holds a new descriptor |
| `DaemonLifecycle.StartIff` | src/rodex/daemon.py:209-239 | starting succeeds exactly on an admissible context with a terminal and no service, and hands the descriptor over |
| `DaemonLifecycle.StopCancels` | src/rodex/daemon.py:376-394 | stopping closes a descriptor still held, and a service that never started is recorded as cancelled |
| `DaemonLifecycle.ServiceRuns` | src/rodex/daemon.py:147-235 | reserved, bound and started from any manager that admits it: the service runs and owns its descriptor |
| `DaemonLifecycle.LifecycleRecorded` | src/rodex/daemon.py:147-374 | a whole lifecycle from any consistent manager: recorded with its failure, its descriptor handed over once, and the same reservation answered with that failure |
| `CoordinatorTiming.DueExactly` | src/rodex/analytics.py:1508-1520 | exactly when an entry falls due: by its retry, without a worker, on a full reconcile, and otherwise after the quiet time or the batch limit |
| `CoordinatorTiming.RunTimed` | src/rodex/analytics.py:1343-1360 | in every run whatever waits carries its dirty times |
| `CoordinatorTiming.WaitingIsDueInTime` | src/rodex/analytics.py:1508-1520 | in every run an entry with something waiting is due at most the batch limit after its first dirty time, unless a retry is scheduled |
| `CoordinatorTiming.ObservedWaits` | src/rodex/analytics.py:1343-1360 | an observed event waits with its thread id, in order; a full queue becomes one full reconcile |
| `CoordinatorTiming.QuietEventIsDue` | src/rodex/analytics.py:1517-1520 | a first event is due exactly the quiet time later |
| `CoordinatorTiming.RetireFences` | src/rodex/analytics.py:1381-1390 | retiring fences the producers, asks for everything once more and sets both deadlines |
| `CoordinatorTiming.RetiredAtDeadline` | src/rodex/analytics.py:1473-1506 | a selection takes out exactly the retiring entries that are complete, disabled, inactive or out of time |
| `CoordinatorTiming.DueIsDispatched` | src/rodex/analytics.py:1473-1506 | something is dispatched exactly when something is due, under the next dispatch number |
| `CoordinatorTiming.CompletesExactly` | src/rodex/analytics.py:1631-1646 | exactly when a returned poll completes a retirement |
| `CoordinatorTiming.RetryBacksOff` | src/rodex/analytics.py:1651-1658 | retry results back off from half a second, doubling, within one window |
| `CoordinatorTiming.OtherResults` | src/rodex/analytics.py:1622-1650 | any other result ends the retries; a recovery time is kept within a retirement's deadline |
| `CoordinatorTiming.SecondFailureDisables` | src/rodex/analytics.py:1567-1593 | one failed start is tried again after the restart delay; a second in a row disables the entry |
| `CoordinatorTiming.FailedPollRestarts` | src/rodex/analytics.py:1558-1563 | a failed poll drops its worker; its batch waits in front of what came since |
| `CoordinatorTiming.CaptureTakesAll` | src/rodex/analytics.py:1541-1553 | a capture hands the poll everything that waits and leaves the entry clean |
| `Recovery.FloorDoubles` | src/rodex/analytics_recovery.py:22-31 | the backoff floor starts at 30 seconds and doubles with each failure in a row until 900 |
| `Recovery.RetryIsEarliest` | src/rodex/analytics_recovery.py:22-31 | a poll is permitted exactly once both the floor and ninety-nine times the failed attempt's cost have passed idle |
| `FramerGrammar.EscapeLeads` | src/rodex/native_terminal_projection.py:140-155 | what the byte after ESC leads to, for every printable byte |
| `FramerGrammar.CsiCollected` | src/rodex/native_terminal_projection.py:156-164 | a control sequence is collected silently, and is ignored from the first byte on that breaks the grammar of section 5.4 of ECMA-48 |
| `FramerGrammar.MalformedNeverExecutes` | src/rodex/native_terminal_projection.py:156-190 | a control sequence outside that grammar is passed on as control output and never executed |
| `FramerGrammar.TerminalOwns` | src/rodex/native_terminal_projection.py:262-268 | exactly which control sequences belong to the terminal |
| `FramerGrammar.QueriesEndInN` | src/rodex/native_terminal_projection.py:231-236 | the status queries are the control sequences that end in n |
| `FramerGrammar.SignOnlyWhenNegative` | src/rodex/native_terminal_projection.py:240-248 | a reported coordinate carries a sign exactly when it is negative |
| `FramerGrammar.HeaderDecides` | src/rodex/native_terminal_projection.py:217-229 | the final byte of a DCS header enters the body exactly after a well-formed header; otherwise the string is ignored |
| `FramerGrammar.HeaderNoise` | src/rodex/native_terminal_projection.py:217-219 | control and eight-bit bytes in a header, and everything in an ignored string, are passed on without effect |
| `CoordinatorTiming.ChoiceIsUnique` | src/rodex/analytics.py:1488-1506 | the least recently dispatched due entry is chosen, the lowest id among equals |
| `CoordinatorTiming.NothingBeforeWake` | src/rodex/analytics.py:1478-1505 | until the wake time nothing more falls due or is to be retired, so waiting misses nothing |
| `CoordinatorTiming.SomethingAtWake` | src/rodex/analytics.py:1478-1505 | at the wake time something is due or to be retired |
| `CoordinatorWorker.SharedAnalyticsCoordinator.NextWake` | src/rodex/analytics.py:1478-1505 | the wait ends at the earliest coming deadline of any entry |
| `CoordinatorTiming.ReturnRemembers` | src/rodex/analytics.py:1610-1622 | a returned poll's threads count as handed over, and what came since still waits |
| `CoordinatorTiming.RetirementRetries` | src/rodex/analytics.py:1642-1644 | a retiring entry that is not up to date is polled again with growing delay, never past its deadline |
| `CoordinatorTiming.RetirementSettles` | src/rodex/analytics.py:1633-1641 | an up-to-date poll before the settling time or the fence asks for one more full poll after it |
| `CoordinatorTiming.CloseRetires` | src/rodex/analytics.py:1381-1411 | closing begins every retirement that has not begun, without fencing |
| `CoordinatorTiming.LateFence` | src/rodex/analytics.py:1362-1390 | a fence after a close keeps the deadline, settles anew and asks for everything once more |
| `CoordinatorTiming.FencedOnce` | src/rodex/analytics.py:1362-1380 | a second fence changes nothing |
| `CoordinatorTiming.ReservedExactly` | src/rodex/analytics.py:1304-1316 | what every reservation answers, and that only an admitted one changes anything |
| `CoordinatorTiming.ActivatedIsDue` | src/rodex/analytics.py:1318-1341 | activation succeeds exactly for a live reservation it extends, at most once, and makes the entry due at once |
| `CoordinatorTiming.BuiltWorkerPolls` | src/rodex/analytics.py:1529-1540 | a built worker is kept and the entry polled at once |
| `CoordinatorTiming.OutcomeSays` | src/rodex/analytics.py:1439-1471 | a retirement outcome is inactive exactly when never activated, and complete exactly when completed |

## Left out

- TreapNodes.InsertNode: priorities are arbitrary integers, so the hash that computes them and the expected depth are not modelled.
- ProjectionRefresh.IncrementalProjectionIndex.AdjustDistributions: the six named trees of the source are one list of six, in the same order.
- ProjectionRefresh.IncrementalProjectionIndex.constructor: the tree of command durations and the context high-water mark are kept beside the index, by `ExtendDistribution` and `RaiseHighWater`.
- ProjectionRefresh.RaiseHighWater: ratios are exact reals and the initial mark is zero.
- Projection.NativeTerminalProjection.Feed: the screen is an abstract state with a text and an instruction operation; the terminal emulator's drawing is not modelled.
- Screen.NativeTerminalScreen.Resize: tab stops, dirty rows and saved cursors are not modelled; a row is its used cells in column order.
- Steering.ContextThresholdSteeringController.FinishDispatch: ids are integers and the dispatch itself is its outcome.
- ObserverReducer.ObserverStateProducer.StartWork: correlation records are values in a dictionary rather than shared objects; the active-turn reader is its answer; the root thread is bound from the start.
- ObserverReducer.ObserverStateProducer.RememberAgentActivity: the order of a record's activities is not kept, so the read-only list of activities is left out.
- ObserverReducer.ObserverStateProducer.TakeSnapshot: the encoded size is an arbitrary function of the snapshot, and encoding is the identity.
- ObserverEffects.PostedExactly: an event carries whether its method completes its item and whether its activity kind is an ending one; the spelling of these is not modelled.
- ObserverReducer.ObserverStateConsumer.ConsumeSnapshot: a snapshot already has the right field types; tests on loosely typed dictionaries are left out.
- ObserverStream.PublishedIsGenuine: the final discard of producer state at shutdown is excluded, since it clears the board without a new label.
- Dispatcher.ObserverEventDispatcher.RecordAttempt: retry delays and deadlines are not modelled; an attempt may happen whenever the item was just found current, and an item may be parked at any time.
- SourceReader.AnalyticsSourceReader.Capture: a file is an identity, a stamp and its bytes, taken in one piece; path resolution, ownership tests and a file that changes during the capture are left out.
- SourceReader.AcceptedReadsAreOneRead: an accepted read was prepared against the current cursor, checkpoints are taken to end at a newline, and sub-agent prefixes to have no bare carriage return.
- SourceLines.FilterAnalyzerLines: what a record says about its own position is an outside function; decoding is not modelled.
- DaemonRuntimes.DaemonRuntimeManager.ReserveRuntime: configuration fingerprints are the configurations themselves; canonical endpoint paths are not checked.
- DaemonRuntimes.DaemonRuntimeManager.BindTerminal: a descriptor is named by its place in the order of admissions, since numbers are reused.
- DaemonRuntimes.ManagedRuntime.EndService: the runtime service is its end and its failure; readiness, wake-up callbacks and process receipts are left out.
- CoordinatorWorker.SharedAnalyticsCoordinator.SelectWork: entries are values in a dictionary rather than shared objects; ids are compared by rank; retirement outcomes are recorded with the selection and all kept, without the limit of 1024.
- CoordinatorProofs.RunConsistent: the cleanup after an unexpected failure of the worker thread, which records every remaining entry as incomplete, is left out.
- Closure.Close: one method stands for the two loops, which differ in how they treat a candidate without a parent.
- Recovery.RunWithinBudget: times are exact reals and an attempt never ends before it begins.
- Sockets, descriptors as operating-system objects, tmux, file locks and process checks: only ownership and outcomes appear.
- Registry calls, the protocol log analyzer, observer rendering, menus, help text and status presentation: outside functions or user interface.
- `src/rodex/primary_thread_binding.py`, the command-line classifiers, command policy and observer projection: they would only add easy members.
- `AnalyticsRolloutWorker.poll_once` beyond its recovery gate: it is made of calls into code that is not modelled.
