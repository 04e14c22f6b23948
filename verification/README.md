# Verified models of the actor folds

The library is a set of deterministic actor folds: a state and one event give explicit actions and
the next state. This project models the folds whose correctness needs more than one branch to see,
and proves what they promise over every input, every run and every interleaving. Objects that the
library updates in place are classes whose methods are proved against specification functions;
the laws are then lemmas about those functions and about whole runs of them.

`dafny verify dfyconfig.toml` checks everything.

| module | what it covers |
|---|---|
| `ShutdownTopology` | plan validation; compiling a dependency graph into layers |
| `ShutdownCoordinator` | the phased coordinator, and safety and progress of its runs |
| `HeterogeneousShutdown` | the coordinator over a tagged sum of targets, as a refinement |
| `ChildShutdownPlan` | deriving the plan from creation results that arrive in any order |
| `Interpretation`, `InterpretationLaws`, `CustodyRuns`, `CustodyLedger`, `ReplyLane` | interruptible effect interpretation with custody |
| `Observation` | the exact-incarnation termination monitor and its host |
| `Machine`, `MachineReplay`, `MachineOrder` | the finite-state actor with a deferred queue, checked against its phase function, and when it replays in arrival order |
| `Cache`, `CacheRecency`, `CircuitBreaker`, `BreakerOutcomes`, `Presence`, `PresenceOutcomes`, `Sequencer`, `PriorityQueue`, `Deduplicator` | folds with a law over whole runs, and every outcome told by the history |
| `MutationGate`, `MutationCheck`, `OrderedKeys` | the mutation-campaign verdict tool, and the key order it traverses |
| `Base` | options, results and sequences |

## Reading the model

- Routes and recipients are opaque labels, sends are sequences, and 32-bit and 64-bit bounds are
  explicit wherever running out of numbers is part of the behaviour.
- The environment is a parameter. A run takes an arbitrary sequence of events; an await takes an
  entry of a script that says which of the four shapes of (input, reply) it leaves and whether the
  future was dropped there; the timer service and the observation host are steps of a state machine.
- Identity of a shared allocation (`Arc::ptr_eq`) is equality of an identity number.
- User callbacks are total pure functions and clones are faithful copies.

Where a tempting law does not hold, the model keeps the code and says what does hold:

- Breaker generations restart at zero with every opening from a closed circuit. When each reset request
  is delivered at most once every timer fact belongs to the current opening (`TimersAreCurrent`); with a
  second copy of one fact that fails (`SecondCopyEndsLaterOpening`), and `CopyEndsOpeningExactly` says
  exactly when, over runs with any number of copies.
- A smaller cache is a subsequence of a larger one fed the same commands, but not always a suffix
  (`NotAlwaysSuffix`); it is one at every moment exactly when no get is missed by the smaller, non-empty
  cache and hit by the larger (`SuffixKeptExactly` for one command, `SuffixExactly` for runs).
- A drain does not always replay in arrival order: what was deferred goes behind the rest of the batch
  (`LaterMessageOvertakes`). It does exactly when no change of phase finds both deferred messages and a
  rest of the batch (`DrainInOrderExactly` for one drain, `RunInOrderExactly` for runs).
- A collector whose creations share an ID never reports a plan, and stays collecting with one position
  that cannot be committed (`ReportedOnce`).
- Two mutants of different files can share a tally key (`KeysCanCollide`), but not where file names hold no
  colon (`KeySeparates`).
- The actor may stop before its children have (`WrappedBehaviorStopsFirst`): exactly when a delegated turn
  of the wrapped behavior stops it (`StopsEarlyExactly`). The coordinator's own verdict never does.

Where an object updates its fields in place, its methods without a loop are proved equal to the
specification function of the turn; the table lists the methods whose shape differs from it, and the
laws of those functions. For each of them one law tells every reply and every next state from the history
of the run alone (the members whose names end in `Exactly`, and `CustodyIsLedger`, `TurnVouched` and
`RunIsServed`), so that the specification is pinned by something other than itself.

## Model

| member | source | states |
|---|---|---|
| `ShutdownTopology.NewPlan` | crates/actors/src/lifecycle/shutdown_coordinator.rs:24-39 | Accepts exactly the plans with non-empty phases and globally distinct children, unchanged; otherwise reports the first defect in reading order |
| `ShutdownTopology.DefectInvalidates` | crates/actors/src/lifecycle/shutdown_coordinator.rs:24-39 | A reported first defect really makes the whole plan invalid |
| `ShutdownTopology.NewTree` | crates/actors/src/lifecycle/shutdown_coordinator.rs:69-111 | Terminates; succeeds iff nodes are distinct, edges closed and the graph has no cycle; answers Cycle iff distinct, closed and a real cycle exists; on success the phases are a valid plan, partition the nodes in declaration order, put every dependent strictly before its dependency, and each phase index is the longest chain of dependents; other errors name the first duplicate or unknown node |
| `ShutdownTopology.PeeledIsLayered` | crates/actors/src/lifecycle/shutdown_coordinator.rs:91-110 | Repeatedly taking off the nodes without remaining dependents until none are left gives a layered plan and shows the graph acyclic |
| `ShutdownTopology.StuckHasCycle` | crates/actors/src/lifecycle/shutdown_coordinator.rs:91-110 | When nodes remain but none is free, the edges contain a closed chain |
| `ShutdownTopology.FewestPhases` | crates/actors/src/lifecycle/shutdown_coordinator.rs:91-110 | No plan that respects the same edges has fewer phases than the compiled one |
| `ShutdownCoordinator.StepWellFormed` | crates/actors/src/lifecycle/shutdown_coordinator.rs:1221-1310 | Every event keeps a valid plan, a phase inside it, and a non-empty set of awaited children of that phase |
| `ShutdownCoordinator.RunAccounted` | crates/actors/src/lifecycle/shutdown_coordinator.rs:1221-1310 | Over every run: what was requested is exactly the plan up to the current phase, and requested children are stopped or awaited, each once |
| `ShutdownCoordinator.PhasedShutdown` | crates/actors/src/lifecycle/shutdown_coordinator.rs:1221-1310 | Over every run: requests are a prefix of the plan and distinct, stops are accepted only for requested children and once, and the own stop verdict comes at most once, exactly on completion, after every child stopped |
| `ShutdownCoordinator.HistoryDecides` | crates/actors/src/lifecycle/shutdown_coordinator.rs:1242-1270 | Over every run: the first plan stays, and whether a plan and a shutdown request have come decides exactly whether the coordinator is waiting, ready, or stopping and completed |
| `ShutdownCoordinator.ReactsExactly` | crates/actors/src/lifecycle/shutdown_coordinator.rs:1358-1396 | Over every run and for every event: a later plan is returned whole, a child's stop or rejection is taken as expected iff the child was asked to stop and has not, each refusal names its fact, a delegated verdict passes through, and a refusal changes nothing |
| `ShutdownCoordinator.DependencyOrder` | crates/actors/src/lifecycle/shutdown_coordinator.rs:1272-1300 | In every accounted run over a plan that respects an edge, the dependency is requested only after the dependent's stop was accepted |
| `ShutdownCoordinator.CompiledShutdown` | crates/actors/src/lifecycle/shutdown_coordinator.rs:69-111 | End to end, for every closed topology, compiled plan and event sequence: dependents stop before a dependency is requested, no child is requested twice, and the stop verdict comes at most once and after all nodes stopped |
| `ShutdownCoordinator.StopsEarlyExactly` | crates/actors/src/lifecycle/shutdown_coordinator.rs:1358-1396 | Over every run: the actor stops before its shutdown is complete iff a delegated turn of the wrapped behavior stops it; on completion every child of the plan has stopped |
| `ShutdownCoordinator.WrappedBehaviorStopsFirst` | crates/actors/src/lifecycle/shutdown_coordinator.rs:1392-1396 | A concrete run in which the wrapped behavior stops the actor while a child is still awaited |
| `ShutdownCoordinator.PlanAndRequestCommute` | crates/actors/src/lifecycle/shutdown_coordinator.rs:1242-1270 | Plan then request, and request then plan, reach the same state with the same emissions and verdicts |
| `ShutdownCoordinator.StopsComplete` | crates/actors/src/lifecycle/shutdown_coordinator.rs:1272-1300 | From every well-formed stopping state, reports for the outstanding children in plan order complete the shutdown |
| `HeterogeneousShutdown.TargetAt` | crates/actors/src/lifecycle/shutdown_coordinator.rs:212-228 | The target built for a position keeps the creation ID and selects exactly that position |
| `HeterogeneousShutdown.NewHeterogeneousPlan` | crates/actors/src/lifecycle/shutdown_coordinator.rs:611-629 | Validation across all protocol lanes is exactly validation of the plan erased to creation IDs, with the same first defect |
| `HeterogeneousShutdown.StepRefines` | crates/actors/src/lifecycle/shutdown_coordinator.rs:1454-1560 | Erasing targets maps every turn, with its requests, verdict or refusal, to the homogeneous turn |
| `HeterogeneousShutdown.RunRefines` | crates/actors/src/lifecycle/shutdown_coordinator.rs:1606-1646 | Erasing targets maps every run, with all its reactions, to the homogeneous run |
| `HeterogeneousShutdown.TraceIsRun` | crates/actors/src/lifecycle/shutdown_coordinator.rs:1358-1396 | The requests, accepted stops and stop verdicts read off the reactions of a homogeneous run are exactly those its accounting records |
| `HeterogeneousShutdown.TargetRunIsRun` | crates/actors/src/lifecycle/shutdown_coordinator.rs:1606-1646 | State, requests, accepted stops and stop verdicts of a heterogeneous run are those of the homogeneous run of its erasure |
| `HeterogeneousShutdown.TargetRunAccounted` | crates/actors/src/lifecycle/shutdown_coordinator.rs:1606-1646 | Over every heterogeneous run: no creation ID is asked to stop twice, in whatever lanes, only asked children are accepted as stopped, and the own stop verdict comes at most once, exactly on completion, after every asked child stopped |
| `HeterogeneousShutdown.RequestsFollowPlan` | crates/actors/src/lifecycle/shutdown_coordinator.rs:1454-1489 | Over every run, for any plan: the targets requested, protocol lanes included, are a prefix of the first plan in plan order, and all of it on completion |
| `HeterogeneousShutdown.OwnLane` | crates/actors/src/lifecycle/shutdown_coordinator.rs:1454-1489 | Over every run of a valid plan each creation ID is requested on exactly the protocol lane its plan gives it |
| `HeterogeneousShutdown.TargetReactsExactly` | crates/actors/src/lifecycle/shutdown_coordinator.rs:1606-1646 | The exact reactions over targets: a later plan is returned with its lanes, and stops and rejections are judged by what was asked and has stopped |
| `HeterogeneousShutdown.TargetCompiledShutdown` | crates/actors/src/lifecycle/shutdown_coordinator.rs:1454-1560 | End to end over protocol lanes, for every closed topology, compiled plan and event sequence: dependents stop before a dependency is requested, no child is requested twice, and the stop verdict comes at most once and after all nodes stopped |
| `HeterogeneousShutdown.TargetPlanAndRequestCommute` | crates/actors/src/lifecycle/shutdown_coordinator.rs:1492-1520 | Plan and request commute over targets too: same state, same list of reactions |
| `ChildShutdownPlan.AssignAt` | crates/actors/src/lifecycle/child_shutdown.rs:750-777 | A role can be assigned exactly when it exists and is unassigned, and nothing else changes |
| `ChildShutdownPlan.FinishedDeclaration` | crates/actors/src/lifecycle/child_shutdown.rs:750-777 | A declaration can be finished iff it names every role exactly once |
| `ChildShutdownPlan.PlanCollector.WrapInitialization` | crates/actors/src/lifecycle/child_shutdown.rs:1153-1203 | Without children the empty plan is reported at once, or the earliest declared role is reported as not established; otherwise it succeeds iff every position is requested exactly once, awaiting exactly those requests, and else names the first request out of range or repeated, or the first position without one, and changes nothing |
| `ChildShutdownPlan.PlanCollector.CreationResolved` | crates/actors/src/lifecycle/child_shutdown.rs:1215-1280 | Only the awaited, accepted result is committed; everything else is returned with what was expected and the state is unchanged |
| `ChildShutdownPlan.BuildDeclared` | crates/actors/src/lifecycle/child_shutdown.rs:1059-1084 | With every child established the built plan is the declared one: one singleton phase per role, in declaration order |
| `ChildShutdownPlan.DeclaredValid` | crates/actors/src/lifecycle/child_shutdown.rs:1059-1084 | Validation of the declared plan fails exactly when two creations share an ID |
| `ChildShutdownPlan.TracksAlways` | crates/actors/src/lifecycle/child_shutdown.rs:1215-1280 | For every sequence of arrivals, exactly the arrived positions are established, or the one plan is reported, or a shared ID leaves one last position uncommitted |
| `ChildShutdownPlan.ReportedOnce` | crates/actors/src/lifecycle/child_shutdown.rs:1215-1280 | For every arrival order, mixed with wrong, stale and rejected results, the declared plan is reported exactly once, as soon as every child arrived, iff no two creations share an ID |
| `ChildShutdownPlan.StandsAlways` | crates/actors/src/lifecycle/child_shutdown.rs:1215-1280 | For every arrival sequence exactly the committed positions are established, and the plan is reported iff all are |
| `ChildShutdownPlan.ResolvesExactly` | crates/actors/src/lifecycle/child_shutdown.rs:1215-1280 | For every arrival sequence and every further result: the reaction is exactly the one the requests and the committed positions call for, each refusal naming what was expected, and only a committed result changes the collector |
| `ChildShutdownPlan.RolesStopInDeclarationOrder` | crates/actors/src/lifecycle/child_shutdown.rs:1059-1084 | Collector and coordinator composed: for every arrival order and every event sequence whose plans are the collector's reports, a role's child is requested only after the children of all earlier roles were accepted as stopped |
| `ChildShutdownPlan.RolesOnOwnLanes` | crates/actors/src/lifecycle/child_shutdown.rs:1059-1084 | Collector and coordinator composed: every target requested is a role's own child on that role's own protocol lane |
| `InterpretationLaws.ScanConcat` | crates/actors/src/composition/delivery_route.rs:564-609 | Traversing a concatenation is traversing the first part and, only when that ends clean, the second |
| `InterpretationLaws.InterpretSimulates` | crates/behavior-macros/src/lib.rs:534-582 | One call of interpret on any resumable tree of lanes offers, settles, halts and is dropped exactly as the traversal of its flattened rows |
| `InterpretationLaws.FieldsSimulate` | crates/actors/src/lifecycle/shutdown_coordinator.rs:677-847 | The same for a list of lanes in authored order: the first corrupt one leaves all later ones unattempted |
| `InterpretationLaws.NestingIsInvisible` | crates/behavior-macros/src/lib.rs:840-921 | For every tree, every answers and every sequence of interrupted and resumed calls: the same offers in the same order, the same custody row by row and the same verdict as one flat reply lane of its items |
| `InterpretationLaws.RunProgresses` | crates/actors/src/composition/delivery_route.rs:372-459 | Over every run, custody is a cleanly settled prefix, at most one row in flight and the original suffix, with routes kept |
| `InterpretationLaws.CompletedShape` | crates/actors/src/composition/delivery_route.rs:372-459 | A completed interpretation keeps length, order and route tags; it is corrupt iff a first corrupt row exists, everything before it is clean and everything after it is the untouched original |
| `CustodyRuns.OfferedFresh` | crates/actors/src/composition/delivery_route.rs:564-609 | A call offers only rows with their input and no reply, each at most once, in order, with exactly that input |
| `CustodyRuns.CallsAreScans` | crates/actors/src/composition/delivery_route.rs:564-609 | Custody after any calls on any tree is that of as many traversals of its flat list of items |
| `CustodyRuns.NeverOfferedAgain` | crates/actors/src/composition/delivery_route.rs:564-609 | Over every sequence of interrupted and resumed calls on any tree of lanes: once an item's input was taken or answered its custody never changes and no later call offers it |
| `CustodyRuns.UntriedIsOriginal` | crates/actors/src/composition/delivery_route.rs:461-485 | Over every run an item no call has offered is exactly as it was given |
| `CustodyRuns.OfferedInOrder` | crates/actors/src/composition/delivery_route.rs:564-609 | Over every run of calls on every tree: items are offered in authored order, under their own routes, and the first time with the item that was given |
| `CustodyRuns.CompletesExactly` | crates/actors/src/composition/delivery_route.rs:372-459 | After any calls, a call that is not dropped completes iff every item is cleanly settled, or everything up to a corrupt one is and the rest untouched, and is corrupt exactly in the second case |
| `CustodyLedger.AnswerIsLeft` | crates/actors/src/composition/delivery_route.rs:576-599 | The row at the j-th offered position of a call ends with exactly the input and reply the j-th await left, under its own route |
| `CustodyLedger.CustodyIsLedger` | crates/actors/src/composition/delivery_route.rs:564-609 | Over every run of calls on every tree, custody is exactly what the given items and the awaits' answers say, the last answer for an item deciding |
| `CustodyLedger.TakenNeverOfferedAgain` | crates/actors/src/composition/delivery_route.rs:576-583 | Over every run: once an answer left an item without its input or with a reply, no later await offers the item again |
| `CustodyLedger.OffersAreLogged` | crates/actors/src/composition/delivery_route.rs:564-609 | Over every run each offer is the item's own route with the input the ledger of answers still holds for it |
| `InterpretationLaws.SkipOriginal` | crates/actors/src/lifecycle/shutdown_coordinator.rs:520-556 | Settling an untouched lane as unattempted completes it without corruption and keeps every item as it was |
| `InterpretationLaws.SkipKeeps` | crates/actors/src/lifecycle/shutdown_coordinator.rs:520-556 | Settling as unattempted changes no item's custody, however far a lane had come |
| `ReplyLane.ReplyDeliveries.FinishInterpretation` | crates/actors/src/composition/delivery_route.rs:372-459 | Completes the lane exactly when rows up to the first corruption are settled and the rest untouched; the branch that would restore a half-settled lane is unreachable |
| `ReplyLane.ReplyDeliveries.OfferRows` | crates/actors/src/composition/delivery_route.rs:564-609 | The row loop leaves the rows, offers and end that the traversal specifies, whatever each await leaves and wherever the future is dropped |
| `ReplyLane.ReplyDeliveries.Interpret` | crates/actors/src/composition/delivery_route.rs:564-609 | Preparing, looping over the rows and finishing on the one progress slot is one call as specified |
| `Observation.IntoRejectedObserve` | crates/actors/src/lifecycle/termination_monitor.rs:237-248 | Recovers the rejected request with its reason exactly in the rejected state and otherwise gives the target back whole |
| `Observation.IntoRejectedCancel` | crates/actors/src/lifecycle/termination_monitor.rs:250-262 | Recovers the rejected cancellation with its reason exactly in the two states that own one and otherwise gives the target back whole |
| `Observation.AtMostOnce` | crates/actors/src/lifecycle/termination_monitor.rs:264-388 | Against any host, with forged or repeated reports: at most one request and one cancellation leave the monitor, both its own, and the reaction runs at most once, for a stop of that very incarnation |
| `Observation.TakenExactly` | crates/actors/src/lifecycle/termination_monitor.rs:300-388 | In every state any host can bring about: a report is taken iff it is waited for, names the monitor's own incarnation and has the fitting reason; a stop taken runs the reaction with that report, anything else is returned whole and changes nothing |
| `Observation.HandsOutExactly` | crates/actors/src/lifecycle/termination_monitor.rs:225-275 | In every such state the request is handed out iff it was not before, the cancellation iff observing, and otherwise nothing changes |
| `Observation.ReachableConsistent` | crates/actors/src/protocol/established.rs:336-360 | In every interleaving with the described host, monitor, registration and reports in flight fit together |
| `Observation.NoReportRefused` | crates/actors/src/lifecycle/termination_monitor.rs:300-388 | In every interleaving no report the host can deliver is refused, including a stop and a rejected cancellation in either order |
| `Observation.PermissionInOnePlace` | crates/actors/src/protocol/established.rs:336-360 | The request or the permission it became is in exactly one place until the stop or the cancellation discharges it |
| `Observation.NeverStranded` | crates/actors/src/lifecycle/termination_monitor.rs:157-172 | When nothing is in flight the monitor is idle, observing a registered peer, or in a terminal state |
| `Machine.MachineActor.DrainHeld` | crates/actors/src/machine.rs:126-146 | The refilling loop terminates for every phase function and computes the specified replay |
| `Machine.MachineActor.Transition` | crates/actors/src/machine.rs:175-192 | A turn commits the specified result; an error, even deep in the drain, leaves the whole machine unchanged and returns the message |
| `Machine.DrainConserves` | crates/actors/src/machine.rs:126-146 | Every message of a drain is consumed exactly once or still held |
| `Machine.TurnConserves` | crates/actors/src/machine.rs:175-192 | Every message of a successful turn is consumed exactly once or still held; a failed turn changes nothing |
| `Machine.ExplainedDrain` | crates/actors/src/machine.rs:126-146 | After a drain the held messages are those deferred since the last change of phase, followed, only after a stop, by the untried rest of the batch |
| `Machine.HeldWasDeferred` | crates/actors/src/machine.rs:106-146 | In every reachable state, each held message's last verdict was Defer in the current phase, in order |
| `MachineReplay.DrainVouched` | crates/actors/src/machine.rs:106-146 | Every drain, for every phase function: asking the phase function again verdict by verdict gives the recorded moves and ends in the drain's phase and state; messages are tried in the order of work, it stops exactly at a Halt and fails exactly where the phase function fails on the next message |
| `MachineReplay.TurnVouched` | crates/actors/src/machine.rs:175-192 | The same of every turn: what is committed is the replayed phase and state and the held queue the order of work leaves; a failed turn changes nothing |
| `MachineReplay.RunReplays` | crates/actors/src/machine.rs:175-192 | Over every run, replaying all committed verdicts through the phase function ends in exactly the machine's phase and state |
| `MachineOrder.DrainInOrderExactly` | crates/actors/src/machine.rs:126-146 | For messages numbered by arrival, every batch a drain replays is in arrival order iff no change of phase finds both deferred messages and a rest of the batch |
| `MachineOrder.RunInOrderExactly` | crates/actors/src/machine.rs:106-146 | Over every run from an empty queue, everything replayed is replayed in arrival order iff no drain of the run changes phase with messages deferred and a rest to come |
| `MachineOrder.RunKeepsOrder` | crates/actors/src/machine.rs:126-146 | Over every such run the held messages stay in arrival order and before the next message |
| `MachineOrder.LaterMessageOvertakes` | crates/actors/src/machine.rs:138 | A concrete drain of messages 1, 2, 3 that ends holding 3 before 1 |
| `Cache.LruCache.Transition` | crates/actors/src/persistence/cache.rs:212-284 | Put, get and remove on the entry vector equal the specification and keep keys distinct and the size within capacity |
| `Cache.StepSound` | crates/actors/src/persistence/cache.rs:212-284 | Every command keeps keys distinct and the number of entries within capacity |
| `Cache.IncludedPut` | crates/actors/src/persistence/cache.rs:212-242 | A put keeps inclusion and the bound on the size gap, in all combinations of replacing and evicting |
| `Cache.IncludedGet` | crates/actors/src/persistence/cache.rs:244-262 | A get keeps inclusion although one cache may refresh and the other miss, and a hit of the smaller is the same hit in the larger |
| `Cache.IncludedRemove` | crates/actors/src/persistence/cache.rs:263-284 | A remove keeps inclusion and the bound on the size gap |
| `Cache.IncludedAlways` | crates/actors/src/persistence/cache.rs:212-284 | Caches of capacities n <= m fed the same commands: the smaller one's entries are always a subsequence of the larger one's, and the size gap is at most m - n |
| `Cache.HitsIncluded` | crates/actors/src/persistence/cache.rs:244-262 | After any commands every hit of the smaller cache is the same hit, with the same value, in the larger |
| `CacheRecency.RunIsServed` | crates/actors/src/persistence/cache.rs:212-284 | Over every run a plain map with times of last use gives every reply of the cache, evicting the least recently used key iff a new key meets a full cache, and the entries are always that map's in the order of last use |
| `CacheRecency.ServesStep` | crates/actors/src/persistence/cache.rs:212-284 | One command from entries that represent such a map: the same reply, and entries that represent the map it becomes |
| `Cache.SuffixKeptExactly` | crates/actors/src/persistence/cache.rs:212-284 | From caches in suffix relation, one command keeps it iff it is not a get that a non-empty smaller cache misses and the larger one hits |
| `Cache.SuffixExactly` | crates/actors/src/persistence/cache.rs:244-262 | Over every run the smaller cache is a suffix of the larger one at every moment iff no such get occurs |
| `Cache.NotAlwaysSuffix` | crates/actors/src/persistence/cache.rs:244-262 | A concrete run, two puts and a get of the older key, after which capacity one is not a suffix of capacity two |
| `CircuitBreaker.BreakerActor.CompleteAttempt` | crates/actors/src/routing/circuit_breaker.rs:275-341 | Only the owned attempt completes; a success closes, a failure counts up to the threshold or reopens with the next generation, and exhaustion is typed |
| `CircuitBreaker.CountedAlways` | crates/actors/src/routing/circuit_breaker.rs:217-341 | Over every run, whatever timer facts arrive: attempts and completions are numbered and matched, a closed breaker holds the trailing failure count, and a generation is the number of failures in a row beyond the threshold |
| `CircuitBreaker.CurrentAlways` | crates/actors/src/routing/circuit_breaker.rs:376-399 | Over every run in which each reset request is delivered at most once: an unfired timer exists only while open and is the current opening's |
| `CircuitBreaker.SingleFlight` | crates/actors/src/routing/circuit_breaker.rs:217-341 | Over every run, whatever timer facts arrive: attempts strictly increase, at most one is in flight, each completes at most once and in order, and a closed breaker holds the exact trailing failure count, below the threshold |
| `CircuitBreaker.TimersAreCurrent` | crates/actors/src/routing/circuit_breaker.rs:376-399 | When each request is delivered at most once, every timer fact that can still be delivered belongs to the current opening and makes its probe available |
| `CircuitBreaker.SecondCopyEndsLaterOpening` | crates/actors/src/routing/circuit_breaker.rs:318-321 | Generations restart: a second copy of the first opening's fact would end the second opening |
| `CircuitBreaker.CopyEndsOpeningExactly` | crates/actors/src/routing/circuit_breaker.rs:376-399 | Over every run with any number of repeated, late or invented facts: a further fact of an opening ends an opening iff the breaker is then open with as many failures in a row as at that opening, and is inert otherwise |
| `BreakerOutcomes.CompletesExactly` | crates/actors/src/routing/circuit_breaker.rs:275-341 | Over every run: a completion is returned unchanged unless it is the attempt in flight; then a success closes, and a failure is counted, opens with the failures beyond the threshold as generation, or exhausts past the 64-bit maximum, answered to the route that asked |
| `BreakerOutcomes.AdmitsExactly` | crates/actors/src/routing/circuit_breaker.rs:217-273 | Over every run: a request is refused as busy iff an attempt is in flight, as open with the current generation while open, as exhausted iff numbers ran out, and else admitted with the next attempt, as a probe iff the failures in a row reached the threshold |
| `BreakerOutcomes.SparedAlways` | crates/actors/src/routing/circuit_breaker.rs:217-341 | Over every run exhaustion comes only when every attempt was handed out or the last 64-bit generation failed |
| `Presence.Latest` | crates/actors/src/discovery/presence.rs:255-267 | The greatest generation among all records on a timer key, tombstones included, or none |
| `Presence.AnnounceCommits` | crates/actors/src/discovery/presence.rs:268-423 | An announcement changes nothing or writes one record with a newer version and a generation above every one on its key, while no other participant is live there |
| `Presence.KeptAlways` | crates/actors/src/discovery/presence.rs:255-423 | Every run keeps the table keyed, one participant live per key, schedules increasing, and expirations scheduled, unique and gone |
| `Presence.GenerationSafety` | crates/actors/src/discovery/presence.rs:255-423 | Over every run with delayed, duplicated, reordered or invented timer facts: scheduled generations strictly increase per key across participants and tombstones, and each Expired fact is exactly one scheduled expiry, of the incarnation that scheduled it, at most once |
| `Presence.VersionsNeverDecrease` | crates/actors/src/discovery/presence.rs:344-423 | Between any two moments of a run no record disappears, moves, or falls back in version or generation |
| `PresenceOutcomes.ExpiresExactly` | crates/actors/src/discovery/presence.rs:470-494 | Over every run: a timer fact expires a record iff one is live on its key with its generation; that one becomes a tombstone of the same evidence, notified on its route, nothing else changes, and any other fact is inert |
| `PresenceOutcomes.AnnouncesExactly` | crates/actors/src/discovery/presence.rs:268-423 | Over every run: an announcement is refused with the participant live on its key if another one is; else its own record makes it stale, idempotent or conflicting; else it is committed with the successor of every generation on the key, or refused as exhausted |
| `PresenceOutcomes.RecordsAreLastCommitted` | crates/actors/src/discovery/presence.rs:302-423 | Over every run each record is what its participant last committed: version, lifetime while live, and the route of that announcement |
| `Sequencer.SequencerActor.ReleaseContiguous` | crates/actors/src/routing/sequencer.rs:219-232 | The release loop delivers the contiguous run at the cursor and stops at the gap or, without wrapping, after the last position |
| `Sequencer.DeliversFirstOffers` | crates/actors/src/routing/sequencer.rs:189-238 | Over every run: what was delivered is exactly the first offers at first, first + 1, ... up to the gap, the gap is the expected position, and the buffer is what lies beyond it |
| `Sequencer.AcceptedOncePerPosition` | crates/actors/src/routing/sequencer.rs:189-217 | After any run an offer is accepted iff its position is not before the first one and was never offered |
| `Sequencer.OutcomesExactly` | crates/actors/src/routing/sequencer.rs:189-238 | After any run: exhausted iff every position was delivered, stale with the gap iff before it, duplicate iff offered before, else accepted with exactly the newly delivered and still buffered counts |
| `Sequencer.StreamContents` | crates/actors/src/routing/sequencer.rs:221-232 | The stream from a position holds exactly the values at consecutive positions and ends at a gap or the last position |
| `Sequencer.BufferBeyondExpected` | crates/actors/src/routing/sequencer.rs:131-138 | In every reachable state the expected position is not buffered, buffered ones lie beyond it, and exhaustion means an empty buffer and every position delivered |
| `Sequencer.OrderDoesNotMatter` | crates/actors/src/routing/sequencer.rs:189-238 | Any two orders of the same offers with distinct positions deliver the same stream and reach the same state |
| `PriorityQueue.TopIsAhead` | crates/actors/src/routing/priority_queue.rs:112-118 | The entry taken has the greatest priority and, among equals, the smallest token |
| `PriorityQueue.KeptAlways` | crates/actors/src/routing/priority_queue.rs:189-227 | Every run keeps the depth within capacity, tokens counting acceptances, the multiset of accepted entries, and stability |
| `PriorityQueue.StableOverRuns` | crates/actors/src/routing/priority_queue.rs:112-118 | Over every run, for every total order: nothing is lost or duplicated, tokens are distinct through exhaustion, and an entry accepted earlier with at least the priority of a released one was released before it |
| `PriorityQueue.OffersExactly` | crates/actors/src/routing/priority_queue.rs:189-227 | Over every run: an offer is Full iff as many values wait as fit, else exhausted iff every token was spent, else accepted with the next token and the new depth |
| `PriorityQueue.ReleasesExactly` | crates/actors/src/routing/priority_queue.rs:276-287 | Over every run: a release is Empty iff nothing waits, and else delivers the waiting entry ahead of every other waiting one and the number that remain |
| `PriorityQueue.DrainIsStableSort` | crates/actors/src/routing/priority_queue.rs:276-287 | From every reachable state draining yields the stable insertion sort, by priority alone, of the queue in acceptance order |
| `PriorityQueue.DrainingDeliversStableSort` | crates/actors/src/routing/priority_queue.rs:276-287 | After any run, that many release commands empty the queue and deliver exactly that stable sort |
| `Deduplicator.WindowAlways` | crates/actors/src/routing/deduplicator.rs:172-196 | Over every run the retained keys are exactly the last min(capacity, delivered) delivered keys, in order |
| `Deduplicator.Separated` | crates/actors/src/routing/deduplicator.rs:172-196 | Two deliveries of one key are separated by capacity consecutive deliveries of pairwise distinct other keys |
| `Deduplicator.DeliveredExactly` | crates/actors/src/routing/deduplicator.rs:172-196 | An attempt is delivered iff its key is not among the last capacity delivered ones; a duplicate changes nothing, and a delivery evicts exactly the key delivered capacity ago |
| `MutationGate.ComputeTallies` | crates/mutants-gate/src/main.rs:77-105 | Succeeds iff no mutant outcome is a success or failure; each key's tally is the four counts over all outcomes at that key; otherwise names the first offender |
| `MutationGate.KeySeparates` | crates/mutants-gate/src/main.rs:65-70 | Where file names hold no colon, mutants share a key iff they share file and function, a mutant outside functions counting as the module |
| `MutationGate.KeysCanCollide` | crates/mutants-gate/src/main.rs:65-70 | A concrete collision when a file name holds a colon pair |
| `MutationGate.CampaignTallies` | crates/mutants-gate/src/main.rs:107-152 | Succeeds iff there is one successful baseline, some candidate, distinct names on both sides, matching identities and full coverage; otherwise reports the first defect, in the order baseline, candidates, outcomes one by one, least missing name, summaries |
| `MutationGate.CleanExactly` | crates/mutants-gate/src/main.rs:111-119 | The baseline is clean iff exactly one outcome is unmutated and that one succeeded |
| `MutationGate.MatchOutcomes` | crates/mutants-gate/src/main.rs:133-147 | Every outcome answers a candidate once, or the first one that does not is reported as unknown, mismatched or repeated, in that order |
| `OrderedKeys.InOrder` | crates/mutants-gate/src/main.rs:148-150 | The traversal of an ordered map or set: each key once, in ascending order |
| `OrderedKeys.LessExactly` | crates/mutants-gate/src/main.rs:148-150 | Key order is decided by the first place where two keys differ |
| `MutationGate.DefectRefutesCampaign` | crates/mutants-gate/src/main.rs:107-152 | Each reported defect really rules the campaign out |
| `MutationCheck.OutcomesAreCandidates` | crates/mutants-gate/src/main.rs:107-152 | The mutant outcomes of an accepted campaign are its candidates, each exactly once |
| `MutationCheck.TotalsAreCandidateCounts` | crates/mutants-gate/src/main.rs:77-152 | Each key's total is the number of candidates at that key |
| `MutationCheck.CertifyCaughtLogs` | crates/mutants-gate/src/main.rs:154-190 | Succeeds iff every caught outcome is a mutant's whose log shows a failing test and none that timed out; otherwise reports the first that does not, with its cause |
| `MutationCheck.EmitBaseline` | crates/mutants-gate/src/main.rs:192-211 | Succeeds iff the campaign is accepted and certified; every key becomes a positive floor equal to its viable count, or one known-zero entry, these in key order; otherwise the first defect of the campaign, then of the logs |
| `MutationCheck.Check` | crates/mutants-gate/src/main.rs:213-265 | Passes iff campaign and logs are good and no finding is deserved, and then reports all candidates as the total; otherwise fails with the first campaign defect, else the whole list of findings in order, else the first log defect |
| `MutationCheck.FindingsAreDeserved` | crates/mutants-gate/src/main.rs:220-256 | The ordered list of findings holds exactly those that baseline, candidates and tallies deserve |
| `MutationCheck.TotalIsCandidates` | crates/mutants-gate/src/main.rs:257-258 | The totals of a passing campaign add up to the number of its candidates |
| `MutationCheck.CheckAgainstSeed` | crates/mutants-gate/src/main.rs:192-265 | A campaign passes a baseline seeded by another iff it is clean, certified, covers the same keys, and has no fewer viable mutants at any |
| `MutationCheck.EmitThenCheck` | crates/mutants-gate/src/main.rs:192-265 | A baseline emitted from a campaign passes that campaign iff it has no survivor and no timeout |

## Left out

- Recipients of replies: an outcome is returned to the caller; which route carries it is not modelled, except where a record or phase stores the route.
- The presence query: it only snapshots the records.
- The source-retention filter of settled sends (`prepare_source` and `finish_source`): a filter on settled rows, a one-branch property.
- The empty progress slot (`None`): it exists only while a value is moved within one synchronous step.
- `BinaryHeap`: the queue is a sequence in acceptance order from which the greatest entry is taken; the heap's inner layout is not observable.
- Reset and zero-interval configuration of the breaker, and the capacity check of the cache configuration: constructors take what the configuration types already guarantee.
- The wrapped behavior of both coordinators: a delegated turn is an arbitrary verdict or failure.
- File reading, JSON, log scanning and exit codes of the gate: parsed values, and what looking up each log found, are inputs; the text of messages is not modelled.
- Macro parsing, hygiene and token generation: only the meaning of the generated interpretation is modelled.
- Logical (non-exact) termination monitoring, shutdown wrappers, supervision, registry, resolver, topics, publish-subscribe, tasks, configuration, readiness, health, correlator, acknowledgements, buffer, rate limiter, order gate and watch: their laws follow from one branch or a simple invariant.
- Stash, work queue, router, pools and workflow: not part of this model.
- Clocks, real timers, mailbox scheduling and executors: they appear only as environment steps.
- Panics in callbacks and unfaithful clones.
