# Verified models of the golang-gin-rpc kernel and plugins

A Dafny model of the parts of this Go framework whose correctness is not visible from any one
function: the plugin loader, the circuit breaker, the actor runtime, the buffered audit and alert
pipelines, the config center, and the smaller concurrent cores (single-flight loading, request/reply,
load balancing, the Bloom filter). `dafny verify dfyconfig.toml` checks everything.

How things are modelled:

- A Go type whose methods update its fields is a class with those fields. Each method of the class is
  one critical section of the original, and its contract equates the new state with a function of the
  old one. What the component promises is then proved about those functions.
- Where goroutines interleave, a module also has a `World`, the atomic `Step`s of all participants and
  the function `Next`. `Runs.IsRun` defines runs of such a system, and the theorems speak of every
  moment `run[k]` of every run. Steps are as fine as the locks, atomic operations and channel
  operations of the source. Ghost-like components of a `World` (logs, accepted sequences, clocks) only
  record what happened.
- Map iteration order, the outcome of plugin calls, panics of messages, database errors, handler
  results, hashes and the clock are parameters or free choices, so results hold for all of them.
- Integer width is explicit where it matters: 32-bit breaker counters, 64-bit durations and hashes, the
  64-bit round-robin counter, Bloom filter words.

| module | what it covers |
|---|---|
| `Seqs`, `Sorting`, `Graphs`, `Runs`, `Common` | sequences, the loader's insertion sort, dependency graphs, runs, 64-bit arithmetic |
| `Plugins`, `Registries`, `TopoSort`, `Loader`, `Apps` | registration, dependency lists, topological sort, build, start and stop |
| `CircuitBreakers`, `BreakerRuns` | the breaker, and runs of overlapping requests through it |
| `Mailboxes`, `Supervision`, `ActorSystems` | mailbox and loop, panics and backoff, table of actors and shutdown |
| `BatchSinks`, `AlertManagers` | conservation and order of events and alerts |
| `ConfigCenters`, `ConsulDiffs` | cache coherence, snapshot differ |
| `SingleFlights`, `RequestReplies`, `LoadBalancers`, `BloomFilters` | the smaller cores |

Where the code does not do what its comments or its purpose promise, the code is modelled as it is, a
lemma gives an input or a run that shows the difference, and another says exactly, or as widely as
stated there, when the promise holds:

- The dependency-cycle error lists every plugin that depends on a cycle, not only the plugins on it as
  the comment in `loader.go` says (`Loader.ReportExceedsCycle`, `Graphs.OnlyCycles`).
- Removing repeats and appending soft dependencies write into the slice the plugin handed out; a plugin
  that repeats a hard dependency can find a soft one turned hard (`Plugins.SoftBecomesHard`,
  `Plugins.HardListKept`).
- Starting an application again while it is started calls `Start` on a running plugin
  (`Apps.RestartUnsafe`, `Apps.RunSafety`).
- The first restart delay is never capped, and doubling can overflow before it reaches a large cap
  (`Supervision.BackoffOverflow`, `Supervision.ScheduleExact`).
- `OnGiveUp` is due for every panic beyond the limit, not once, because the actor still drains its
  mailbox (`Supervision.GivesUpTwice`, `Supervision.RestartsPerRun`).
- A message accepted by the mailbox after the loop has exited is never processed
  (`Mailboxes.AcceptedButLost`, `Mailboxes.ProcessedIffAcceptedBeforeExit`,
  `Mailboxes.AcceptedBeforeStopProcessed`).
- A second `Shutdown` returns while actors are still registered
  (`ActorSystems.SecondShutdownReturnsEarly`, `ActorSystems.EmptyAfterShutdown`).
- Closing the audit sink while an insert is in flight returns with events unwritten
  (`BatchSinks.LostOnClose`, `BatchSinks.CloseCompletes`).
- A full alert buffer usually costs the oldest alert, but costs the new one if the buffer is emptied
  between the two selects (`AlertManagers.NewestLost`, `AlertManagers.LostIffEmptied`).
- The config cache can stay stale after a read that overlaps a write, after two writes of one key whose
  events cross, after a Set whose own cache update comes late, and after an event dropped from a full
  channel (`ConfigCenters.StaleFill`, `ConfigCenters.CrossedEvents`, `ConfigCenters.LateUpdate`,
  `ConfigCenters.DroppedEvent`). `ConfigCenters.CoherentIffHarmless` says exactly which runs stay
  coherent.
- Two Consul keys that differ in one extra slash after the prefix become one
  (`ConsulDiffs.ExtractCollides`).
- A reply subscription takes any envelope, whatever its correlation id
  (`RequestReplies.StrayEnvelopeAccepted`, `RequestReplies.ForeignEnvelopeAccepted`;
  `RequestReplies.SoundIffPolite` for when that does no harm).
- Round robin skips a target at counter wrap-around unless the number of targets divides 2^64
  (`LoadBalancers.FairAcrossWrap`).

## Model

| member | source | states |
|---|---|---|
| `Sorting.SortSliceStable` | pkg/kernel/loader.go:328-335 | in place, for any strict weak order: the result is sorted, a permutation, and elements the order cannot tell apart keep their relative order |
| `Sorting.Insert` | pkg/kernel/loader.go:330-334 | one round of the insertion sort extends the sorted prefix and keeps contents and ties |
| `Sorting.StrLessIsStrictWeak` | pkg/kernel/loader.go:337-339 | Go's string order is a strict weak order, so sorting names with it is meaningful |
| `Sorting.StrLessMeaning` | pkg/kernel/loader.go:337-339 | a name stands before another iff it is a proper prefix of it or has the smaller character where the two first differ |
| `Registries.Registry.Register` | pkg/kernel/registry.go:28-45 | the three refusals and their precedence, no change on refusal, and the invariant that order and table list the same distinct non-empty names |
| `Registries.Registry.Plugins` | pkg/kernel/registry.go:55-63 | the plugins in order of registration |
| `Registries.Registry.Reset` | pkg/kernel/registry.go:74-79 | an empty, consistent registry |
| `Registries.Registered` | pkg/kernel/loader.go:122-133 | own plugins first, then the default registry's without the overridden ones; no name twice |
| `Registries.CombinedUnique` | pkg/kernel/loader.go:122-133 | every name of either registry occurs exactly once, and the own plugin wins |
| `Registries.CombinedInOrder` | pkg/kernel/loader.go:122-133 | the own names come first in their order of registration, then the default ones not overridden, in theirs |
| `Plugins.Dedupe` | pkg/kernel/loader.go:305-316 | in place: first occurrences in order at the front, the rest of the slice untouched |
| `Plugins.TwiceIsOnce` | pkg/kernel/loader.go:305-316 | removing repeats from a slice already rewritten that way gives the same names again |
| `Plugins.DistinctInOrder` | pkg/kernel/loader.go:305-316 | names keep the order of their first occurrences |
| `Plugins.CollectDeps` | pkg/kernel/loader.go:173-178 | the effective dependency list, and what the writes leave in the plugin's own slice, also when hard and soft dependencies are the same slice |
| `Plugins.EffectiveDepsMeaning` | pkg/kernel/loader.go:172-178 | that list has no repeats and holds exactly the hard and the present soft dependencies |
| `Plugins.EdgeMeaning` | pkg/kernel/loader.go:171-183 | the sort has an edge for each hard dependency and for each soft one whose plugin takes part, and no other |
| `Plugins.HardListKept` | pkg/kernel/loader.go:173-178 | a sort keeps the plugin's declared hard dependencies, as a set, iff they had no repeats or no soft one was appended |
| `Plugins.SoftBecomesHard` | pkg/kernel/loader.go:173-178 | concrete lists for which a soft dependency is written over a hard one |
| `TopoSort.RankIsPosition` | pkg/kernel/loader.go:164-167 | with distinct names, a plugin's rank is its position in the order of registration |
| `TopoSort.RankInjective` | pkg/kernel/loader.go:164-167 | with distinct names, ranks tell plugins apart |
| `TopoSort.TiesByRegistration` | pkg/kernel/loader.go:191-205 | if the dependencies of a plugin all stand before an earlier position, the plugin at that position was registered before it |
| `TopoSort.CountEdges` | pkg/kernel/loader.go:169-183 | for every map iteration order, in-degrees equal the number of distinct dependencies and the edge lists hold each dependent once |
| `TopoSort.InitialQueue` | pkg/kernel/loader.go:185-190 | the queue lists exactly the plugins without dependencies |
| `TopoSort.Release` | pkg/kernel/loader.go:199-204 | after placing a plugin, in-degrees count the unplaced dependencies again and the queue lists exactly the ready plugins |
| `TopoSort.Drain` | pkg/kernel/loader.go:194-206 | the loop produces a greedy order: each position holds the lowest-ranked plugin whose dependencies all stand earlier, and nothing ready is left |
| `TopoSort.Sort` | pkg/kernel/loader.go:162-220 | succeeds iff the dependency graph is acyclic, then with the greedy order of all plugins; otherwise reports, alphabetically and once each, exactly the plugins that depend on a cycle |
| `Graphs.GreedyIsOrdered` | pkg/kernel/loader.go:161-162 | a greedy order has no repeats and puts every dependency first |
| `Graphs.GreedyUnique` | pkg/kernel/loader.go:161-162 | with distinct ranks there is only one greedy order, so the result does not depend on map iteration |
| `Graphs.LeftoverIsCyclic` | pkg/kernel/loader.go:208-218 | what a finished greedy order leaves out is exactly what depends on a cycle |
| `Graphs.CompleteIffAcyclic` | pkg/kernel/loader.go:208-219 | comparing lengths detects cycles: the order is complete iff there is none |
| `Graphs.OnlyCycles` | pkg/kernel/loader.go:209-217 | the report is just the plugins on cycles iff no plugin off them depends directly on one that is on one |
| `Loader.ConfigureAll` | pkg/kernel/loader.go:66-93 | stops at the first enabled plugin in registration order whose Configure fails; otherwise yields the accepted ones |
| `Loader.ConfiguredMeaning` | pkg/kernel/loader.go:66-93 | a registered plugin takes part iff it is enabled and its Configure accepted, and under its own name |
| `Loader.FindMissing` | pkg/kernel/loader.go:95-103 | finds a hard dependency outside the build iff there is one |
| `Loader.Build` | pkg/kernel/loader.go:63-119 | which of the four mutually exclusive outcomes a build has, and what it then returns |
| `Loader.ConfigureFailedExact` | pkg/kernel/loader.go:66-93 | a build fails in Configure iff a plugin that is not switched off (no toggle, or a true one) fails it; the first such is named |
| `Loader.MissingExact` | pkg/kernel/loader.go:95-103 | otherwise it reports a missing dependency iff a plugin that takes part has a hard dependency of which no plugin takes part; such a pair is named |
| `Loader.BuiltPlugins` | pkg/kernel/loader.go:63-119 | a built application holds exactly the registered plugins that are not switched off and accept, each once |
| `Loader.BuiltInOrder` | pkg/kernel/loader.go:105-118 | every hard dependency, and every soft one that takes part, stands before the plugin that has it |
| `Loader.BuiltTies` | pkg/kernel/loader.go:105-118 | a plugin placed before one that could have stood there was registered before it |
| `Loader.BuildDeterministic` | pkg/kernel/loader.go:63-119 | two builds of the same input agree whatever the map iteration order, except for which missing dependency is named |
| `Loader.ReportExceedsCycle` | pkg/kernel/loader.go:208-217 | two configured plugins, one of which only depends on a cycle and is reported too |
| `Apps.App.Start` | pkg/kernel/loader.go:223-240 | starts in order, and on a failure rolls back what was started |
| `Apps.App.Stop` | pkg/kernel/loader.go:243-247 | the state and the errors of a rollback of everything started |
| `Apps.App.RollbackLocked` | pkg/kernel/loader.go:249-264 | stops from last to first, collects the errors, ends with nothing started |
| `Apps.RollbackReverses` | pkg/kernel/loader.go:249-264 | each started plugin is stopped exactly once, in exact reverse order, whatever the stops return |
| `Apps.StartExact` | pkg/kernel/loader.go:223-240 | Start succeeds iff every plugin's Start does, and has then started all in order; otherwise it has started those before the first failure and stops exactly them, last first |
| `Apps.StopExact` | pkg/kernel/loader.go:243-264 | Stop reports exactly the plugins whose Stop failed, in the order they were stopped, and leaves nothing started |
| `Apps.StartBringsUpAll` | pkg/kernel/loader.go:223-240 | from any state a safe run reaches with nothing started, Start leaves everything running if every plugin's Start succeeds, else nothing |
| `Apps.StopEndsAll` | pkg/kernel/loader.go:243-264 | from any state a safe run reaches, Stop leaves nothing running |
| `Apps.StartInStep` | pkg/kernel/loader.go:223-240 | a start leaves everything running, or, if one plugin fails, nothing |
| `Apps.RunSafety` | pkg/kernel/loader.go:222-264 | over every sequence of Start and Stop: a plugin is started only when it is not running and its dependencies are, and stopped only when it is running and no dependent is, iff every Start is issued with nothing started; then the record of started plugins is what runs. The condition is necessary because of the clause that a running plugin is not started |
| `Apps.RestartUnsafe` | pkg/kernel/loader.go:223-240 | starting while something is started breaks that safety: Start is called on a running plugin |
| `Apps.BuiltAppsAreSafe` | pkg/kernel/loader.go:63-264 | any application a build returns is safe in every alternating run |
| `CircuitBreakers.Normalize` | plugins/circuitbreaker/circuitbreaker.go:105-115 | each field of a configuration is kept if positive and otherwise 1 request, 60 s and 60 s; the result is usable |
| `CircuitBreakers.CircuitBreaker.constructor` | plugins/circuitbreaker/circuitbreaker.go:93-120 | a closed breaker in its first generation |
| `CircuitBreakers.CircuitBreaker.BeforeRequest` | plugins/circuitbreaker/circuitbreaker.go:199-215 | the admission step: both refusals, the count, the generation handed out |
| `CircuitBreakers.CircuitBreaker.AfterRequest` | plugins/circuitbreaker/circuitbreaker.go:218-234 | the outcome step, ignored for another generation |
| `CircuitBreakers.CircuitBreaker.OnSuccess` | plugins/circuitbreaker/circuitbreaker.go:237-250 | counting a success and closing from half-open |
| `CircuitBreakers.CircuitBreaker.OnFailure` | plugins/circuitbreaker/circuitbreaker.go:253-266 | counting a failure and opening |
| `CircuitBreakers.CircuitBreaker.CurrentState` | plugins/circuitbreaker/circuitbreaker.go:269-281 | what looking at the clock does: a new closed generation, or half-open after the timeout |
| `CircuitBreakers.CircuitBreaker.SetState` | plugins/circuitbreaker/circuitbreaker.go:284-297 | a phase change starts a new generation |
| `CircuitBreakers.CircuitBreaker.ToNewGeneration` | plugins/circuitbreaker/circuitbreaker.go:300-317 | counts cleared and expiry set by phase |
| `BreakerRuns.StepKeeps` | plugins/circuitbreaker/circuitbreaker.go:199-317 | every admission and outcome keeps the invariant tying counts, phase and trips to the history |
| `BreakerRuns.InFlightAccounted` | plugins/circuitbreaker/circuitbreaker.go:199-266 | in every interleaving the counts are those of the current generation's history, and requests minus successes minus failures is the number of its requests in flight (modulo 2^32 in general, exactly below 2^32 requests) |
| `BreakerRuns.AdmissionExact` | plugins/circuitbreaker/circuitbreaker.go:199-215 | which requests are let in, told by the history: closed every one; open exactly those later than the timeout after the last trip, in a new half-open generation; half-open exactly the first maxRequests of the generation; with the error in the other cases, and a new closed generation exactly after the interval |
| `BreakerRuns.OutcomeExact` | plugins/circuitbreaker/circuitbreaker.go:218-266 | what an outcome does, told by the history: half-open closes with the success that makes maxRequests of them and opens with any failure; closed opens with a failure iff readyToTrip says so of the generation's counts; otherwise the counts are those of the history |
| `BreakerRuns.NeverWedged` | plugins/circuitbreaker/circuitbreaker.go:205-214 | a half-open breaker turns a request away only while a probe of this generation is in flight, and admits when there is none |
| `BreakerRuns.ClosesAfterAllProbes` | plugins/circuitbreaker/circuitbreaker.go:237-297 | it closes again only from half-open, when exactly maxRequests requests were admitted in that generation and all have succeeded |
| `BreakerRuns.OpenForTimeout` | plugins/circuitbreaker/circuitbreaker.go:269-297 | nothing is admitted after a trip until strictly more than the timeout has passed |
| `BreakerRuns.StaleOutcomeIgnored` | plugins/circuitbreaker/circuitbreaker.go:218-227 | the outcome of a request of an earlier generation leaves the breaker as it was, or as the clock alone makes it |
| `BreakerRuns.TripsForCause` | plugins/circuitbreaker/circuitbreaker.go:253-266 | it opens only on a failure of the current generation, from closed only if readyToTrip says so of that generation's counts |
| `Mailboxes.Mailbox.TrySend` | plugins/actor/mailbox.go:30-32 | the send case: ready iff there is room, appends |
| `Mailboxes.Mailbox.TryReceive` | plugins/actor/mailbox.go:51-62 | the receive cases: ready iff non-empty, takes the oldest |
| `Mailboxes.Mailbox.SwapClosed` | plugins/actor/mailbox.go:41-44 | only the first caller of stop wins |
| `Mailboxes.FifoWhileRunning` | plugins/actor/mailbox.go:26-65 | in every interleaving: processed, then in hand, then queued is the accepted sequence, within capacity |
| `Mailboxes.ProcessedIffAcceptedBeforeExit` | plugins/actor/cell.go:74-86 | after the loop has exited, a message was processed iff it was accepted before the exit |
| `Mailboxes.DrainedAtExit` | plugins/actor/mailbox.go:50-65 | the channel is empty when the loop exits; everything accepted by then is processed, and nothing ever after |
| `Mailboxes.AcceptedBeforeStopProcessed` | plugins/actor/mailbox.go:26-65 | what a sender can rely on: a message accepted before stop sets the flag has been processed, at its place in the order, once the loop has exited |
| `Mailboxes.PushExact` | plugins/actor/mailbox.go:26-38 | a push is refused at once iff the flag is set; one under way can be accepted iff there is room, whatever else goes on, and adds its own message |
| `Mailboxes.PushAfterStopRefused` | plugins/actor/mailbox.go:26-46 | a push begun after stop set the flag is never accepted |
| `Mailboxes.AcceptedButLost` | plugins/actor/mailbox.go:26-65 | a run in which a push is accepted after the loop has gone |
| `Supervision.BackoffFor` | plugins/actor/supervision.go:47-64 | the doubling loop in 64-bit arithmetic with its early return |
| `Supervision.BackoffSchedule` | plugins/actor/supervision.go:36-38 | if doubling reaches the cap in range, attempt n waits min(initial * 2^(n-1), max) iff n >= 2 or initial <= max |
| `Supervision.ScheduleExact` | plugins/actor/supervision.go:36-64 | the whole documented schedule holds iff initial <= max and doubling reaches max within 64 bits, which max < 2^62 ensures |
| `Supervision.EffectiveDelays` | plugins/actor/supervision.go:48-55 | positive settings are used as they are, and 100 ms and 5 s otherwise |
| `Supervision.WaitsDouble` | plugins/actor/supervision.go:56-63 | each wait is twice the one before, up to the cap |
| `Supervision.BackoffOverflow` | plugins/actor/supervision.go:57-62 | settings for which the second wait is negative |
| `Supervision.Cell.Loop` | plugins/actor/cell.go:74-86 | what the cell does over a whole sequence of messages, and that it stops iff it gave up |
| `Supervision.Cell.HandlePanic` | plugins/actor/cell.go:89-134 | ignore, give up or restart with a wait, and the failure count |
| `Supervision.ActionsByRun` | plugins/actor/cell.go:74-134 | the action for a message depends only on how many panics in a row end there |
| `Supervision.RestartsPerRun` | plugins/actor/cell.go:106-134 | k panics in a row cause exactly min(k, M) restarts and max(0, k - M) give-ups for a limit M > 0 (k restarts without one), and the actor is given up iff k > M > 0 |
| `Supervision.GivesUpTwice` | plugins/actor/cell.go:107-121 | three panics in a row with a limit of one give the same actor up twice |
| `Supervision.NthRestartWaits` | plugins/actor/cell.go:123-125 | the n-th restart in a row waits the documented time iff n >= 2 or initial <= max |
| `Supervision.OtherStrategies` | plugins/actor/cell.go:89-134 | without a restart strategy panics are only logged; without backoff restarts do not wait; only a panic is reacted to |
| `ActorSystems.System.Add` | plugins/actor/system.go:168-179 | refusals and insertion under one lock |
| `ActorSystems.System.Remove` | plugins/actor/system.go:190-194 | deletes the name and nothing else |
| `ActorSystems.System.All` | plugins/actor/system.go:197-205 | for every map iteration order, a list of as many cells as there are names, holding exactly the registered cells, and none twice if no cell has two names |
| `ActorSystems.StepKeeps` | plugins/actor/system.go:50-205 | every step of Spawn, stop and Shutdown keeps: a cell is listed exactly from registration to its own removal |
| `ActorSystems.StopRemovesItself` | plugins/actor/cell.go:172-179 | removal by name removes the stopping cell and no other, never a later actor of that name |
| `ActorSystems.CellsListedOnce` | plugins/actor/system.go:168-205 | no cell is ever registered under two names, so every snapshot lists each registered cell once |
| `ActorSystems.SpawnExact` | plugins/actor/system.go:168-179 | Spawn gets its name iff the system is not stopped and no live actor has it; otherwise it leaves no trace |
| `ActorSystems.SnapshotExact` | plugins/actor/system.go:119-121 | Shutdown's snapshot is exactly the actors registered and not yet removed |
| `ActorSystems.NamesUnique` | plugins/actor/system.go:168-179 | at most one live actor answers to a name |
| `ActorSystems.TableShrinks` | plugins/actor/system.go:114-131 | once Shutdown has taken its snapshot, nothing is registered again |
| `ActorSystems.EmptyAfterShutdown` | plugins/actor/system.go:113-131 | the table is empty when the winning Shutdown returns, and stays so, in all interleavings with Spawn and self-stop |
| `ActorSystems.SecondShutdownReturnsEarly` | plugins/actor/system.go:114-117 | a run in which a Shutdown that lost the swap has returned while an actor is registered |
| `BatchSinks.BatchSQLSink.WriteLocked` | plugins/audit/batch_sql_sink.go:91-106 | refused once stopped, else buffered, flushed when the batch is full |
| `BatchSinks.BatchSQLSink.FlushLocked` | plugins/audit/batch_sql_sink.go:143-160 | nothing if empty or a flush is in flight, else takes the whole buffer |
| `BatchSinks.InsertWithRetry` | plugins/audit/batch_sql_sink.go:168-186 | succeeds iff one of the attempts does, stops at the first that does, and waits delay * n(n-1)/2 in all |
| `BatchSinks.EventsConserved` | plugins/audit/batch_sql_sink.go:91-166 | in every interleaving: completed batches, the batch in flight and the buffer are exactly the accepted events in order |
| `BatchSinks.WriteExact` | plugins/audit/batch_sql_sink.go:91-106 | a write is refused iff Close has begun; it sends the whole buffer to be inserted iff that fills a batch and no insert is in flight |
| `BatchSinks.FlushExact` | plugins/audit/batch_sql_sink.go:109-113 | a flush sends the whole buffer to be inserted iff it is not empty and no insert is in flight |
| `BatchSinks.CloseCompletes` | plugins/audit/batch_sql_sink.go:115-128 | Close leaves every accepted event in a completed batch iff no insert was in flight when it took the lock to flush |
| `BatchSinks.LostOnClose` | plugins/audit/batch_sql_sink.go:116-155 | a run in which an accepted event stays in the buffer of a closed sink |
| `AlertManagers.Manager.Queue` | plugins/alert/alert.go:195-209 | without interference: enqueues, at the price of the oldest alert when full; nothing once closed |
| `AlertManagers.Manager.Receive` | plugins/alert/alert.go:250-255 | moves one alert to the batch, flushing at 100, without loss or reordering |
| `AlertManagers.Manager.Drain` | plugins/alert/alert.go:234-248 | everything buffered goes out in order before the loop returns |
| `AlertManagers.Manager.Flush` | plugins/alert/alert.go:267-274 | hands the batch out in order |
| `AlertManagers.AlertsConserved` | plugins/alert/alert.go:182-274 | in every interleaving: flushed, batch and buffer are the enqueued alerts without the evicted ones, in order; the batch stays below 100 between rounds |
| `AlertManagers.EnterExact` | plugins/alert/alert.go:195-199 | a call of Queue gets past the closed check iff the manager is not closed |
| `AlertManagers.QueueExact` | plugins/alert/alert.go:201-209 | the buffer stays within its capacity; a call enqueues at once iff there is room, turns to the oldest alert only if the buffer is full, and enqueues after that iff there is room |
| `AlertManagers.EvictsOldest` | plugins/alert/alert.go:203-209 | the alert a full buffer gives up is the oldest in it |
| `AlertManagers.TakeExact` | plugins/alert/alert.go:250-255 | taking an alert moves it to the batch, and the hundredth starts a flush |
| `AlertManagers.TickFlushes` | plugins/alert/alert.go:257-261 | a tick hands the whole batch out, in order, and the loop goes on with an empty one |
| `AlertManagers.AllFlushedAfterClose` | plugins/alert/alert.go:213-248 | when the loop has exited every enqueued and not evicted alert was flushed once, in order |
| `AlertManagers.QuietAfterClose` | plugins/alert/alert.go:195-222 | once closed, nothing is enqueued or evicted |
| `AlertManagers.LostIffEmptied` | plugins/alert/alert.go:201-209 | a Queue call that got past the closed check fails to enqueue iff it had seen the buffer full and then found it empty |
| `AlertManagers.NewestLost` | plugins/alert/alert.go:201-209 | a run in which that happens |
| `ConfigCenters.ConfigCache.GetFromCache` | plugins/configcenter/configcenter.go:254-267 | a hit iff the key is cached and not expired |
| `ConfigCenters.ConfigCache.HandleChange` | plugins/configcenter/configcenter.go:234-239 | the cache after a change event |
| `ConfigCenters.ReadAfterChange` | plugins/configcenter/configcenter.go:254-294 | a read after a change at time t returns exactly its value until t + ttl and nothing later or after a deletion; other keys read as before |
| `ConfigCenters.MemoryProvider.SetLocked` | plugins/configcenter/provider_memory.go:45-52 | stores under the next version and yields the event |
| `ConfigCenters.MemoryProvider.DeleteLocked` | plugins/configcenter/provider_memory.go:67-85 | removes the key, or reports it missing and changes nothing |
| `ConfigCenters.MemoryProvider.Notify` | plugins/configcenter/provider_memory.go:128-139 | queues the event unless 16 are waiting |
| `ConfigCenters.NotifyExact` | plugins/configcenter/provider_memory.go:128-139 | sending an event keeps its key coherent iff another event for the key is yet to be sent, or it is queued and tells the provider's state, or it is dropped and not needed; other keys are not affected |
| `ConfigCenters.UpdateExact` | plugins/configcenter/configcenter.go:91-96 | the cache update after Set or Delete keeps its key coherent iff an event for the key is on its way, or the change is a deletion or still the provider's state |
| `ConfigCenters.FillExact` | plugins/configcenter/configcenter.go:78-83 | filling the cache after a miss keeps its key coherent iff the value read is still current or an event is on its way |
| `ConfigCenters.StepExact` | plugins/configcenter/configcenter.go:70-252 | a step leaves every key coherent iff it is harmless; all steps but those three are |
| `ConfigCenters.CoherentIffHarmless` | plugins/configcenter/configcenter.go:70-294 | a run with any number of overlapping reads and writes is coherent at every moment iff every step of it is harmless |
| `ConfigCenters.CalmRunsAreHarmless` | plugins/configcenter/configcenter.go:70-294 | it is enough that no event is dropped and no key is written while another mutation or fill of it is under way |
| `ConfigCenters.CalmEventsTruthful` | plugins/configcenter/provider_memory.go:45-86 | under that condition every event yet to be sent or applied by its writer tells the provider's state |
| `ConfigCenters.StaleOnlyWhilePending` | plugins/configcenter/configcenter.go:70-294 | in every harmless run a stale read means that an event for that very key is yet to be sent or, if all are sent, that the last one sent is not yet handled and tells the provider's state |
| `ConfigCenters.ServedWithinTtl` | plugins/configcenter/configcenter.go:254-281 | in every run a read is served exactly what was last put into the cache for the key, and only within its time to live |
| `ConfigCenters.QuietMeansFresh` | plugins/configcenter/configcenter.go:234-294 | in every harmless run, with all events sent and handled the whole cache agrees with the provider |
| `ConfigCenters.StaleFill` | plugins/configcenter/configcenter.go:70-84 | a run in which a read overlapping a write leaves the cache stale with nothing on its way |
| `ConfigCenters.CrossedEvents` | plugins/configcenter/provider_memory.go:45-64 | a run in which two overlapping writes of a key leave it stale |
| `ConfigCenters.LateUpdate` | plugins/configcenter/configcenter.go:91-96 | a run in which a Set updates the cache only after a later write of the key has been handled, and leaves it stale |
| `ConfigCenters.DroppedEvent` | plugins/configcenter/provider_memory.go:133-138 | a run in which the seventeenth event is dropped and the queue ends with an outdated value |
| `ConsulDiffs.Diff` | plugins/configcenter/provider_consul.go:169-199 | for every map iteration order: one event per changed or vanished key and no other, with value and version as the source fills them |
| `ConsulDiffs.EventsExact` | plugins/configcenter/provider_consul.go:169-199 | in the fields of the pairs themselves: the only event for a changed key carries its new value and index, that for a vanished key its last index, and other keys have none |
| `ConsulDiffs.ViewMeaning` | plugins/configcenter/provider_consul.go:153-167 | what the changes are compared with: exactly the stored keys without the prefix, with the stored values and indices |
| `ConsulDiffs.DiffReaches` | plugins/configcenter/provider_consul.go:169-199 | applying the changes in any order to what was known of the old snapshot gives the new one |
| `ConsulDiffs.WatchConverges` | plugins/configcenter/provider_consul.go:117-151 | applying everything the polling loop emitted, from nothing, gives the latest snapshot |
| `ConsulDiffs.ExtractMeaning` | plugins/configcenter/provider_etcd.go:130-134 | the key after the prefix, without its first character if that is a slash |
| `ConsulDiffs.ExtractCollides` | plugins/configcenter/provider_etcd.go:130-134 | two different keys under the prefix become the same iff they differ in one extra slash after it |
| `ConsulDiffs.ExtractInjective` | plugins/configcenter/provider_etcd.go:130-134 | keys without that slash never collide |
| `SingleFlights.SimpleHash` | plugins/cache/cache.go:459-468 | the polynomial hash with 64-bit wrap-around |
| `SingleFlights.HashIsPolynomial` | plugins/cache/cache.go:459-468 | the hash is the polynomial of the runes in base 31, wrapped to 64 bits, up to its sign |
| `SingleFlights.RemMeaning` | plugins/cache/cache.go:347 | the remainder has the sign of the hash, as in Go |
| `SingleFlights.GroupInRange` | plugins/cache/cache.go:346-348 | the group index is in 0..31 and congruent to the hash modulo 32, even when negating the hash overflows |
| `SingleFlights.OverflowIndex` | plugins/cache/cache.go:347-348 | for n groups the overflow gives a valid index iff n divides 2^63 |
| `SingleFlights.SingleGroup.LoadOrStore` | plugins/cache/cache.go:369-381 | finds the listed record or lists the new one |
| `SingleFlights.SingleGroup.Delete` | plugins/cache/cache.go:384-388 | removes the key's record |
| `SingleFlights.OneLeaderPerKey` | plugins/cache/cache.go:292-327 | for any number of callers at most one is leading a key |
| `SingleFlights.EnterExact` | plugins/cache/cache.go:299-309 | a caller that misses leads iff no other caller is leading the key, and else waits for that one; no key is blocked by a record without a leader |
| `SingleFlights.DeletesOwnRecord` | plugins/cache/cache.go:311-314 | a leader deletes its own record, never a later one, and no other key's |
| `SingleFlights.ResultFixed` | plugins/cache/cache.go:311-326 | a record that has a result keeps it |
| `SingleFlights.SharedResult` | plugins/cache/cache.go:301-326 | all callers that shared a record return the same result |
| `SingleFlights.ReturnsWhatLeaderLoaded` | plugins/cache/cache.go:301-326 | whoever returns from a record, its leader or a waiter, returns the value or error the leader loaded |
| `RequestReplies.StepExact` | plugins/messaging/reply.go:51-138 | a step keeps the reply topic of a request sound (only genuine replies on it, only that request asking for replies there) iff it is polite: no request is sent to that topic, and no outsider publishes an envelope on it or pointing to it other than a copy of what belongs there |
| `RequestReplies.SoundIffPolite` | plugins/messaging/reply.go:51-138 | over a network that drops, repeats and reorders, the reply topic is sound at every moment of a run iff every step is polite to that request |
| `RequestReplies.OwnAnswer` | plugins/messaging/reply.go:51-138 | in every run polite to it, a successful Request returns a result a handler computed from that very request's message, correlation id included |
| `RequestReplies.SubscribedBeforeReply` | plugins/messaging/reply.go:64-99 | whatever is on a reply topic answers a request that had subscribed and been sent, with its correlation id and a result computed from its message |
| `RequestReplies.ResponsesEndThere` | plugins/messaging/reply.go:111-119 | a response never causes another response |
| `RequestReplies.RespondExact` | plugins/messaging/reply.go:111-138 | exactly the envelopes that name a reply topic are answered: there, with their own id, and with the answer, marked as an error iff it is one |
| `RequestReplies.DeliverExact` | plugins/messaging/reply.go:64-76 | a request takes the first envelope delivered, drops later ones and ignores what is no envelope |
| `RequestReplies.RequestAnswered` | plugins/messaging/reply.go:51-107 | for every request and every answer, value or error, there is a run in which the request returns it |
| `RequestReplies.StrayEnvelopeAccepted` | plugins/messaging/reply.go:64-76 | a run in which another request is taken for the answer |
| `RequestReplies.ForeignEnvelopeAccepted` | plugins/messaging/reply.go:64-76 | a run in which an outsider's envelope is taken for the answer |
| `LoadBalancers.Eligible` | plugins/loadbalancer/factory.go:134-152 | exactly the targets that may be selected, in order |
| `LoadBalancers.Balancer.GetHealthyTargets` | plugins/loadbalancer/factory.go:134-152 | the loop computes that list |
| `LoadBalancers.Balancer.SelectRoundRobin` | plugins/loadbalancer/factory.go:168-183 | the target at counter mod n, and the counter advanced with wrap-around; an error if there is none |
| `LoadBalancers.PickAt` | plugins/loadbalancer/factory.go:168-183 | the k-th pick in a row is the healthy target at the counter's value then, taken round the list |
| `LoadBalancers.RoundsCount` | plugins/loadbalancer/factory.go:168-183 | m selections in a row pick a target as often as counting the wrapping counter says |
| `LoadBalancers.SelectionsFair` | plugins/loadbalancer/factory.go:168-183 | m selections in a row pick each of n healthy targets floor(m/n) or ceil(m/n) times, if the counter does not wrap or n divides 2^64 |
| `LoadBalancers.FairAcrossWrap` | plugins/loadbalancer/factory.go:175-176 | every n selections in a row, wherever the counter stands, pick every healthy target once iff n divides 2^64 |
| `LoadBalancers.Balancer.SelectLeastConnections` | plugins/loadbalancer/strategies.go:89-115 | the first of the least loaded healthy targets gets one connection more, no other count changes |
| `LoadBalancers.LeastLoaded` | plugins/loadbalancer/strategies.go:95-104 | the search finds the first of the least loaded |
| `LoadBalancers.LeastMeaning` | plugins/loadbalancer/strategies.go:95-104 | the target selected has the fewest connections of all healthy ones, and fewer than any healthy one before it |
| `LoadBalancers.SelectionIsPicked` | plugins/loadbalancer/strategies.go:89-115 | how a selection changes the counts of the healthy targets |
| `LoadBalancers.StaysLevel` | plugins/loadbalancer/strategies.go:89-115 | m selections without release add m connections and never let two targets drift more than one apart |
| `LoadBalancers.Balancer.ReleaseConnection` | plugins/loadbalancer/strategies.go:118-133 | gives back one connection of the first target with the address, or reports that there is none |
| `BloomFilters.SetOne` | plugins/bloomfilter/bloomfilter.go:50-53 | setting a bit in its word marks that position and no other |
| `BloomFilters.BloomFilter.Positions` | plugins/bloomfilter/bloomfilter.go:85-93 | double hashing with 64-bit wrap-around |
| `BloomFilters.PositionMeaning` | plugins/bloomfilter/bloomfilter.go:85-93 | the i-th position is h1 + i * h2, modulo 2^64 and then modulo the size |
| `BloomFilters.BloomFilter.Add` | plugins/bloomfilter/bloomfilter.go:44-54 | the word array marks exactly the element's positions in addition |
| `BloomFilters.BloomFilter.Contains` | plugins/bloomfilter/bloomfilter.go:59-72 | true iff all positions of the element are marked |
| `BloomFilters.BloomFilter.Clear` | plugins/bloomfilter/bloomfilter.go:75-82 | nothing is marked |
| `BloomFilters.MarkedMeaning` | plugins/bloomfilter/bloomfilter.go:44-82 | after any history a position is marked iff it belongs to an element added since the last Clear |
| `BloomFilters.NoFalseNegatives` | plugins/bloomfilter/bloomfilter.go:10-12 | an element added since the last Clear is always reported |
| `BloomFilters.EmptyReportsNothing` | plugins/bloomfilter/bloomfilter.go:75-82 | before any Add and after a Clear nothing is reported |
| `BloomFilters.PositiveMeans` | plugins/bloomfilter/bloomfilter.go:56-58 | a positive answer means that elements added since the last Clear cover every position |

## Left out

- Plugins.CollectDeps: hard and soft slices that overlap in part are not modelled; `TopoSort.DepsOf` hands it fresh copies, so the effect of one build on a later one is stated by `Plugins.Rewritten` and not carried through `Loader.Build`.
- Loader.Build: the registry lookup (`Registries.Registered`) is separate, toggles arrive decoded, and service lookup, contexts and logging are not modelled.
- CircuitBreakers.CircuitBreaker.AfterRequest: generations are unbounded where the source has 64 bits, times are unbounded integers, and the fallback, the state-change callback and panics inside callbacks are left out; a request ends at most once.
- BreakerRuns.InFlightAccounted: exact below 2^32 admissions in a generation, modulo 2^32 beyond.
- Mailboxes.FifoWhileRunning: restarts of the actor instance, PreStart, PostStop and dead letters are not part of the mailbox model.
- Supervision.Cell.Loop: the OnPanic and OnGiveUp callbacks and the rebuilding of the instance are reduced to the action taken.
- Supervision.Cell.HandlePanic: likewise; what user callbacks, Producer and PreStart do is outside the model.
- ActorSystems.EmptyAfterShutdown: safety only; that Shutdown returns depends on every actor finishing its current message.
- BatchSinks.CloseCompletes: one Close; a second one closes a closed channel and panics. An insert that fails after all retries counts as completed, as in the source.
- AlertManagers.Manager.Queue: one call without interference, since its two selects are separate steps; calls that interleave are the steps Enter to SendAfterEvict of `AlertManagers.World`.
- AlertManagers.AllFlushedAfterClose: safety only, for an enabled manager; that Close returns is not claimed, and delivery inside each channel is not modelled.
- ConfigCenters.StaleOnlyWhilePending: one namespace with a live watcher; subscriptions, watcher restarts and Close are left out.
- ConfigCenters.ConfigCache.HandleChange: the cache half; subscribers are called in goroutines of their own and do not touch the cache.
- ConsulDiffs.DiffReaches: assumes, as Consul promises, that an unchanged index means an unchanged value.
- SingleFlights.SharedResult: a leader whose cache read panics is not modelled.
- RequestReplies.OwnAnswer: correlation ids are fresh and envelopes are encoded injectively.
- LoadBalancers.StaysLevel: selections one after another; concurrent ones can pick the same target, and 32-bit connection counts are unbounded here.
- BloomFilters.BloomFilter.Positions: sizing the filter (floating point) and the FNV hashes; any hash function is allowed.
- Weighted and random balancing, `plugins/discovery/loadbalancer.go` and the gateway adapter: they would add easy members or no sound guarantee.
- Bootstrap, routers, configuration loading, network and database clients, gateway, middleware, metrics and scaffolding: wiring and input/output.
