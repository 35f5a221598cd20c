# Verification of the glooshot controller core

glooshot runs chaos experiments. A snapshot emitter watches experiments; an event
loop hands each snapshot to three syncers in turn. The starter promotes pending
experiments, the translator turns faults into routing rules, and the failure
checker monitors started experiments: one goroutine per Prometheus condition polls
a query through a shared publisher, and the first crossing, a timer or a
cancellation decides the verdict that is written back.

The modules follow the components:

| module | component |
|---|---|
| `Types` | experiments, as values (`Exp`) and as the objects that syncers edit in place (`Experiment`) |
| `Starter`, `Translator`, `RuleNames`, `FailureCheck` | the three syncers, the sync decider, the names of generated rules |
| `EventLoop` | the loop over the syncers: cancel map, previous snapshot, batch under monitoring |
| `Emission`, `Emitters`, `EmitterObjects`, `SimpleEmitterObjects` | the two snapshot emitters, by value and on the heap |
| `PubSub`, `QueryPubSub` | the query publisher as objects, and as a machine of atomic operations |
| `PubSubSteps`, `PubSubDelivery`, `PubSubAnswers` | the query publisher as a machine of lock-granular steps: safety, delivery, and where the values come from |
| `PubSubUndisturbed` | calls and polls that nobody disturbs are the atomic operations |
| `PubSubRefs`, `PubSubServed`, `PubSubWindows`, `PubSubConservation`, `PubSubPolled` | when subscribers are orphaned, closed or left without a poller, and what is conserved otherwise |
| `PubSubRace` | runs that orphan or close a subscriber |
| `PubSubBlocking`, `PubSubDeadlock`, `PubSubFreeze`, `PubSubShutdown` | who waits for which lock, runs that stand still, and how everything ends with the root context |
| `Monitor`, `Histories`, `Lifecycle` | one monitoring call, the measurements kept, the stored experiment |
| `PubSubCalls`, `Joint`, `JointVerdicts`, `Stranding` | one caller's view of the publisher, monitor and publisher as one machine, the verdicts it can reach, and pollers that never end |
| `Composition` | what a monitor reports was answered and published; emitter with event loop |
| `OneofCodec` | the generated codec of the two oneofs, over the encoding of Protocol Buffers ("Base 128 Varints", "Length-Delimited Records") |

Code that changes state is a class or a method with loops, proved against a
function on values; the properties of whole runs are lemmas about those functions
or about a step machine. In a machine, a step that is not enabled or is blocked
leaves the state as it is, so a run is any sequence of steps.

The clock, generated names, the outcome of every write, the answers of Prometheus,
the order in which a map is iterated and the order on keys are parameters. The
hash is injective on the fields it covers; `Emission.HashExactly` says which. Lists
from the API server have unique, namespaced keys (`WellFormed`).

Where the code and its documentation differ, the model follows the code:

- The API comment of `comparison_operator` lists `==`; the switch does not know it
  and compares with `<`. `Monitor.EqualityExactly` says when the answer is right.
- The API comment on durations says that an experiment without one does not end by
  itself; the code gives it ten minutes (`Monitor.DEFAULT_DURATION`).
- The failure checker is meant to follow every change of the conditions and the
  duration. It misses an experiment without a spec that obtains one with a duration
  and no condition. `EventLoop.RunAgreesExactly` says exactly when a run is exact.
- `Succeeded` does not mean that no threshold was crossed;
  `Monitor.SuccessDespiteCrossingExactly` says for which experiments this can happen.
  A failure may be overwritten with a success that keeps the failure report;
  `Lifecycle.PermanentExactly` says when a verdict stays.
- The event loop can dereference nil: `EventLoop.CrashesExactly` says in which runs.
  So can a monitoring call: `Monitor.CrashedExactly` says for which experiments.
- A query can have two pollers, after an early return to it
  (`QueryPubSub.OnePollerExactly`, for operations taken as one step) and also when two
  first Subscribes overlap (`PubSubPolled.OnePollerExactly`, for the code's own steps).
- `Subscribe`, `Unsubscribe` and the exit of a poller check and then act, each time
  under another lock. `PubSubServed.ServedExactly` and `OpenExactly` name the steps
  that orphan or close a subscriber. A list in the map need not have a poller either:
  the new poller may tick before its query is in the map and give up
  (`PubSubPolled.SubscriberWithoutPoller`); `PubSubPolled.PolledExactly` and
  `ConservedExactly` say in which runs that does not happen. `PubSubWindows.ApartRunsServe`
  and `PubSubConservation.SubscriptionsAreConserved` show that calls and exits on one
  query that do not overlap never take any of these steps.
- Which verdicts an experiment can get is said on its data: `Monitor.FailureReportedExactly`,
  `SuccessReportedExactly`, `InvalidReportedExactly`, `RefusedExactly` and `CrashedExactly`, and
  with the publisher in between in `JointVerdicts`.
- A publish at a full buffer keeps the read lock of its list. Whoever has to change
  that list waits for it: the subscriber that wants to leave, every later Subscribe to
  the query (`PubSubDeadlock.DeadlockIsForever`), and a poller that exits, which by then
  holds the map's lock, so that nobody subscribes, leaves or ticks any more
  (`PubSubFreeze.FreezeIsForever`). The end of the root context resolves all of it:
  `PubSubShutdown.EverybodyCanEnd`.
- So a cancelled monitor can be left with a poller that never ends
  (`Stranding.DeadlockStrandsPoller`). In `Monitor`, a poller is `blocked` while a lock
  that its Subscribe or its Unsubscribe needs is held; `Monitor.CanMoveExactly` shows
  that nothing else in the monitor holds it up, and `Stranding.PollerMovesWithItsCall`
  that in `Joint` the flag is what the publisher does.

## Model

| member | source | states |
|---|---|---|
| Types.FilterByState | pkg/utils/experiments.go:7-15 | the pointers in the given state, all of them, in list order |
| Types.WithStateInOrder | pkg/utils/experiments.go:7-15 | the filter of two lists after each other is that of the first and then that of the second |
| FailureCheck.FindIn | pkg/api/v1/experiment.sk.go:47-56 | the pointer found is to the first experiment with the name, and with the namespace unless that is empty; none is found only if there is none |
| FailureCheck.FindFirst | pkg/api/v1/experiment.sk.go:47-56 | in any list the one found is the first whose name, and whose namespace unless that is empty, is the one asked for |
| FailureCheck.FindExactly | pkg/api/v1/experiment.sk.go:47-56 | with unique, namespaced keys, looking up an experiment's key finds that experiment and no other |
| FailureCheck.ShouldSync | pkg/checker/failure_check_syncer.go:41-60 | the decision, through objects, is that of the decider on the two snapshots' values |
| FailureCheck.CrashExactly | pkg/checker/failure_check_syncer.go:41-85 | the nil dereference happens if and only if there are as many started experiments as before, one of them lost its spec, and all before that one are tracked |
| FailureCheck.KeepExactly | pkg/checker/failure_check_syncer.go:41-85 | the decider skips if and only if the started experiments have the same keys before and after and, per key, the same conditions and, where the old spec is set, the same duration |
| FailureCheck.SkippingKeepsAgreementExactly | pkg/checker/failure_check_syncer.go:72-85 | a skipped step keeps exact agreement if and only if no experiment gains only a duration in it |
| FailureCheck.BatchCoversLatest | pkg/checker/failure_check_syncer.go:41-85 | over every run, the last synced batch has the keys of the latest started experiments, their conditions, and their durations where the synced spec is set |
| FailureCheck.AlwaysAgreesExactly | pkg/checker/failure_check_syncer.go:72-75 | agreement including all durations holds after every iteration if and only if no skipped step gains only a duration |
| FailureCheck.SilentGainExists | pkg/checker/failure_check_syncer.go:73-75 | a concrete run in which exact agreement fails |
| Starter.ValidateOrGenerateNames | pkg/starter/experiment_starter.go:64-79 | names in place up to the first duplicate, which it returns; triggers and every other field stay |
| Starter.NamingSucceedsExactly | pkg/starter/experiment_starter.go:64-79 | naming succeeds if and only if the names the conditions have, or else get from the clock, are pairwise distinct |
| Starter.SuccessNamesAll | pkg/starter/experiment_starter.go:64-79 | where it succeeds, every condition has that name |
| Starter.NamingStopsExactly | pkg/starter/experiment_starter.go:64-79 | where it fails, it reports the first name, given or generated, that an earlier condition has; the conditions up to there are named, the others as they were |
| Starter.PromotionFrame | pkg/starter/experiment_starter.go:54-79 | after a sync a pending experiment has the instant of the sync as its start and is started; its key, version, status, faults, target mesh, duration, report, finishing time and its conditions with their triggers are those delivered; any other experiment is untouched |
| Starter.OneStarts | pkg/starter/experiment_starter.go:54-62 | an experiment is written if and only if its names are distinct, as delivered but for state, start and names, and its error is the error of the write or else the first repeated name |
| Starter.StartsInOrder | pkg/starter/experiment_starter.go:40-47 | the writes and the errors of a list are those of its experiments, one after the other |
| Starter.WriteAsStarted | pkg/starter/experiment_starter.go:54-62 | the promotion stays in memory whether naming or the write fails; a duplicate name prevents the write |
| Starter.WritesAreValid | pkg/starter/experiment_starter.go:54-62 | whatever is written is started, has distinct condition names, and the key of a pending experiment |
| Starter.Sync | pkg/starter/experiment_starter.go:27-48 | every pending experiment of the shared snapshot is promoted in place, no other changes, errors and writes come in list order |
| Translator.SelectorFromRefs | pkg/translator/syncer.go:166-184 | no selector for an empty list, an error for a nil reference, otherwise the references in order |
| Translator.TargetMeshExactly | pkg/translator/syncer.go:136-164 | a mesh is chosen if and only if it is the given one and exists, or none is given and it is the only one in the namespace |
| Translator.TargetMeshFailsExactly | pkg/translator/syncer.go:136-164 | each error, if and only if: the client fails, the given mesh does not exist, there is none to choose, or there are that many |
| Translator.TranslateToRoutingRule | pkg/translator/syncer.go:84-134 | nothing for a concluded experiment, otherwise the rule or the first error, in the order mesh, origins, destinations, fault |
| Translator.TranslateFaultExactly | pkg/translator/syncer.go:84-134 | a fault translates if and only if it has a mesh, no nil reference and an injection; the rule has the right key, labels, mesh, selectors and fault, the error the right experiment and index |
| Translator.TranslateFaultFailsExactly | pkg/translator/syncer.go:84-134 | which error is given, if and only if: that of the mesh first, then a nil reference, then a missing or empty injection |
| Translator.TranslateExperiments | pkg/translator/syncer.go:65-82 | the nested loops with early errors collect the outcome of every fault of every live experiment |
| Translator.SweepVisitsLivePositions | pkg/translator/syncer.go:65-82 | exactly the faults of the experiments not concluded are visited, each once, in lexicographic order |
| Translator.SweepSucceedsExactly | pkg/translator/syncer.go:65-82 | the sweep succeeds if and only if every visited fault translates |
| Translator.SweepRules | pkg/translator/syncer.go:65-82 | on success, one rule per visited fault, in that order, each belonging to its own fault |
| Translator.SweepFailure | pkg/translator/syncer.go:72-75 | on failure, the error of the first visited fault that does not translate |
| Translator.RuleRefsDistinct | pkg/translator/syncer.go:122-128 | with distinct experiment keys, no two rules share namespace and name |
| Translator.StartingCommutesWithTranslation | pkg/starter/experiment_starter.go:54-79 | translating after the starter's in-place edits gives the rules, or the error, of translating before |
| RuleNames.DecimalRoundTrip | pkg/translator/syncer.go:97 | the printed index parses back and contains no dash |
| RuleNames.DecimalIsPlain | pkg/translator/syncer.go:97 | only digits, and no leading zero but for zero itself |
| RuleNames.RuleNameRoundTrip | pkg/translator/syncer.go:97 | the last dash recovers experiment name and index, whatever dashes and digits the name has |
| RuleNames.RuleNameInjective | pkg/translator/syncer.go:97 | equal rule names come from equal experiment names and indices |
| EventLoop.RunFollowsDecider | pkg/api/v1/api_simple_event_loop.sk.go:65-104 | previous snapshot, batch and rules after a run are those of the decider's view of the promoted snapshots |
| EventLoop.BatchCoversSnapshot | pkg/api/v1/api_simple_event_loop.sk.go:63-103 | incremental resync refines always-resync: after every iteration the batch under monitoring covers the latest promoted snapshot |
| EventLoop.RunAgreesExactly | pkg/api/v1/api_simple_event_loop.sk.go:63-103 | it equals it, durations included, after every iteration if and only if no skipped step gains only a duration |
| EventLoop.RunMonitorsDelivered | pkg/api/v1/api_simple_event_loop.sk.go:63-103 | after every iteration the batch has the experiments delivered as pending or started, with the durations and triggers they were delivered with, if and only if no skipped step gains only a duration |
| EventLoop.BatchRefsArePendingOrStarted | pkg/setup/setup.go:84-88 | with the starter before the checker, the batch has exactly the keys delivered as pending or started, whatever naming and writes return |
| EventLoop.RulesOfDeliveredSnapshot | pkg/setup/setup.go:84-88 | the translator, though it runs after the starter, hands over the rules of the snapshot as delivered |
| EventLoop.CrashesExactly | pkg/api/v1/api_simple_event_loop.sk.go:73-79 | a run crashes if and only if some two adjacent snapshots drop a spec in this way |
| EventLoop.DroppedSpecCrashes | pkg/checker/failure_check_syncer.go:80-83 | a run of two deliveries that crashes |
| EventLoop.SimpleEventLoop.Restart | pkg/api/v1/api_simple_event_loop.sk.go:81-100 | the syncer's old context is cancelled, a new one recorded, and of all contexts ever issued exactly the recorded ones are live |
| EventLoop.SimpleEventLoop.Iterate | pkg/api/v1/api_simple_event_loop.sk.go:67-103 | one iteration on shared, mutable experiment objects is one step of the loop on values |
| EventLoop.SimpleEventLoop.CancelAll | pkg/api/v1/api_simple_event_loop.sk.go:55-60 | when the loop ends, no context it ever issued is live |
| EventLoop.Run | pkg/api/v1/api_simple_event_loop.sk.go:51-109 | the whole loop over a stream of cloned snapshots ends where the run on values ends, with every context cancelled |
| Emission.EmissionAgrees | pkg/api/v1/api_snapshot_emitter.sk.go:166-192 | over every run: the timer sends exactly the changes among the snapshots current at its ticks, no two in a row alike, and after a tick the last one sent has, position by position, the keys, specs, results and report contents of the current one |
| Emission.HashExactly | pkg/api/v1/experiment.sk.go:34-42 | two experiments hash alike if and only if key, spec and result are equal, and two reports if and only if key and content are |
| Emission.SnapshotHashExactly | pkg/api/v1/experiment.sk.go:34-42 | two snapshots hash alike if and only if they agree in this, position by position |
| Emission.ForcedSendsDoNotDisturb | pkg/api/v1/api_snapshot_emitter.sk.go:190-192 | leaving the forced sends out of a run changes neither the two snapshots nor what the timer sends |
| Emission.VersionsMayLag | pkg/api/v1/experiment.sk.go:34-42 | agreement leaves out the versions: a run in which they differ after a tick |
| Emitters.ValidateNamespaces | pkg/api/v1/api_snapshot_emitter.sk.go:87-96 | refused if and only if all namespaces are combined with another; what is accepted has all namespaces alone or not at all |
| Emitters.SortAscending | pkg/api/v1/experiment.sk.go:90-95 | sorting distinct keys gives strictly ascending keys |
| Emitters.AscendingIsCanonical | pkg/api/v1/experiment.sk.go:90-95 | an ascending list is determined by its members |
| Emitters.CanonicalMerge | pkg/api/v1/api_snapshot_emitter.sk.go:193-217 | in every reachable state the current list is strictly ascending and has exactly the resources of the latest list of each watch |
| Emitters.MapOrderLeavesNoTrace | pkg/api/v1/api_snapshot_emitter.sk.go:200-204 | two runs that differ only in the order of iterating the maps end in the same state, having sent the same snapshots |
| Emitters.NamespacedAgrees | pkg/api/v1/api_snapshot_emitter.sk.go:162-217 | after a tick the snapshot last sent by the timer has, position by position, the keys, specs, results and report contents of the merge of the latest lists |
| Emitters.OfKindExactly | pkg/api/v1/api_snapshot_simple_emitter.sk.go:81-96 | each of experiments, reports and refused resources gets the resources of its type, each as often as listed |
| Emitters.TypedExactly | pkg/api/v1/api_snapshot_simple_emitter.sk.go:81-96 | the two lists of a snapshot have the experiments and the reports of the list, each as often, in its order |
| Emitters.SimpleAgrees | pkg/api/v1/api_snapshot_simple_emitter.sk.go:47-100 | after a tick the snapshot last sent by the timer has, position by position, the keys, specs, results and report contents of the latest list split by type |
| EmitterObjects.CloneList | pkg/api/v1/experiment.sk.go:97-103 | equal values in new objects |
| EmitterObjects.SortByKey | pkg/api/v1/experiment.sk.go:90-95 | the pointers end in the order of the stable sort of their values |
| EmitterObjects.ApiEmitter.Sync | pkg/api/v1/api_snapshot_emitter.sk.go:166-175 | nothing happens if the hashes are equal; otherwise a copy of the current snapshot is sent, and no object sent is ever the emitter's own |
| EmitterObjects.ApiEmitter.ReceiveExperiments | pkg/api/v1/api_snapshot_emitter.sk.go:193-204 | the namespace's list is replaced, and the current list is the sorted merge of all lists in some order of the map |
| EmitterObjects.ApiEmitter.ConsumerEdit | pkg/starter/experiment_starter.go:55-56 | an edit of a sent experiment leaves both snapshots of the emitter as they were |
| EmitterObjects.Serve | pkg/api/v1/api_snapshot_emitter.sk.go:162-219 | isolation over whole runs: with consumers editing anything they were sent at any time, the emitter keeps and sends what it would without any edit and for any order of its maps |
| EmitterObjects.SentIsAllClones | pkg/api/v1/api_snapshot_emitter.sk.go:172-174 | no experiment object occurs twice, within or across the snapshots an emitter has sent |
| SimpleEmitterObjects.Partition | pkg/api/v1/api_snapshot_simple_emitter.sk.go:81-96 | the type switch on pointers: experiments and reports in order, everything else refused in order |
| SimpleEmitterObjects.ApiSimpleEmitter.Sync | pkg/api/v1/api_snapshot_simple_emitter.sk.go:51-60 | the same closure in the emitter the controller uses: copies are sent, the loop on values is followed, isolation is kept |
| SimpleEmitterObjects.ApiSimpleEmitter.ConsumerEdit | pkg/starter/experiment_starter.go:55-56 | an edit of a sent experiment leaves both snapshots of the simple emitter as they were |
| PubSub.DeleteIsFilter | pkg/promquery/client.go:75 | cutting out one position of a list of distinct channels is filtering that channel out, the others in order |
| PubSub.Subscribers.Append | pkg/promquery/client.go:60 | appending in place while there is room, in a larger array otherwise |
| PubSub.Subscribers.Subscribe | pkg/promquery/client.go:56-63 | a new open channel joins at the end; entries stay distinct and the close map has exactly them |
| PubSub.Subscribers.DeleteAt | pkg/promquery/client.go:75 | the shift in place removes exactly position i |
| PubSub.Subscribers.Unsubscribe | pkg/promquery/client.go:65-79 | the in-place delete equals filtering the channel out, an unknown channel is ignored, the invariant is kept |
| PubSub.Subscribers.Close | pkg/promquery/client.go:46-54 | every subscriber is closed once, and none stays |
| PubSub.Subscribers.Publish | pkg/promquery/client.go:81-91 | a prefix of the list gets the value, up to a full buffer or the end of the context |
| QueryPubSub.QueryPubSub.Subscribe | pkg/promquery/client.go:197-207 | as one atomic step: the new channel joins the query's list, and a new query starts one poller |
| QueryPubSub.QueryPubSub.Unsubscribe | pkg/promquery/client.go:209-223 | as one atomic step: the channel leaves, and the last one takes the query with it |
| QueryPubSub.QueryPubSub.Tick | pkg/promquery/client.go:165-171 | as one atomic step: a poller exits if and only if its query is gone, and its cleanup changes nothing |
| QueryPubSub.QueryPubSub.ExitOnRoot | pkg/promquery/client.go:151-164 | a poller stopped by the root context closes the query's subscribers and removes it |
| QueryPubSub.SubscriptionsMatchCalls | pkg/checker/check_experiment.go:164-187 | conservation over every run of atomic steps: as many subscribers as calls polling the query, in the map exactly if there is one, and then a live poller |
| QueryPubSub.OnePollerExactly | pkg/promquery/client.go:148-223 | with atomic steps, a query never has two pollers through a run, if and only if no call brings it back after it left the map and before its poller's next tick |
| QueryPubSub.TwoPollersForOneQuery | pkg/promquery/client.go:197-223 | a run with such a return, and two pollers |
| PubSubSteps.PanicsExactly | pkg/promquery/client.go:46-91 | a step panics if and only if it sends on a closed channel, or closes a list with a channel that is closed already |
| PubSubSteps.EveryRunIsSafe | pkg/promquery/client.go:46-91 | in every interleaving of lock-granular steps, orphaned lists included: no double close, no send on a closed channel, no buffer over ten values, entries distinct and open, close map exact |
| PubSubSteps.ChannelsInOneListOnce | pkg/promquery/client.go:56-79 | no channel is in two lists or twice in one |
| PubSubDelivery.DeliveredOnce | pkg/promquery/client.go:81-91 | in every run, however publishes overlap: a channel was sent what was published on its list since it joined, short of the publishes in progress that have not reached it; nothing twice or made up, and nothing lost while the root context lives |
| PubSubAnswers.LogsAreAnswers | pkg/promquery/client.go:165-195 | in every run each value published on a list was the answer to an earlier query, of that list, by one of its pollers; a failed query adds nothing |
| PubSubAnswers.AnswersArePublishedOnce | pkg/promquery/client.go:165-195 | each answer is published at most once, on one list, and those of one poller in order |
| PubSubAnswers.AnswersAreConserved | pkg/promquery/client.go:165-195 | the answers a poller was given are those it has published, those it dropped because the query was gone, and the one it may hold |
| PubSubUndisturbed.UndisturbedSubscribe | pkg/promquery/client.go:197-207 | a Subscribe that nobody disturbs is the atomic one, and starts a poller if and only if the query was not in the map |
| PubSubUndisturbed.UndisturbedUnsubscribe | pkg/promquery/client.go:209-223 | an Unsubscribe that nobody disturbs is the atomic one: the last subscriber takes the query out of the map |
| PubSubUndisturbed.UndisturbedTick | pkg/promquery/client.go:144-171 | a tick that nobody disturbs asks Prometheus if the query is in the map, and otherwise is the end of the poller |
| PubSubUndisturbed.UndisturbedPoll | pkg/promquery/client.go:165-195 | a poll that nobody disturbs gives the answer to every subscriber of the query and to nobody else, as long as the buffers have room |
| PubSubSteps.DeliveryIsExact | pkg/promquery/client.go:81-91 | with serial publishes and a live root, received plus buffered is exactly what was published since joining, in order, up to leaving or up to the prefix the publish in progress has reached |
| PubSubRefs.EveryRunRefs | pkg/promquery/client.go:183-223 | in every run, map entries and threads refer to lists that exist and were created for their query, and a publisher holds the read lock of its list |
| PubSubRefs.EveryRunPlaces | pkg/promquery/client.go:56-79 | in every run, a channel that has not left is in the list it was created in |
| PubSubServed.StepServesExactly | pkg/promquery/client.go:197-223 | from a state without orphans, a step leads to one if and only if it inserts over a list with subscribers, deletes its entry, at the end of an Unsubscribe or of a poller, or attaches to a list not in the map |
| PubSubServed.ServedExactly | pkg/promquery/client.go:148-223 | through a whole run every list with subscribers is the one the map has for its query, if and only if the run takes none of these steps |
| PubSubServed.StepEvictsExactly | pkg/promquery/client.go:46-54 | a step closes a channel if and only if it closes a list that has subscribers |
| PubSubServed.OpenExactly | pkg/promquery/client.go:151-158 | through a whole run no subscription is closed, if and only if no step closes a list that has subscribers |
| PubSubWindows.ApartRunsServe | pkg/promquery/client.go:197-223 | if the calls and poller exits on one query never overlap, no subscriber is orphaned, and none is closed while the root context lives |
| PubSubConservation.SubscriptionsAreConserved | pkg/promquery/client.go:148-223 | conservation at lock granularity, in such runs and outside a query's windows: as many subscribers as channels that have not left, the query in the map exactly if there is one, and then a live poller |
| PubSubPolled.StepPollsExactly | pkg/promquery/client.go:197-207 | from a state in which every query in the map is polled, a step leads to one where that fails under a live root, if and only if it inserts a query whose poller has already given up |
| PubSubPolled.GivesUpExactly | pkg/promquery/client.go:144-171 | a polling goroutine stops polling exactly at a tick that finds its query gone or by the end of the root context |
| PubSubPolled.PolledExactly | pkg/promquery/client.go:148-207 | through a whole run every query in the map is polled while the root context lives, if and only if the run takes no such step |
| PubSubPolled.ConservedExactly | pkg/promquery/client.go:148-223 | conservation at lock granularity, exactly: through a whole run each query has as many subscribers as channels that have not left, and is polled while in the map, if and only if no step orphans a subscriber or inserts an unpolled query |
| PubSubPolled.SubscriptionsAreServed | pkg/promquery/client.go:148-223 | in such a run every channel that has not left is in the map's list for its query, and the query is polled |
| PubSubPolled.PollersAreSpawned | pkg/promquery/client.go:199-200 | a query nobody polls becomes polled by a step, if and only if a Subscribe that found no entry starts a poller for it |
| PubSubPolled.UnpolledGetNothing | pkg/promquery/client.go:165-189 | in every continuation without such a start, the query's subscribers get nothing |
| PubSubPolled.SubscriberWithoutPoller | pkg/promquery/client.go:165-205 | a run of one Subscribe after which nobody is orphaned or closed and the subscriber is in the map's list, but nobody polls the query: the poller ticked before the insert |
| PubSubPolled.SubscriberWithoutValues | pkg/promquery/client.go:197-207 | it gets nothing as long as the entry stays in the map, whoever else subscribes |
| PubSubPolled.OnePollerExactly | pkg/promquery/client.go:197-207 | through a whole run of the code's own steps a query has at most one poller, if and only if no Subscribe starts one while it has one |
| PubSubPolled.OverlappingSubscribesStartTwo | pkg/promquery/client.go:197-207 | two overlapping first Subscribes leave two pollers, though nobody has unsubscribed |
| PubSubRace.SubscribeRaceOrphansASubscriber | pkg/promquery/client.go:197-207 | a run of two subscribe calls that leaves one subscribed to a list in no map |
| PubSubRace.OrphanIsNeverServed | pkg/promquery/client.go:183-195 | in every continuation, a channel of an orphaned list gets nothing |
| PubSubRace.LoserIsNeverServed | pkg/promquery/client.go:197-207 | so the loser of that race never gets a value |
| PubSubRace.LateSubscriberIsClosed | pkg/promquery/client.go:214-218 | a run in which a subscriber joins between the check for idleness and the close, and is closed though it never left |
| PubSubBlocking.PublisherIsStuckExactly | pkg/promquery/client.go:81-91 | in every run, a publisher can neither send, give up nor finish, if and only if the root context lives and the next subscriber's buffer is full |
| PubSubBlocking.SubscribeMovesExactly | pkg/promquery/client.go:197-207 | in every run, a Subscribe goes on if and only if the lock its next step needs is free: the map's to look up and to insert, the list's to join |
| PubSubBlocking.UnsubscribeMovesExactly | pkg/promquery/client.go:209-223 | in every run, an Unsubscribe goes on if and only if the lock its next step needs is free |
| PubSubBlocking.DeadlockEndsExactly | pkg/promquery/client.go:56-67 | a publish at a full buffer and a thread that has to join, leave or close its list stay deadlocked at a step, if and only if it neither receives from that buffer nor ends the root context |
| PubSubBlocking.DeadlockStays | pkg/promquery/client.go:81-91 | in every continuation without these two, neither thread gets any further |
| PubSubBlocking.NoSubscribeReturns | pkg/promquery/client.go:56-63 | in every continuation without these two the publish stays stuck, and no Subscribe on its list returns a channel |
| PubSubDeadlock.DeadlockIsReached | pkg/promquery/client.go:56-91 | runs into the deadlock: ten unread values and an eleventh under way, then the subscriber leaves, then another one joins |
| PubSubDeadlock.DeadlockIsForever | pkg/promquery/client.go:56-91 | from there the poller never publishes again, and neither that Unsubscribe nor that Subscribe returns |
| PubSubFreeze.EveryRunHasOneWriter | pkg/promquery/client.go:151-158 | in every run the map's lock is held by at most one thread from step to step, an exiting poller |
| PubSubFreeze.FreezeEndsExactly | pkg/promquery/client.go:151-158 | an exiting poller that holds the map's lock and waits for a list with a stuck publish stays so at a step, if and only if it neither receives from the full buffer nor ends the root context |
| PubSubFreeze.FreezeIsForever | pkg/promquery/client.go:151-223 | in every continuation without these two the map stays as it is, no step that needs its lock has an effect, and every thread that needs it stays where it is, for any query |
| PubSubFreeze.FreezeIsReached | pkg/promquery/client.go:148-207 | a run into such a freeze: two first Subscribes overlap, and the poller of one exits while the other's publish is stuck |
| PubSubShutdown.EverybodyCanEnd | pkg/promquery/client.go:81-91 | in every run whose root context has ended, whatever locks are held and buffers are full, every call can return and every poller can be gone, by their own steps alone and in a bounded number of them |
| PubSubShutdown.RestIsFree | pkg/promquery/client.go:148-158 | and then no lock is held |
| Monitor.OperatorsPartition | pkg/checker/check_experiment.go:189-200 | the four operators compare as on the real numbers and are complementary in pairs |
| Monitor.ExceededExactly | pkg/checker/check_experiment.go:189-200 | a value exceeds a threshold if and only if neither is NaN and it is above, not below, not above or below it, as the operator says |
| Monitor.EqualityExactly | pkg/checker/check_experiment.go:189-200 | `==` answers as documented if and only if a NaN is involved or the value is above the threshold |
| Monitor.VerdictIsSound | pkg/checker/check_experiment.go:47-111 | in every interleaving: at most one verdict, success only after the timer, which does not fire before the recorded start plus the duration whenever the call was made, a threshold report has the operator and threshold of a configured condition and the first crossing value received on its subscription, and any other ending reports nothing |
| Monitor.CrossingExactly | pkg/checker/check_experiment.go:176-183 | which report a value gives rise to: the threshold and operator of its condition, if and only if the value compares so |
| Monitor.CrossingIsTold | pkg/checker/check_experiment.go:164-187 | in every run a poller that received a crossing value has stopped polling with the report of the first one, and finishes only once that is in the channel, or because the call is done; any other stops only because the call is done, or its subscription is closed and read to its end |
| Monitor.FailureReportedExactly | pkg/checker/check_experiment.go:47-111 | some run of an experiment reports this value, threshold and operator, if and only if the setup succeeds and the value crosses one of its Prometheus conditions |
| Monitor.SuccessReportedExactly | pkg/checker/check_experiment.go:144-162 | some run reports success after a timer that fired at t, if and only if the setup succeeds and t is not before the start plus the duration of the spec, or else plus ten minutes |
| Monitor.InvalidReportedExactly | pkg/checker/check_experiment.go:59-65 | the invalid configuration is reported for exactly the experiments without a spec |
| Monitor.RefusedExactly | pkg/checker/check_experiment.go:67-99 | the call fails in its setup for exactly the experiments whose setup gets to a success-rate query without a service, or to the end without a recorded start |
| Monitor.EndingsExactly | pkg/checker/check_experiment.go:87-111 | the call can be cancelled if and only if the setup succeeds, and its write can fail if and only if there is one |
| Monitor.CancelledByParent | pkg/checker/check_experiment.go:101-104 | in every run the call ends as cancelled only after its parent context was |
| Monitor.SuccessDespiteCrossingExactly | pkg/checker/check_experiment.go:101-110 | some run of an experiment reports success although a poller received a crossing value and its failure is waiting to be read, if and only if the setup succeeds and some Prometheus threshold can be crossed at all |
| Monitor.MeasureFalls | pkg/checker/check_experiment.go:164-187 | after the return and without publishes, no step raises the measure and every step of a poller that changes something lowers it |
| Monitor.CanMoveExactly | pkg/checker/check_experiment.go:87-91 | a live poller of a cancelled call can move if and only if it does not wait for a lock in its Subscribe or its deferred Unsubscribe |
| Monitor.MovesExactly | pkg/checker/check_experiment.go:164-187 | whether the call is done or not, a poller can move if and only if it has something to do, stage by stage |
| Monitor.ReturnedCallComesToRest | pkg/checker/check_experiment.go:52-92 | after the return, however the call ended, and without publishes the pollers make a bounded number of moves, and each is finished, or can move, or waits for a lock in Subscribe or Unsubscribe |
| Monitor.CrashedExactly | pkg/checker/check_experiment.go:67-68 | some run of an experiment reaches the nil dereference of a missing trigger, if and only if the setup gets as far as a condition without one |
| Histories.Checker.Store | pkg/checker/check_experiment.go:243-257 | one more entry in the log, and every named history stays the log's projection to its name |
| Histories.Checker.ProduceReport | pkg/checker/check_experiment.go:259-271 | the k-th history of a report is the projection for the k-th condition's name, or absent if none was stored |
| Histories.CheckerHoldsTheLog | pkg/checker/check_experiment.go:243-257 | the lengths of a checker's histories add up to the number of measurements it ever stored |
| Lifecycle.StoredIsSound | pkg/checker/check_experiment.go:202-223 | in every run, a finishing time exactly in the two final states, and a non-empty report with every failure |
| Lifecycle.FieldsExactly | pkg/checker/check_experiment.go:202-223 | which texts a failure report has, and under which keys |
| Lifecycle.WritesExactly | pkg/checker/check_experiment.go:202-223 | a stored value is replaced exactly by a write that succeeds, under a new version, in what the write is meant to change and in nothing else |
| Lifecycle.CreatesExactly | pkg/api/v1/experiment_client_test.go:57-75 | a new experiment is pending, with the spec it was given and nothing else |
| Lifecycle.RankNeverDecreases | pkg/starter/experiment_starter.go:54-62 | over any interleaving of starter writes, verdicts, edits, creations and deletions, the rank of one stored experiment never falls |
| Lifecycle.FlipExactly | pkg/checker/check_experiment.go:202-223 | one step changes a stored final state if and only if it is a verdict of the other outcome, given on the stored version |
| Lifecycle.PermanentExactly | pkg/checker/check_experiment.go:202-223 | a final state stays as long as the experiment lives, if and only if no such verdict is given on it |
| Lifecycle.LateReadersOnly | pkg/api/v1/experiment_client_test.go:79-90 | so it stays if every later verdict comes from a writer that read the experiment before |
| Lifecycle.VerdictMayFlip | pkg/checker/check_experiment.go:207-215 | a run from the empty store in which a failure becomes a success and keeps the failure report |
| Joint.HalvesAreRuns | pkg/checker/check_experiment.go:164-187 | a run of monitor and publisher together is a run of each of the two machines |
| Joint.QueryOfExactly | pkg/checker/check_experiment.go:113-142 | what a poller subscribes to: the custom query as it is, or the success rate of the service over its interval, or else over a minute |
| Joint.EveryRunIsCoupled | pkg/checker/check_experiment.go:164-187 | in every such run each poller agrees with its own channel, of a list for its condition's query, on the values queued and received, and is blocked exactly while its Subscribe or its Unsubscribe waits for a lock |
| JointVerdicts.EveryPublisherRun | pkg/promquery/client.go:56-223 | every run of the publisher is the publisher's half of a joint run |
| JointVerdicts.FailureReportedExactly | pkg/checker/check_experiment.go:47-187 | with the publisher in between: some joint run reports this value, threshold and operator, if and only if the setup succeeds and the value crosses one of the Prometheus conditions |
| JointVerdicts.SuccessReportedExactly | pkg/checker/check_experiment.go:144-162 | and some joint run reports success after a timer that fired at t, if and only if the setup succeeds and t is not before the deadline |
| Stranding.PollerMovesWithItsCall | pkg/checker/check_experiment.go:165-166 | in every such run a live poller of a cancelled call can move if and only if it is in no call of the publisher or the publisher lets that call take its next step |
| Stranding.StrandedExactly | pkg/checker/check_experiment.go:165-166 | a poller whose call needs a list with a stuck publish stays stranded at a step, if and only if in it nobody receives from the full buffer and the root context does not end |
| Stranding.StrandedForever | pkg/checker/check_experiment.go:165-166 | in every continuation without these two it never moves again |
| Stranding.SelfStrandedExactly | pkg/checker/check_experiment.go:165-166 | if the full buffer is its own, it stays stranded in every continuation, whatever anybody does, if and only if the root context lives |
| Stranding.DeadlockStrandsPoller | pkg/checker/check_experiment.go:87-91 | a run of a monitored experiment that is cancelled while ten values are unread, after which its poller never gets out of Unsubscribe as long as the root context lives |
| Composition.ReportIsFirstPublished | pkg/checker/check_experiment.go:164-187 | in every run of monitor and publisher with serial publishes, a threshold verdict names the first crossing value published, for the query of one of the conditions, on that condition's list since its subscription was made |
| Composition.ReportWasPublished | pkg/checker/check_experiment.go:164-187 | even with overlapping publishes it names a value that compares with the condition's threshold as its operator says, that Prometheus gave as the answer to the condition's query, and that was published to the condition's list since then |
| Composition.RunController | pkg/setup/setup.go:90-94 | the event loop, run on the very objects an emitter sent, ends where the run on values ends, and leaves the emitter as it was |
| OneofCodec.VarintRoundTrip | pkg/api/v1/glooshot.pb.go:466 | every uint64 varint reads back, whatever follows it, and takes its own bytes |
| OneofCodec.VarintLimits | pkg/api/v1/glooshot.pb.go:487 | ten bytes that go on overflow, fewer are cut short, and a value read is a uint64 |
| OneofCodec.DelimitedRoundTrip | pkg/api/v1/glooshot.pb.go:467 | a length-delimited record reads back and takes its own bytes |
| OneofCodec.LengthExactly | pkg/api/v1/glooshot.pb.go:487 | for every length prefix: a length of 2^63 or more is refused, then one beyond the end, and otherwise exactly that many bytes are read |
| OneofCodec.OneofRoundTrip | pkg/api/v1/glooshot.pb.go:461-501 | reading the key and the field rebuilds the value and takes exactly the bytes written, whatever follows |
| OneofCodec.EncodingKeys | pkg/api/v1/glooshot.pb.go:461-478 | the string is field 1 and the message field 2, both length-delimited: the keys are 0x0a and 0x12 |
| OneofCodec.KeyDecides | pkg/api/v1/glooshot.pb.go:480-501 | for every key: another tag is left alone, and tag 1 or 2 with another wire type is refused |
| OneofCodec.CutFieldIsRefused | pkg/api/v1/glooshot.pb.go:480-501 | a field cut short anywhere is an error, never another value |
| OneofCodec.Buffer.EncodeVarint | pkg/api/v1/glooshot.pb.go:466 | the encoding loop appends exactly the varint |
| OneofCodec.Buffer.DecodeVarint | pkg/api/v1/glooshot.pb.go:487 | the decoding loop agrees with the recursive reading of the groups, errors and position included |
| OneofCodec.MarshalOneof | pkg/api/v1/glooshot.pb.go:622-639 | appends the encoding of the value set, and nothing for none |
| OneofCodec.UnmarshalOneof | pkg/api/v1/glooshot.pb.go:641-662 | by tag and wire type: not handled, refused, or the case assigned from the record, empty if that is malformed |
| OneofCodec.SizeOneof | pkg/api/v1/glooshot.pb.go:664-682 | the number of bytes the marshaler writes |
| OneofCodec.MarshalThenUnmarshal | pkg/api/v1/glooshot.pb.go:461-521 | marshaler, unmarshaler and sizer together: the value comes back, and size, bytes written and bytes read are equal |

## Left out

- EventLoop.BatchCoversSnapshot: the durations agree where the monitored spec is set; in the other case they need not, and RunAgreesExactly gives the exact condition.
- Emission.EmissionAgrees: resource versions and statuses may lag, because the hash leaves them out.
- PubSub.Subscribers.Publish: receivers do not run during this method; their interleavings are in PubSubSteps.
- QueryPubSub.SubscriptionsMatchCalls: Subscribe, Unsubscribe and a poller's check-then-exit are single steps and the root context lives; PubSubConservation has the property at lock granularity.
- QueryPubSub.OnePollerExactly: for the same atomic steps; PubSubPolled.OnePollerExactly is for the code's own.
- QueryPubSub.QueryPubSub.Subscribe: the object's methods take each operation as one step; PubSubSteps has the interleavings.
- QueryPubSub.QueryPubSub.Unsubscribe: the same.
- QueryPubSub.QueryPubSub.Tick: the same.
- PubSubConservation.SubscriptionsAreConserved: for runs whose windows stay apart and a live root context; that a query without subscriptions leaves the map is shown only there, the rest exactly in PubSubPolled.ConservedExactly.
- PubSubBlocking.SubscribeMovesExactly: a writer that waits for a lock does not keep new readers out, as Go's RWMutex does.
- PubSubBlocking.UnsubscribeMovesExactly: the same.
- PubSubSteps.DeliveryIsExact: publishes on one list run one at a time, for the order of the values; PubSubDelivery.DeliveredOnce is about every run, without the order.
- PubSubDelivery.DeliveredOnce: says which values, not in which order, since publishes that overlap may reach two subscribers in different orders.
- Composition.ReportIsFirstPublished: for serial publishes, because otherwise there is no common order; ReportWasPublished holds in every run.
- Monitor.VerdictIsSound: says nothing about the name a measurement is stored under, because the goroutine captures the loop variable.
- Monitor.ReturnedCallComesToRest: does not bound how long a poller waits for a lock; by Stranding.DeadlockStrandsPoller there is no bound.
- OneofCodec.Buffer.DecodeBytes: the position after a failed read is not specified.
- Lifecycle.RankNeverDecreases: the rank does not order the two final states, which a second verdict may exchange.
- Floating point: values are NaN, the infinities or real numbers, without rounding.
- Proto lists: nil and empty lists are not told apart, and the entries of the fault and condition lists are taken to be present.
- Failure conditions are values inside the spec, so sharing one condition object between experiments is not modelled.
- Reports in snapshots are values; their clones repeat those of experiments.
- The monitored batch is kept as the values at the time of the sync; later edits of those objects by others are not modelled.
- Resource metadata other than namespace, name and version, and therefore its part in the hash.
- `resources.Clone`, the hash, `Metadata.Less`, `SanitizeName` and the buffer of the protobuf library are modelled by what the code relies on, not by their bodies.
- A nil message inside a oneof case, for which the library returns an error or writes nothing.
- The routing-rule reconciler: the model stops at the desired rules.
- The delivery of errors on error channels (the simple emitter stops if its context ends while it waits to deliver one), tracing, logging and statistics.
- Time: the timer may fire at any time from its deadline on; fairness and liveness of the scheduler are not modelled.
- The joint machine has one monitoring call; other calls are threads of the publisher that do as they like.
- The Istio query text, the command line, the client wrappers, the helm generators and the plain event loop.
