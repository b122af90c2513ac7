# Verified model of OSRD's stateful cores

OSRD is a railway simulation and planning application. This project models, in Dafny, the parts of it whose
correctness depends on state that several operations or several concurrent parties share, and proves what
those parts promise: over every input, every run and every interleaving.

`dafny verify dfyconfig.toml` checks the whole project.

## What is modelled

**The worker-pool scheduler (osrdyne).** A timed tracker decides which request queues should be active,
unbound or deleted (`TargetTracking`, a class over the five tables of the program; `TrackerRuns`, whole runs
against a reference that follows one key; `TrackerActor`, the actor loop that owns the tracker). A controller
chases the published target with one job a key (`QueueController`). `RequestBroker` is the exchange topology
and the queue operations; `PoolSystem` interleaves publishers, workers, the tracker, the controller with its
jobs, and the orphan processor, in any order, with failures; `QueueTopology` relates what the controller
reports to what the broker holds, says exactly when two jobs of a key race, and shows how a forgotten abort
handle lets them; `PoolProgress` says what the orphan processor waits for, when the control loop stops for good
and from which states the pool can still settle.

**Route generation (editoast).** `RouteGraph` builds the search graph from an infrastructure and `LoadedGraph`
says in the terms of the infrastructure which nodes it joins and with which label. `RouteSearch` is the depth-first
search and the walk that rebuilds a route, `SearchOrder` the order of its visits, `RouteGeneration` runs it from
every buffer stop and detector.

**The cached task pipeline (editoast).** `TaskPipeline` is the stream of tasks: chunks, bulk cache reads, the
aggregator and the cache writer, each also written out as the imperative task it is in the program.

**Authorization (editoast).** `TupleStore` is the relation store behind its chunking client; `Membership`
adds and removes group members; `MembershipRuns` follows retries and overlapping calls request by request;
`BatchChecks` is the batched check; `InfraGrants` gives and revokes grants on infrastructures; `Migrations`
moves the authorization model.

**Two algorithms.** `RangeMaps`, `RangeTransforms`, `RangeLaws`, `RangeFolds` and `RangeCuts` are the range-map
transformations;
`SchemaClosure` is the transitive closure of schema references.

`Options`, `Sequences` and `Decimals` hold what these share.

## Assumptions

- The broker follows AMQP's rules for a direct exchange with an alternate exchange: declaring is idempotent,
  binding needs an existing queue, deleting with `if_empty` refuses a queue that holds messages, closing a
  channel requeues what it had not acknowledged. Message ids stand for deliveries. A queue left from before holds
  requests for its own key only.
- The tracker as seen by the pool only moves its generation forward, and an update with the same generation is
  the same update. Both are proved of the tracker itself (`TrackerRuns.SameGenerationSameState`,
  `TrackerActor.ActorGenerations`).
- Equal cache keys mean equal outcomes, outputs survive serialisation, and a bulk read returns a slot a key.
- A request to the relation store is all or nothing, and is rejected when it writes an existing tuple or
  deletes a missing one. The relation model is that of `editoast/fga_migrations/migrations/0_initial_model.fga`.
- Times and range bounds are exact numbers; detector and buffer-stop positions are millimetres.
- The `rangemap` crate keeps its maps sorted, disjoint and merged, and panics on an empty range.

## Where the code and its documentation disagree

The model follows the code.

- The schedule start is documented as the last require time plus the extra lifetime
  (osrdyne/src/target_tracker.rs:37-38). The code adds the extra lifetime only to a queue that does not exist
  yet. `TrackerRuns.ScheduleStartAsDocumented` gives the exact condition.
- The extra lifetime is documented not to lower the active time of a worker group
  (osrdyne/src/target_tracker/client.rs:20-23). A require lowers it exactly when the schedule of the group has
  not started yet (`TrackerRuns.RequireShortensIff`, over runs of the actor `TrackerActor.RequestShortensIff`;
  an example in `TrackerRuns.RepeatedRequireShortensSchedule`).
- The rules of giving grants say that an owner can demote anyone but the last owner
  (editoast/authz/src/regulator.rs:633-635). The code lets no owner demote another owner
  (`InfraGrants.OwnerGivesIff`; an example in `InfraGrants.OwnerCannotDemoteCoOwner`).
- The rules of revoking say that an owner cannot revoke another owner (editoast/authz/src/regulator.rs:709). The
  code does not let owners revoke themselves either (`InfraGrants.OwnerRevokesIff`; an example in
  `InfraGrants.OwnerCannotRevokeThemself`).
- The last owner of an infrastructure is documented not to be revocable, even by administrators
  (editoast/authz/src/regulator.rs:706-709). The guard counts the members of an owning group as owners, so the
  only owning group can be revoked or demoted as soon as it has a member
  (`InfraGrants.LastOwnerGroupCanBeRevoked`; exact condition in `InfraGrants.OwnedStaysOwnedIff`). It also
  counts an owning group without members, beside which the only user who owns can be revoked
  (`InfraGrants.EmptyGroupHidesLastUser`; exact condition in `InfraGrants.UserStaysOwnerIff`).
- Adding members is documented as idempotent (editoast/authz/src/v2.rs:224). Calling it again after a partial
  failure can be rejected in two ways. With an odd write limit a pair of tuples can be split
  (`MembershipRuns.RejectedRetryAddsNobody`; exact condition in `MembershipRuns.RetriesCompleteIff`). With any
  limit, a request of the failed call can arrive after the retry has read the members
  (`MembershipRuns.OvertakenRetryLosesUser`; exact condition in `MembershipRuns.RetryCompletesIff`).
- Aborting the previous job of a key is meant to avoid races (osrdyne/src/queue_controller.rs:130-134). Joining
  a job forgets the handle of a newer job of the same key that still runs, which the next change of target then
  does not abort (`QueueTopology.LostHandleLetsJobsRace`; exact conditions in `QueueTopology.NoRaceIff` and
  `QueueTopology.HandlesKeptIff`).
- The control loop assumes that the join of a job goes well (osrdyne/src/queue_controller.rs:92-95). It aborts jobs
  itself, and joining one that was aborted before its end stops the loop (`PoolProgress.ReplacementStops`); from
  then on the pool never settles (exact condition in `PoolProgress.SettlesIff`).

## Model

| member | source | states |
|---|---|---|
| TargetTracking.ExpectedStatus | osrdyne/src/target_tracker.rs:116-126 | the loop over the chain of statuses gives the status of the schedule: active before the unbind delay, unbound before the delete delay, then none |
| TargetTracking.TargetTracker.constructor | osrdyne/src/target_tracker.rs:86-110 | the initial keys are all active from the initial time, at generation zero, with consistent tables |
| TargetTracking.TargetTracker.RequireQueue | osrdyne/src/target_tracker.rs:177-199 | keeps the five tables in bijection; the key is active and its schedule restarts, no other key is touched, the generation moves only if the status did |
| TargetTracking.TargetTracker.QueueUpdateTransition | osrdyne/src/target_tracker.rs:136-143 | plans the queue at its next event and leaves every other plan |
| TargetTracking.TargetTracker.QueueApplyTransition | osrdyne/src/target_tracker.rs:145-175 | applies exactly one due transition, removes the queue from the due set, keeps the tables consistent; the "inconsistent state" branch is dead |
| TargetTracking.TargetTracker.EvolveUntil | osrdyne/src/target_tracker.rs:202-209 | terminates by the shrinking due set; every queue is moved to its schedule at the given time and no event is left due |
| TargetTracking.TargetTracker.Deadline | osrdyne/src/target_tracker.rs:112-114 | the earliest next event over all queues, attained by one of them, and none only without queues |
| TargetTracking.EvolvingStep | osrdyne/src/target_tracker.rs:202-209 | a queue already moved to the time has nothing due, so no queue changes twice in one evolution |
| TargetTracking.EvolvingEnds | osrdyne/src/target_tracker.rs:202-209 | with nothing due left, the one-by-one transitions add up to moving every queue at once |
| TargetTracking.ReplanKeepsConsistent | osrdyne/src/target_tracker.rs:55-75 | rewriting and replanning one queue keeps arena, key index, plan and published state in bijection |
| TargetTracking.InsertKeepsConsistent | osrdyne/src/target_tracker.rs:187-198 | so does inserting a queue at a fresh index |
| TargetTracking.RemoveKeepsConsistent | osrdyne/src/target_tracker.rs:168-174 | so does removing one |
| TargetTracking.TransitionIsStep | osrdyne/src/target_tracker.rs:145-175 | a due transition of the tables is one step of the observable state of exactly one key |
| TrackerRuns.RunAtKey | osrdyne/src/target_tracker.rs:177-209 | what a run does to a key depends on that key alone |
| TrackerRuns.FollowsReference | osrdyne/src/target_tracker.rs:177-209 | over every run the tracker remembers exactly the schedule start the events of the key imply, and never unbinds early |
| TrackerRuns.PublishedStateIsScheduled | osrdyne/src/target_tracker.rs:116-209 | after any run ended by an evolution no earlier one exceeds, every key is published as its schedule says, absence included |
| TrackerRuns.PublishedTimes | osrdyne/src/target_tracker.rs:116-209 | in plain times: published active until the unbind delay after the start, unbound for the delete delay after that, then gone |
| TrackerRuns.EvolutionsCollapse | osrdyne/src/target_tracker.rs:202-209 | evolving to one time and then a later one is evolving to the later one |
| TrackerRuns.GenerationCountsChanges | osrdyne/src/target_tracker.rs:161-199 | every operation raises the generation by the number of keys whose status it changed |
| TrackerRuns.SameGenerationSameState | osrdyne/src/target_tracker.rs:41-53 | over any run generations never decrease, and equal generations mean equal published states |
| TrackerRuns.ScheduleStartAsDocumented | osrdyne/src/target_tracker.rs:177-199 | a require sets the documented start if and only if the key had no queue or there is no extra lifetime |
| TrackerRuns.UnbindingIsBroughtForwardIff | osrdyne/src/target_tracker.rs:177-199 | a require brings the unbinding of an existing queue forward if and only if it comes before the schedule start |
| TrackerRuns.RequireShortensIff | osrdyne/src/target_tracker.rs:177-199 | after any run, a require makes a queue inactive at some later moment at which it would have been active if and only if the key has a queue whose schedule has not started |
| TrackerRuns.RepeatedRequireShortensSchedule | osrdyne/src/target_tracker.rs:179-182 | a run in which a second require brings the unbinding forward |
| TrackerActor.Iterate | osrdyne/src/target_tracker/actor.rs:95-137 | an iteration evolves to its own time, then serves the message, then publishes the result |
| TrackerActor.RunActor | osrdyne/src/target_tracker/actor.rs:77-139 | one update at the start and one an iteration, until the message to stop and including it |
| TrackerActor.ActorRemembers | osrdyne/src/target_tracker/actor.rs:93-138 | whatever woke the actor up, it forgets a requested start only once it has expired |
| TrackerActor.PublishedAsRequested | osrdyne/src/target_tracker/actor.rs:93-138 | every published status is a function of the requests for that key and the current time only |
| TrackerActor.PublishedTimesAsRequested | osrdyne/src/target_tracker/actor.rs:93-138 | the same of the actor: which status it publishes at which time after the start its requests imply |
| TrackerActor.RequestShortensIff | osrdyne/src/target_tracker/client.rs:20-24 | over every run of the actor, a request lowers the active time of its own group if and only if the schedule an earlier request set has not started yet |
| TrackerActor.ActorGenerations | osrdyne/src/target_tracker/actor.rs:134-137 | updates never go back in generation, and equal generations carry equal states |
| TrackerActor.AnsweredGenerationIsActive | osrdyne/src/target_tracker/client.rs:20-40 | at the generation a require is answered with, and in every update that carries it, the required group is active |
| QueueController.QueuesController.constructor | osrdyne/src/queue_controller.rs:37-62 | starts from the assumption that every existing queue is unbound |
| QueueController.QueuesController.Start | osrdyne/src/queue_controller.rs:48-73 | one job for each existing queue that is not wanted, then one for each wanted queue, each key once |
| QueueController.QueuesController.SpawnEach | osrdyne/src/queue_controller.rs:123-135 | one job for each key of the set, in some order, added to those already spawned |
| QueueController.QueuesController.SpawnJob | osrdyne/src/queue_controller.rs:131-134 | spawns the job, aborts the one whose handle it replaces, if any |
| QueueController.QueuesController.OnTargetChanged | osrdyne/src/queue_controller.rs:110-141 | a job for exactly the keys on which the old and the new target disagree, then the new target and its generation |
| QueueController.QueuesController.OnJobJoined | osrdyne/src/queue_controller.rs:91-107 | reports what the job did and forgets the handle of its key |
| QueueController.StartChases | osrdyne/src/queue_controller.rs:46-80 | after the start every key is reported as wanted or a job is taking it there |
| QueueController.ChangeKeepsChasing | osrdyne/src/queue_controller.rs:110-141 | a new target keeps that so, because a job is spawned for every difference and no other |
| QueueController.JoinKeepsChasingIff | osrdyne/src/queue_controller.rs:91-107 | a completed job keeps that so if and only if a newer job of its key is outstanding, or no older one, or the latest older one had the same goal |
| QueueController.JoinsInOrderAreHarmless | osrdyne/src/queue_controller.rs:91-107 | that condition holds of the oldest outstanding job of a key and of every job that is not its latest |
| QueueController.QuiescentReportIsTarget | osrdyne/src/queue_controller.rs:99-106 | with no job left the report is the target |
| QueueController.QueuesController.OnEvent | osrdyne/src/queue_controller.rs:88-143 | one turn of the loop; it tells whether the join leaves its key to an older job with another goal, which is exactly whether it stops chasing the target |
| QueueController.RunController | osrdyne/src/queue_controller.rs:30-144 | the whole loop on any sequence of targets and completions: it chases its target all along if and only if every join of its trace is harmless, and then, with no job left, it reports exactly the last target |
| PoolSystem.MessagesAreConserved | osrdyne/src/pool.rs:334-390 | over every run and interleaving, a request is in its queue, an orphan, unacknowledged or taken, as often as it was accepted; extra copies are exactly republications that were not acknowledged |
| PoolSystem.UnackedAreHeld | osrdyne/src/pool.rs:356-388 | over every run, the unacknowledged orphans are those buffered or being processed, so an acknowledgement is always possible |
| PoolSystem.GenerationsNeverGoBack | osrdyne/src/queue_controller.rs:137-140 | over every run the reported generation never decreases nor passes the published one, and the orphan processor does not go on before the generation it waits for is reported; `PoolProgress.WaitsForAnswer` says which one that is |
| PoolSystem.ReportConvergesIff | osrdyne/src/queue_controller.rs:88-143 | a run always has every key reported as wanted or pursued by its latest job if and only if no join leaves a key to an older job with another goal |
| PoolSystem.JoinsInOrderConverge | osrdyne/src/queue_controller.rs:88-143 | over every run that joins the jobs of each key in spawn order, or never the latest before an older one, every key is reported as wanted or pursued, and with no job left the reported map is the target map |
| QueueTopology.PerformAdvances | osrdyne/src/queue_controller.rs:184-248 | the two operations of a job bring its queue to its goal and touch no other queue |
| QueueTopology.RunIsAimed | osrdyne/src/queue_controller.rs:88-250 | over every run whose adoptions hold the handles of the running jobs they replace, the broker has what is wanted of a key, or its newest job is taking it there and is the only one that runs |
| QueueTopology.TopologyConverges | osrdyne/src/queue_controller.rs:88-250 | over every such run a key without job has in the broker exactly the queue the target wants: none, unbound or bound; and that is what is reported when the joins are harmless |
| QueueTopology.RepublicationReachesItsQueue | osrdyne/src/pool.rs:367-384 | over every such run that joins in spawn order, a republished orphan reaches the request queue and does not come back, unless a job to unbind or delete the queue is outstanding |
| QueueTopology.NoRaceIff | osrdyne/src/queue_controller.rs:123-135 | over every run, no two jobs of a key ever run at once if and only if every adoption of a target holds the handle of each running job it replaces |
| QueueTopology.HandlesKeptIff | osrdyne/src/queue_controller.rs:99-134 | over every run, the controller always holds the handle of every job that runs if and only if it never joins a job while another one of its key runs |
| QueueTopology.HandlesPreventRaces | osrdyne/src/queue_controller.rs:99-134 | a run that always holds these handles never races |
| QueueTopology.JoinsOutOfOrderMislead | osrdyne/src/queue_controller.rs:91-107 | a run that joins two racing jobs in the order in which they completed, the newer one first, and ends with no job, no failure and a report that contradicts the target |
| QueueTopology.HandleIsForgotten | osrdyne/src/queue_controller.rs:99-134 | a run in which joining a job forgets the handle of the newer one |
| QueueTopology.LostHandleLetsJobsRace | osrdyne/src/queue_controller.rs:99-134 | a run that ends with no job, no failure and a report equal to the target, while the queue that should be bound is not |
| PoolProgress.WaitsForAnswer | osrdyne/src/pool.rs:361-374 | over every run, the generation the orphan processor waits for is the one at which the tracker published the group of that message as active, in answer to it; it has caught up only once that generation is reported |
| PoolProgress.ProcessorMovesIff | osrdyne/src/pool.rs:356-388 | over every run, the orphan processor can take its next step if and only if it does not wait: for a message, for its generation, for its queue to be reported active, or for good |
| PoolProgress.DeliversIff | osrdyne/src/pool.rs:341-355 | an orphan is delivered, behind those before it, if and only if fewer than two hundred are unacknowledged |
| PoolProgress.PrefetchIsKept | osrdyne/src/pool.rs:341-341 | over every run at most two hundred orphans are unacknowledged |
| PoolProgress.HaltedForGood | osrdyne/src/pool.rs:356-390 | a failed orphan processor holds nothing and never starts again |
| PoolProgress.RoutedToQueueIff | osrdyne/src/pool.rs:140-160 | a message goes to its queue if and only if that is bound, and to the orphan queue otherwise |
| PoolProgress.FirstOperation | osrdyne/src/queue_controller.rs:177-250 | the first operation of a job always succeeds and binds nothing |
| PoolProgress.JobEndsIff | osrdyne/src/queue_controller.rs:177-250 | a job alone on its key ends if and only if it is not to delete a queue that holds messages; then its key is as it wants it, no message is lost and no other queue touched |
| PoolProgress.AssumedUntilJoined | osrdyne/src/queue_controller.rs:43-62 | over every run, until a job of a key completes, its queue is reported unbound if it existed at the start, and not at all otherwise |
| PoolProgress.CanAdoptPublished | osrdyne/src/queue_controller.rs:110-141 | a loop that has not stopped can adopt what the tracker published last, and reports its generation |
| PoolProgress.StoppedIff | osrdyne/src/queue_controller.rs:91-95 | over every run, the control loop has stopped if and only if it joined a failed or aborted job |
| PoolProgress.StoppedForGood | osrdyne/src/queue_controller.rs:91-95 | from then on nothing is adopted, operated or reported |
| PoolProgress.FailureStops | osrdyne/src/queue_controller.rs:91-95 | a failed job does nothing more and stops the loop when it is joined |
| PoolProgress.ReplacementStops | osrdyne/src/queue_controller.rs:123-135 | a running job that is replaced while its handle is held can only be joined by stopping the loop |
| PoolProgress.Drain | osrdyne/src/queue_controller.rs:88-250 | after every run without races, stops and dead jobs, the outstanding jobs can all be brought to their end and joined |
| PoolProgress.SettlesIff | osrdyne/src/queue_controller.rs:88-250 | from every state a run without races reaches, the pool can still settle, with no job left and the broker as the tracker wants it, if and only if the loop has not stopped and no outstanding job failed or was aborted |
| RouteGraph.LastMet | editoast/osm_to_railjson/src/generate_routes.rs:81-84 | a detector of the highest position, the last listed among equals |
| RouteGraph.FirstMet | editoast/osm_to_railjson/src/generate_routes.rs:95-98 | a detector of the lowest position, the first listed among equals |
| RouteGraph.GroupDetectors | editoast/osm_to_railjson/src/generate_routes.rs:68-75 | exactly the tracks that have detectors, each with all of its detectors in the order of the file |
| RouteGraph.Graph.AddDirectedEdge | editoast/osm_to_railjson/src/generate_routes.rs:161-164 | successors and labels stay those of the edges added so far |
| RouteGraph.Graph.AddSymmetricalEdge | editoast/osm_to_railjson/src/generate_routes.rs:166-169 | both directions, with one label |
| RouteGraph.Graph.EdgesFromDetectors | editoast/osm_to_railjson/src/generate_routes.rs:77-104 | each track with detectors once: edges to and from the last detector met in each direction |
| RouteGraph.Graph.EdgesFromBufferStops | editoast/osm_to_railjson/src/generate_routes.rs:106-115 | one pair of edges for each buffer stop; `LoadedGraph.BufferStopsAreJoined` says which |
| RouteGraph.Graph.EdgesFromTrackSections | editoast/osm_to_railjson/src/generate_routes.rs:66-125 | the edges of detectors, buffer stops and undetected tracks, and nothing else |
| RouteGraph.Graph.EdgesFromSwitches | editoast/osm_to_railjson/src/generate_routes.rs:127-159 | succeeds if and only if every switch has a known type and its ports; then adds the edges of every group of every switch |
| RouteGraph.Graph.Load | editoast/osm_to_railjson/src/generate_routes.rs:61-64 | succeeds if and only if the switches are well formed, and then the graph is built of exactly the declared edges; `LoadedGraph.LabelIff` says what these are |
| RouteGraph.DeclaredGraphIsCoherent | editoast/osm_to_railjson/src/generate_routes.rs:54-169 | for every infrastructure, successor lists and labels describe the same edges and the kind of an edge fits the kinds of its ends |
| RouteGraph.BuildKeepsLastKind | editoast/osm_to_railjson/src/generate_routes.rs:161-164 | the label between two nodes is that of the last edge added between them |
| RouteGraph.BuildKeepsHeads | editoast/osm_to_railjson/src/generate_routes.rs:161-164 | the successors of a node are where its edges lead, in the order they were added |
| RouteGraph.SwitchHidesTrack | editoast/osm_to_railjson/src/generate_routes.rs:61-64 | two endpoints that a switch joins are crossed as a switch, even when they are the two ends of one track |
| LoadedGraph.MetAreLastAndFirst | editoast/osm_to_railjson/src/generate_routes.rs:81-98 | the detectors that carry the edges of a track are the one no other is beyond, the later listed of equals, and the one beyond no other, the earlier listed of equals |
| LoadedGraph.BufferStopsAreJoined | editoast/osm_to_railjson/src/generate_routes.rs:106-115 | a buffer stop is joined both ways exactly to the beginning of its track, with StartToStop, when it is within ten centimetres of it, and to the end, with StopToStart, otherwise |
| LoadedGraph.DetectorsAreJoined | editoast/osm_to_railjson/src/generate_routes.rs:77-104 | the only ways to and from a detector: from the beginning of a track to its last detector and on to the end with StartToStop, from the end to the first one and back to the beginning with StopToStart |
| LoadedGraph.DetectedTrackHasBoth | editoast/osm_to_railjson/src/generate_routes.rs:77-104 | every track with a detector has a last and a first one |
| LoadedGraph.EndpointsAreJoined | editoast/osm_to_railjson/src/generate_routes.rs:117-159 | two track endpoints are joined exactly by a switch, whose id and port the label names, or as the two ends of a track without detectors |
| LoadedGraph.LabelIff | editoast/osm_to_railjson/src/generate_routes.rs:61-169 | for every infrastructure, which label the loaded graph has between any two nodes |
| LoadedGraph.SuccessorsAreJoined | editoast/osm_to_railjson/src/generate_routes.rs:161-164 | the successor lists hold exactly the labelled pairs |
| LoadedGraph.SwitchesOkIff | editoast/osm_to_railjson/src/generate_routes.rs:127-150 | loading succeeds if and only if the first type with the name of each switch exists and every port its connections name is declared |
| LoadedGraph.RouteEndsAsDeclared | editoast/osm_to_railjson/src/generate_routes.rs:241-281 | a route leaves its entry point to the end of the track that lies in the direction it is labelled with, and comes to its exit point from the end before it |
| RouteSearch.WalkHasNoCycle | editoast/osm_to_railjson/src/generate_routes.rs:246-259 | walking the parents back never repeats a node |
| RouteSearch.WalkIsRoutePath | editoast/osm_to_railjson/src/generate_routes.rs:175-259 | in every parent tree the way back is a simple path of the graph through track endpoints without U-turn, at the end of the search as when it was found |
| RouteSearch.PortsStep | editoast/osm_to_railjson/src/generate_routes.rs:249-252 | of several crossings of a switch, the one nearest the entry decides the port |
| RouteSearch.BuildRoute | editoast/osm_to_railjson/src/generate_routes.rs:241-281 | ends at the start; entry, exit, direction of the first edge, id and exactly the switches crossed, each with the port of its first crossing; both unreachable arms are dead |
| RouteSearch.Visit | editoast/osm_to_railjson/src/generate_routes.rs:184-196 | entering a node keeps the parent tree, one route for each waypoint reached, and the labels of the routes found before |
| RouteSearch.Expand | editoast/osm_to_railjson/src/generate_routes.rs:182-199 | leaves no successor of the node untaken but those visited, the start, and U-turns, which `RouteSearch.LeftUntakenOnlyToTurnBack` lists; visits them in order |
| RouteSearch.OneToAllRoutes | editoast/osm_to_railjson/src/generate_routes.rs:175-201 | ends; its routes are described by route paths, one for each waypoint reached, in the order of the visits; no node gone through has a successor left to take but to turn back; the search was depth-first |
| RouteSearch.SearchProgresses | editoast/osm_to_railjson/src/generate_routes.rs:181-199 | each turn of the loop visits a new node or only empties the stack |
| RouteSearch.LeftUntakenOnlyToTurnBack | editoast/osm_to_railjson/src/generate_routes.rs:181-238 | the edges a finished search left: two switches in a row, a detector straight after a detector or a bare track, a bare track straight after a detector, and no other |
| RouteSearch.NextToStartIsVisited | editoast/osm_to_railjson/src/generate_routes.rs:181-238 | everything next to the start is visited |
| SearchOrder.VisitKeepsOrder | editoast/osm_to_railjson/src/generate_routes.rs:181-199 | every visit keeps the search depth-first and the children of a node in the order of its successors |
| SearchOrder.PopKeepsOrder | editoast/osm_to_railjson/src/generate_routes.rs:181-181 | so does taking the next node from the stack, which has none of its successors visited from it yet |
| SearchOrder.LaterSiblingGoesFirst | editoast/osm_to_railjson/src/generate_routes.rs:181-199 | all that descends from a node is visited before any child of a sibling visited earlier |
| RouteGeneration.Routes | editoast/osm_to_railjson/src/generate_routes.rs:284-299 | succeeds if and only if the switches are well formed; then it returns the complete searches from every buffer stop, then every detector, in order |
| RouteGeneration.StartsInOrder | editoast/osm_to_railjson/src/generate_routes.rs:288-298 | one start for each buffer stop, then one for each detector, in the order of the file |
| RouteGeneration.EveryRouteIsAPath | editoast/osm_to_railjson/src/generate_routes.rs:284-299 | every route generated is a simple path of the graph and carries the labels of that path |
| RouteGeneration.RoutePathNeverTurnsBack | editoast/osm_to_railjson/src/generate_routes.rs:219-237 | no two switches in a row, no detector straight after a detector or a bare track |
| RouteGeneration.OneRouteAWaypoint | editoast/osm_to_railjson/src/generate_routes.rs:186-191 | two routes of one start lead to different waypoints |
| RouteGeneration.RouteNamesItsEnds | editoast/osm_to_railjson/src/generate_routes.rs:262-281 | entry and exit are named as the buffer stop or detector they are |
| RouteGeneration.LastBranchFirst | editoast/osm_to_railjson/src/generate_routes.rs:181-199 | where two routes of one start part and both go on, the one with the lower number took the later one of the two successors |
| RouteGeneration.NearestEndFirst | editoast/osm_to_railjson/src/generate_routes.rs:181-199 | where two routes part, the one that ends right there has the lower number |
| RouteGeneration.NeighboursInLine | editoast/osm_to_railjson/src/generate_routes.rs:181-199 | where two routes part and both end there, they are numbered in the order of the successors |
| RouteGeneration.RouteIdIsInjective | editoast/osm_to_railjson/src/generate_routes.rs:274-274 | entry point and count can be read back from a route id, even when entry points contain dashes |
| RouteGeneration.RouteIdsAreUniqueIff | editoast/osm_to_railjson/src/generate_routes.rs:273-299 | over all starts, no two routes share an id if and only if no two starts that have routes share an identifier |
| TaskPipeline.BulkGet | editoast/cache/src/connection.rs:175-198 | a slot a key in order, an unreadable entry counting as missing, or a failure of the whole read |
| TaskPipeline.TaskStream.NextChunk | editoast/core_task/src/lib.rs:247-247 | full chunks, then a shorter last one |
| TaskPipeline.TaskStream.ProcessChunk | editoast/core_task/src/lib.rs:250-300 | one message a request to the aggregator, with its own key and what the cache had for it; all missed when the read fails |
| TaskPipeline.TaskStream.Aggregate | editoast/core_task/src/lib.rs:312-320 | a hit is answered at once, a miss is computed |
| TaskPipeline.TaskStream.CompleteComputation | editoast/core_task/src/lib.rs:320-340 | a success is written and answered, a failure only answered; `TaskPipeline.CacheIsFilled` says what becomes of the writes |
| TaskPipeline.TaskStream.WriteNext | editoast/core_task/src/lib.rs:221-230 | entries are stored in order, a failed write is dropped |
| TaskPipeline.RunStream | editoast/core_task/src/lib.rs:185-348 | the stream, driven by any schedule with any failed reads and writes and let run to its end, returns the answers of the plain computation |
| TaskPipeline.RunIsHonest | editoast/core_task/src/lib.rs:213-347 | over every run from a truthful cache, the cache, what is about to be written and every answer stay true |
| TaskPipeline.FailuresAreNotCached | editoast/core_task/src/lib.rs:320-340 | over every run, a task that fails never has a readable entry |
| TaskPipeline.CacheIsFilled | editoast/core_task/src/lib.rs:320-340 | over every run that loses no entry, once everything is answered and written, the cache has the output of every input that computes |
| TaskPipeline.HitIsAnsweredFromCache | editoast/core_task/src/lib.rs:312-319 | a request whose entry is readable when its chunk is read is answered with that entry, whatever happens later, and is never computed |
| TaskPipeline.ChunksFit | editoast/core_task/src/lib.rs:247-247 | over every run a cache read is for at least one request and at most a batch |
| TaskPipeline.RequestsAreConserved | editoast/core_task/src/lib.rs:213-347 | over every run, each request is in exactly one place of the pipeline, answers included, as often as it was given |
| TaskPipeline.SameRequestsSameAnswers | editoast/core_task/src/lib.rs:165-174 | the order of the inputs decides only the order of the answers |
| TaskPipeline.PipelineAgreesWithPlainComputation | editoast/core_task/src/lib.rs:165-347 | for every chunking, interleaving and pattern of cache failures, the answers are those of the plain computation, one for each input with its correlation key |
| TaskPipeline.EveryActIsProgress | editoast/core_task/src/lib.rs:213-347 | each act of the pipeline decreases the work left, whatever others do to the cache |
| TaskPipeline.NeverStuck | editoast/core_task/src/lib.rs:213-347 | while anything is unanswered or unwritten some task can act |
| TaskPipeline.EveryRunCanFinish | editoast/core_task/src/lib.rs:213-347 | every state can be brought to its end in at most as many acts as there is work left |
| TaskPipeline.SingleAgreesWithPlainComputation | editoast/core_task/src/lib.rs:80-127 | the unbatched form returns what computing would, and its late write keeps the cache truthful |
| TaskPipeline.SingleFillsCache | editoast/core_task/src/lib.rs:80-127 | the unbatched form writes if and only if it missed and computed, and the entry then reads as the output |
| TupleStore.Store.SendChunks | editoast/fga/src/client.rs:843-857 | what every chunk leaves in the store, carried out or not, accepted or rejected, on every store |
| TupleStore.Store.ExecuteWrites | editoast/fga/src/client.rs:834-859 | on every store: succeeds if and only if every request is carried out, no tuple is repeated and none existed, and then all are there; otherwise only some of these tuples are added |
| TupleStore.Store.ExecuteDeletes | editoast/fga/src/client.rs:880-905 | on every store: succeeds if and only if every request is carried out, no tuple is repeated and all existed, and then none is there; otherwise only some of these tuples are removed |
| TupleStore.SucceedsIff | editoast/fga/src/client.rs:843-857 | the chunks all succeed if and only if all are carried out and the server would have accepted the tuples in one request, and then every tuple takes effect |
| TupleStore.ExecutedIsLanded | editoast/fga/src/client.rs:838-857 | when the server would have accepted the tuples in one request, exactly the chunks that are carried out take effect |
| Sequences.FlattenChunks | editoast/fga/src/client.rs:843-845 | the chunks, put together, are the tuples in order |
| Membership.PushPairs | editoast/authz/src/v2.rs:236-240 | both tuples of each user side by side, each user once |
| Membership.AddMembers | editoast/authz/src/v2.rs:225-248 | on every store: writes the pairs of exactly the members the group lacks, and success means the union; on a symmetric store it succeeds whenever its requests are carried out |
| Membership.RemoveMembers | editoast/authz/src/v2.rs:297-320 | on every store: deletes the pairs of exactly the given members the group has, and success means the difference; on a symmetric store it succeeds whenever its requests are carried out |
| Membership.EvenChunksKeepPairs | editoast/authz/src/v2.rs:237-241 | with an even write limit, whichever requests fail, the two tuples of a user land together or not at all |
| Membership.OddChunkSplitsAPair | editoast/authz/src/v2.rs:237-241 | with an odd limit the first request alone leaves a user half a member |
| Membership.SymmetryIffPairsFit | editoast/authz/src/v2.rs:225-320 | adding and removing keep both sides of membership in agreement for every pattern of failures if and only if the limit is even or one request suffices |
| Membership.AttemptIsAcceptable | editoast/authz/src/v2.rs:225-320 | in a symmetric store, an addition writes no existing tuple and a removal deletes no missing one |
| Membership.SuccessReachesGoal | editoast/authz/src/v2.rs:222-320 | on every store, an addition that succeeds gives the union and a removal that succeeds the difference |
| Membership.AttemptStaysInBounds | editoast/authz/src/v2.rs:222-320 | whatever fails or is rejected, no other member and no other group changes, and additions never remove nor removals add |
| MembershipRuns.RetryCompletes | editoast/authz/src/v2.rs:222-320 | when the limit cannot split a pair and no request of the failed call is still on its way, a retry after any partial failure writes no existing tuple, deletes no missing one, succeeds and ends with the union or the difference |
| MembershipRuns.RetryCompletesIff | editoast/fga/src/client.rs:838-858 | when the limit cannot split a pair, a retry all of whose requests arrive, in any order and among late requests of the failed call, is accepted if and only if no late request arrives before every request of the retry that shares a tuple with it; then it ends with the union or the difference |
| MembershipRuns.LateIsConcerned | editoast/fga/src/client.rs:838-842 | every tuple of a request of the failed call that had not arrived when the retry read the members is a tuple of the retry |
| MembershipRuns.SplitPairBlocksRetry | editoast/authz/src/v2.rs:222-320 | with an odd limit there is a failure after which a retry is rejected in whatever order it goes, although all its requests arrive |
| MembershipRuns.RetriesCompleteIff | editoast/authz/src/v2.rs:222-320 | every retry that no late request overtakes completes, after every partial failure, if and only if the limit is even or one request suffices |
| MembershipRuns.RejectedRetryAddsNobody | editoast/authz/src/v2.rs:225-248 | three tuples a request, two users: a retry all of whose requests are carried out adds nobody |
| MembershipRuns.OvertakenRetryLosesUser | editoast/fga/src/client.rs:838-842 | four tuples a request, three users: a late request overtakes the retry, and one user is not added although all requests of the retry arrive |
| MembershipRuns.SymmetryOverRuns | editoast/authz/src/v2.rs:225-320 | with an even limit both sides of membership agree after every run, under every interleaving of single requests of any additions and removals, late and overlapping ones included |
| MembershipRuns.RequestsKeepSymmetryIff | editoast/authz/src/v2.rs:225-320 | every single request of every call keeps both sides in agreement if and only if the limit is even |
| BatchChecks.ChunkingIsTransparent | editoast/fga/src/client.rs:737-755 | the responses to the chunks, taken together, answer the checks as one request would have been |
| BatchChecks.IndexIds | editoast/fga/src/client.rs:721-735 | each correlation id leads back to the place of its check |
| BatchChecks.Execute | editoast/fga/src/client.rs:718-774 | one result a check, in order, equal to the server's answer to that check for every chunk limit and order of entries; a check the server left out is refused |
| InfraGrants.OwnersAreEffective | editoast/authz/src/regulator.rs:524-547 | the list of owners is exactly the subjects with an effective grant of ownership |
| InfraGrants.RevokeUnchecked | editoast/authz/src/regulator.rs:758-818 | removes the direct grants of the subject and nothing else; fails exactly when its one request does |
| InfraGrants.GiveUnchecked | editoast/authz/src/regulator.rs:569-618 | unknown infrastructure, then unknown subject; the new grant replaces the old ones; what each of the two failures leaves |
| InfraGrants.Give | editoast/authz/src/regulator.rs:621-695 | a refused change touches nothing; an allowed one leaves exactly what its two requests make of the store; `InfraGrants.GiveIff` says which changes are allowed |
| InfraGrants.Revoke | editoast/authz/src/regulator.rs:698-755 | a refused revocation touches nothing; a completed one removes the direct grants of the subject and nothing else |
| InfraGrants.AtMostOneOverRuns | editoast/authz/src/regulator.rs:315-405 | over every sequence of operations, interrupted ones included, no subject has two direct grants, so the panics are dead |
| InfraGrants.ShareableIsHeld | editoast/authz/src/regulator.rs:643-656 | a user may share a grant if and only if they hold it or a higher one |
| InfraGrants.GrantIsHighest | editoast/authz/src/regulator.rs:275-344 | the grant of a subject is the highest one stored for itself or, of a user, for a group they are a member of |
| InfraGrants.GiveIff | editoast/authz/src/regulator.rs:621-695 | who may give what to whom, administrators, owners, writers and readers alike, and exactly when each error and the refusal for the last owner is answered |
| InfraGrants.RefusalIff | editoast/authz/src/regulator.rs:676-694 | which of the two other refusals is answered |
| InfraGrants.WriterGivesReader | editoast/authz/src/regulator.rs:643-656 | a writer may make somebody a reader, and not an owner |
| InfraGrants.RevokeIff | editoast/authz/src/regulator.rs:698-755 | who may revoke whom, and exactly when each error and refusal is answered |
| InfraGrants.GiverOutranks | editoast/authz/src/regulator.rs:628-687 | nobody but an administrator gives more than they have, or lowers someone else who is not strictly below them |
| InfraGrants.OwnerGivesIff | editoast/authz/src/regulator.rs:628-695 | an owner may give a grant if and only if it does not demote another owner, nor themself as the only one listed |
| InfraGrants.OwnerCannotDemoteCoOwner | editoast/authz/src/regulator.rs:676-686 | a store with two owners, of whom the rules let one demote the other and the code does not |
| InfraGrants.OwnerRevokesIff | editoast/authz/src/regulator.rs:733-751 | somebody who is no administrator may revoke a subject if and only if they own and the subject does not |
| InfraGrants.OwnerCannotRevokeThemself | editoast/authz/src/regulator.rs:745-750 | a store with two owners, of whom neither can revoke their own grant |
| InfraGrants.OwnerIsDemotedIff | editoast/authz/src/regulator.rs:621-695 | who may demote an owner: an administrator or that owner, when the list of owners shows someone else and everybody is known |
| InfraGrants.OwnerIsRevokedIff | editoast/authz/src/regulator.rs:698-755 | who may revoke an owner: an administrator, when the list of owners shows someone else |
| InfraGrants.GiveLosesOwnerIffSoleGroup | editoast/authz/src/regulator.rs:663-674 | an allowed change leaves an infrastructure without direct owner if and only if it lowers a group that is the only one, which then has a member |
| InfraGrants.RevokeLosesOwnerIffSoleGroup | editoast/authz/src/regulator.rs:711-753 | an allowed revocation does if and only if its subject is a group and the only direct owner |
| InfraGrants.LastOwnerGroupCanBeRevoked | editoast/authz/src/regulator.rs:706-754 | a store in which an administrator may revoke the only owner |
| InfraGrants.InterruptedGiveLosesOwnerIff | editoast/authz/src/regulator.rs:590-615 | whichever of its requests are carried out, giving leaves no direct owner if and only if the only one was deleted and ownership not written again |
| InfraGrants.CompleteLosesOwnerIff | editoast/authz/src/regulator.rs:621-755 | an operation leaves an owned infrastructure without direct owner if and only if an administrator demotes or revokes a group with a member that is the only one |
| InfraGrants.OwnedStaysOwnedIff | editoast/authz/src/regulator.rs:621-755 | over every run of completed operations an owned infrastructure stays owned if and only if no administrator ever does that |
| InfraGrants.OwnedStaysOwned | editoast/authz/src/regulator.rs:621-755 | so it always does while only users are made owners, whatever administrators do |
| InfraGrants.CompleteLosesUserIff | editoast/authz/src/regulator.rs:621-755 | an operation leaves no user owning, directly or through a group, if and only if all user ownership rests on its subject, the list of owners shows someone else, a member of the subject or a group without members, and the issuer may demote or revoke |
| InfraGrants.UserStaysOwnerIff | editoast/authz/src/regulator.rs:621-755 | over every run some user keeps owning if and only if no operation ever does that |
| InfraGrants.EmptyGroupHidesLastUser | editoast/authz/src/regulator.rs:706-754 | a store in which an administrator may revoke the only user who owns, because an owning group without members is listed |
| Migrations.IdRoundTrip | editoast/fga_migrations/src/lib.rs:74-94 | a migration reads back from its id, whatever its hash, if and only if its number fits a machine word |
| Migrations.IdIsRefusedIff | editoast/fga_migrations/src/lib.rs:74-94 | what does not read as an id: a text without a dash, or without a number that fits before its first dash |
| Decimals.ParsePrint | editoast/fga_migrations/src/lib.rs:78-91 | a number reads back from its decimal digits if and only if it does not exceed the bound |
| Decimals.ParseIff | editoast/fga_migrations/src/lib.rs:78-91 | a number is read from digits, alone or behind one plus sign, if it fits, and from nothing else |
| Migrations.TargetIndex | editoast/fga_migrations/src/lib.rs:108-118 | the target is always within the list |
| Migrations.MigrationStores.RunMigrations | editoast/fga_migrations/src/lib.rs:121-196 | what a run leaves in the two stores, and how it ends, when it is stopped after any number of its requests |
| Migrations.AttemptKeepsInStep | editoast/fga_migrations/src/lib.rs:121-196 | however far a run gets, at most one migration is recorded and the authorization store has its model; the store is never found inconsistent |
| Migrations.CompletedRunReachesTarget | editoast/fga_migrations/src/lib.rs:121-196 | a completed run leaves exactly the target recorded and its model in place |
| Migrations.CompletedRunRecords | editoast/fga_migrations/src/lib.rs:108-196 | what a completed run records: the number and hash of the last migration of the list, or of the one of the given name |
| Migrations.RunEndsIff | editoast/fga_migrations/src/lib.rs:121-196 | when a run ends with an unknown name, an inconsistent store or success, and how many requests it needs for it |
| Migrations.RerunChangesNothing | editoast/fga_migrations/src/lib.rs:151-158 | running again changes neither store, however far the second run gets |
| Migrations.CrashSafety | editoast/fga_migrations/src/lib.rs:121-196 | after any sequence of interrupted runs the record never contradicts the store, and a run allowed to finish reaches its target |
| RangeMaps.CanonicalIsUnique | editoast/common/src/rangemap_utils.rs:40-46 | two maps with the same value at every position are the same map |
| RangeMaps.InsertIsCanonical | editoast/common/src/rangemap_utils.rs:43-43 | insertion keeps a map sorted, disjoint and merged |
| RangeMaps.InsertAt | editoast/common/src/rangemap_utils.rs:43-43 | insertion puts the new value on the new range and keeps every other position |
| RangeTransforms.Clip | editoast/common/src/rangemap_utils.rs:48-58 | the loop computes the clipped map, or fails where the program panics |
| RangeTransforms.ClipFailsIff | editoast/common/src/rangemap_utils.rs:48-58 | clipping panics if and only if the clip range is empty or reversed and a range straddles it |
| RangeTransforms.ClipIsRestriction | editoast/common/src/rangemap_utils.rs:48-58 | clipping keeps every value inside the clip range and none outside |
| RangeTransforms.Shift | editoast/common/src/rangemap_utils.rs:66-82 | the loop computes the shifted map, or fails where the program panics |
| RangeTransforms.Destination.Extend | editoast/common/src/rangemap_utils.rs:85-95 | the destination after inserting range by range, stopping at the first overlap |
| RangeTransforms.ExtendIsDisjointUnion | editoast/common/src/rangemap_utils.rs:85-95 | extending succeeds if and only if the moved origin meets the destination nowhere, and is then their union |
| RangeFolds.ExtendStopsAtFirstMeeting | editoast/common/src/rangemap_utils.rs:85-95 | a failed extension leaves exactly the ranges before the first one that meets the destination |
| RangeLaws.ShiftFailsIff | editoast/common/src/rangemap_utils.rs:66-82 | shifting panics if and only if the entry has reached the middle of the nearest range |
| RangeLaws.ShiftIsTravelIff | editoast/common/src/rangemap_utils.rs:65-82 | shifting is translation forward and reflection backward if and only if the entry is outside, on the near side of every range |
| RangeFolds.ShiftIsFoldedTravel | editoast/common/src/rangemap_utils.rs:66-82 | from an entry inside the nearest range, what lies behind it and as much again before it is lost, and the rest is travelled |
| RangeFolds.ShiftKeepsLengthBut | editoast/common/src/rangemap_utils.rs:66-82 | so a shift that does not panic shortens the covered length by twice the depth of its entry |
| RangeLaws.TravelKeepsLength | editoast/common/src/rangemap_utils.rs:65-82 | travelling a map keeps its covered length, in both directions |
| RangeLaws.TranslatedAt | editoast/common/src/rangemap_utils.rs:65-82 | forward, the value at a position is the one at the entry plus that position |
| RangeLaws.MirroredAt | editoast/common/src/rangemap_utils.rs:65-82 | backward, away from the ends of ranges, it is the one at the entry minus that position |
| RangeLaws.ShiftBackTwiceIff | editoast/common/src/rangemap_utils.rs:66-82 | travelling backward twice restores the map if and only if it starts at zero or later |
| RangeLaws.ExtendUndoesShift | editoast/common/src/rangemap_utils.rs:66-95 | extending an empty map at the entry undoes a shift forward |
| RangeLaws.ClipsCompose | editoast/common/src/rangemap_utils.rs:48-58 | clipping twice is clipping to the common part |
| RangeLaws.ClipsJoin | editoast/common/src/rangemap_utils.rs:48-95 | cutting a map in two and extending one part with the other gives it back |
| RangeCuts.ClipIsCut | editoast/common/src/rangemap_utils.rs:48-58 | clipping cuts each range by itself and keeps them in order |
| RangeCuts.ClipCommutesWithShift | editoast/common/src/rangemap_utils.rs:48-82 | clipping what was travelled is travelling what was clipped, in both directions |
| SchemaClosure.AddReferences | railway_manager_interface/generate_railway_interface_management_models.py:103-109 | adds exactly the references of the schema, queues the new ones, and stays within what is needed |
| SchemaClosure.FindTransitiveSchemas | railway_manager_interface/generate_railway_interface_management_models.py:93-111 | ends on cyclic references with exactly the names some chain of references needs: the least closed set that holds the initial names |
| SchemaClosure.NeededIsLeast | railway_manager_interface/generate_railway_interface_management_models.py:93-111 | every closed set that holds the initial names holds every needed one |
| SchemaClosure.OrderIsIrrelevant | railway_manager_interface/generate_railway_interface_management_models.py:97-109 | what is needed does not depend on the order of the initial names or of the references |

## Left out

- QueueTopology.TopologyConverges: holds of the runs in which no two jobs of a key ever run at once, a condition that `QueueTopology.NoRaceIff` makes exact; a run in which they do may still end with the right queues, depending on which operation comes last.
- QueueTopology.RepublicationReachesItsQueue: leaves out moments at which a job to unbind or delete the queue is outstanding, since whether it has acted yet is not reported.
- RouteSearch.OneToAllRoutes: does not claim a route for every waypoint some valid path reaches, because a visited node is never entered again by another edge.
- RangeLaws.MirroredAt: leaves out the ends of ranges, where reflection turns half-open ranges around.
- The moment between the orphan processor's last look at the report and its publication: they are one step.
- Effects of an aborted job whose broker request was already on its way when it was aborted.
- Transport: AMQP, the HTTP interface of the relation store, the database and the cache server are queues, tuple sets and maps.
- Time-to-live and length policies of queues, dead-lettering, and acknowledgement by workers.
- `activity_processor`, `deadletter_responder`, the worker control loop and the worker drivers, queue-name parsing, and reconnection.
- The client side of the message queue (`editoast/core_client/src/mq_client.rs`).
- Task streams dropped before they are consumed, and the sorting of keys in unit tests.
- Roles (`add_roles`, `remove_roles`), guardrails and sanity checks: one tuple a role, so easier than membership.
- Privileges other than sharing, and paging through stored tuples.
- Overlapping runs of migrations and of grant operations, and requests of a grant operation that reach the server after it has returned.
- Whether a membership call succeeds while calls other than the one it retries are at work; both sides of membership agree even then.
- Errors inside a batch-check entry: the entry's verdict is used as it stands, as the program does after logging.
- SHA-1 is an arbitrary function.
- Rounding: `f64` positions, bounds and durations are exact numbers here.
- Release detectors of routes, which are always empty.
- How schema references are found inside a schema document.
