# Railway dispatch: a verified model

A C++ server decides which train may enter a shared single-track corridor, and a game-side
mod in C# carries the decision out.  This project models the parts of both on which safety
and liveness rest, and proves what they promise.

| modules | what they model |
|---|---|
| `Reservations`, `ReservationRuns`, `ReservationLaws` | the intersection reservation book: atomic multi-movement reservations, clearance times, and whole runs of it |
| `Policy`, `PolicyLaws` | hard constraints, the overdue and the normal tier, consecutive-release limit, and how every part of the weighing counts |
| `DispatchSpec`, `DispatchManagers`, `DispatchRuns`, `DispatchLaws`, `Overtaking` | the corridor interlock: a transition system on values, the manager object that performs exactly its steps, and safety, accounting, headway, credit and bounded overtaking over whole runs |
| `Restart`, `Recovery`, `LiveRows`, `Lives`, `Restarts`, `RestartClearance` | replaying unfinished commands after a restart: which rows are accepted and what they rebuild, which deeds keep the stored rows exact, what holds throughout the life of a service, which restarts in it succeed and restore it, and what becomes of clearance times |
| `TwoCorridors`, `CrossingLife`, `RefusedRestart`, `LostReservations` | a small topology and lives in it that show what a restart or a failed cycle can lose |
| `ManagerCalls`, `Setup`, `Cycle`, `Lifecycle`, `Service`, `ServiceLaws`, `ServiceLife` | the dispatch service: setup from a topology, telemetry cycles, acknowledgements, clears, stale cleanup, recovery; the database is a table of command rows; its methods lead from moment to moment of a life |
| `CandidateBuilder`, `CandidateLaws`, `ArcDistance`, `Planner`, `PlannerLaws` | candidates, phases and waiting records, the distance still to run, the rolling plan of one resource |
| `GridIndex`, `GridLaws`, `UnionFind`, `CorridorMerge`, `MergeLaws` | the line analyzer's index, clustering and corridor merge |
| `Passage`, `PassageRuns`, `PassageLaws`, `ControlQueue` | the game-side passage machine and its ordered, retried control queue |
| `TimerHeap` | the lazily deleted connection timer |
| `Basics` | an optional value, maxima, the order of strings |

An object whose methods change its fields is a class whose methods are each proved to
perform one step of a function or relation on values; lemmas about those steps, and about
sequences of them, state what the system promises.  The dispatch manager carries the run
it has made so far as ghost state, and every method extends it by its own label, so the
lemmas about runs hold of the object.  The modules named `...Laws` say what those steps and
functions amount to on the fields of the records themselves (ids, times, weights, distances),
so that they can be read without the definitions.  Simulation and wall times, counters and ids are
unbounded naturals, except in `Planner`, where times saturate at 64 bits as in the source;
scores, positions and lengths are real numbers.  Success of a database transaction, clock
readings, telemetry and geometric tests are parameters.

## What holds, and where the code falls short

The main safety claims hold of every run: conflicting movements are never reserved
together, at most one direction of a corridor is in use, and entries keep the headway.  A
restart that succeeds restores every occupancy, and a restart succeeds and restores the live
state as long as releases were of trains without an unfinished command, clears of whole
passages, and no stale cleanup has withdrawn a command.  The following is what the code does
not guarantee; each point names the lemma that gives the exact condition and, where there is
one, an input or run that shows it.

- Overwriting a resource's state while another direction is in use can break the interlock;
  `DispatchRuns.UpsertKeepsInterlockIff` says when it does not.  The service only sets up
  idle resources.
- A clear dated before an earlier clear shortens the clearance time
  (`ReservationRuns.ClearKeepsEarlierClearIff`, `ReservationRuns.BackdatedClearBreaksClearance`).
- Cancelling a train's command frees whatever else the train holds, so cancelling undoes a
  release exactly when the train held nothing (`ReservationRuns.CancelUndoesReserve`,
  `DispatchRuns.CancelUndoesPlan`).
- Restoring an active command on a full resource is accepted but not counted: after recovery
  an occupancy is the number of accepted rows, up to the capacity (`Recovery.RecoveredAll`,
  `Recovery.FullResourceRestored`).
- Among overdue trains there is no tie-break by train id, so the decision can depend on the
  order of candidates, exactly when two share the best wait and score
  (`Policy.OverdueOrderFreeIff`).
- Withdrawing a cycle that could not be stored takes planning back exactly when every release
  got its command and was of a train that held nothing (`Cycle.WithdrawalUndoesPlanningIff`).
  A release for a train that has a command stays pending; a train that is still inside a
  corridor loses the reservations of that passage (`Cycle.WithdrawalFrees`,
  `LostReservations.FailedStoreDropsPassage`).
- Three deeds can leave stored rows that do not describe the manager, exactly when a guard
  fails (`LiveRows.DeedKeepsRowsIff`): releasing a train that has an unfinished command,
  clearing less than a train's whole passage or freeing something without one, and dropping
  a stale train that has a pending command.
- A stale cleanup does not tell the table.  The rows still describe the manager exactly when
  no removed train had a command (`ServiceLife.CleanupKeepsRowsIff`).  Once a command was
  withdrawn no restart of an orderly life restores the live state
  (`Restarts.OrderlyRestartIff`): the next one brings the command back
  (`Restarts.WithdrawnIsRevived`), and recovery is refused exactly when two stored rows do not
  stand together (`Restarts.RestartAcceptedIff`), as when the next train was released on the
  same resource (`RefusedRestart.StaleCleanupRefusesRestart`).
- A release for a train that has a pending command locks its resource with a decision that no
  command answers.  A restart forgets it: pending decisions are restored exactly when withdrawn
  commands stand in for those without one (`Restarts.RestartFollowsIff`,
  `RefusedRestart.RestartForgetsUnfiled`).
- Recovery files one command for each train, so every restored pending decision has its command
  exactly when the PENDING rows are of different trains (`Recovery.CommandsRecoveredIff`,
  `RefusedRestart.RestartLosesCommand`).
- A clear that frees nothing closes the row in the table while the passage stays open
  (`LiveRows.ClearOfNothingClosesRow`).
- Clearance times are not restored.  A reservation right after a restart keeps the clearance
  after every earlier clear exactly when the live book would have allowed it
  (`RestartClearance.RestartKeepsClearanceIff`, `RestartClearance.ClearanceAcrossRestartIff`);
  `RestartClearance.RestartLosesClearance` is a life in which it does not.
- Waiting records of two trains coincide exactly when one train id begins with the other and
  a newline (`CandidateBuilder.KeysCollideIff`, `CandidateBuilder.NewlineCollides`).
- The distance loop charges the wrong segment when it starts exactly on a loop's wrap point;
  `ArcDistance.RightIff` says when its result is still right, `ArcDistance.WrongFromWrap`
  where it is not.
- A planned entry of zero is taken for "no entry yet", so the spacing can be lost;
  `Planner.SpacingHoldsIff` says when.
- Greedy pairing of corridor members can miss an existing pairing
  (`CorridorMerge.GreedyCanMissPairing`), and two corridors can so remain that would merge when
  taken the other way round (`CorridorMerge.ReverseCanBeLeft`).  `CorridorMerge.UnambiguousMatch`
  and `CorridorMerge.NothingLeftEitherWay` give a condition on the members under which neither
  happens; `CorridorMerge.MatchIff` and `CorridorMerge.LeftOverIff` only say in other words what
  the greedy choice finds.
- An acknowledged passage ends without a clear, so that the server keeps its occupancy,
  exactly when a newer command for its train arrives or the train is seen on another
  revision, on another line or without bounds (`PassageRuns.EndsWithoutClearIff`,
  `PassageRuns.SupersededGame`, `PassageRuns.StaleGame`).
- Restarting the sender keeps the order of events in every future exactly when no thread of
  an earlier start is alive (`ControlQueue.StartKeepsOrderIff`); otherwise some continuation
  delivers them out of order, such as a clear before its acknowledgement
  (`ControlQueue.HastyRestartBreaksOrder`).

## Model

| member | source | states |
|---|---|---|
| `Reservations.IntersectionReservationManager.RegisterMovement` | server/src/IntersectionReservationManager.cpp:12-23 | a movement with all its names is stored and its intersection known; any other changes nothing |
| `Reservations.IntersectionReservationManager.Resolve` | server/src/IntersectionReservationManager.cpp:47-68 | the distinct requested movements, all of them and no others, or the first unknown id |
| `Reservations.IntersectionReservationManager.Check` | server/src/IntersectionReservationManager.cpp:83-109 | nothing active conflicts and every clearance has passed, or the intersection and cause of the refusal |
| `Reservations.IntersectionReservationManager.CanReserve` | server/src/IntersectionReservationManager.cpp:112-119 | succeeds exactly when all ids are known, compatible with each other and free now; a refusal names the first unknown id, a conflict among those requested, or the intersection of the first movement in the way, as occupied or not yet clear |
| `Reservations.IntersectionReservationManager.TryReserveAtomically` | server/src/IntersectionReservationManager.cpp:122-148 | reserves all movements when all are reservable and the train has a name, otherwise none, with the same refusals |
| `Reservations.IntersectionReservationManager.MarkCleared` | server/src/IntersectionReservationManager.cpp:151-173 | frees exactly the train's movements at the intersection and dates their clearance; reports whether there were any |
| `Reservations.IntersectionReservationManager.CancelTrain` | server/src/IntersectionReservationManager.cpp:176-185 | frees the train's movements everywhere without dating a clearance |
| `Reservations.IntersectionReservationManager.ActiveReservations` | server/src/IntersectionReservationManager.cpp:188-199 | lists exactly the reservations held |
| `ReservationRuns.NeverHeldTogether` | server/src/IntersectionReservationManager.cpp:33-109 | in no run from a sound book that registers no movement held or dated do conflicting movements of one intersection hold reservations together |
| `ReservationRuns.ReservationAfterEveryClear` | server/src/IntersectionReservationManager.cpp:85-106 | a reservation comes at least the larger of both clearance times after every earlier clear of a conflicting movement, not just the last, in every run from a well-formed book whose clears are not dated before the reservations they free |
| `ReservationRuns.ClearKeepsEarlierClearIff` | server/src/IntersectionReservationManager.cpp:151-173 | an earlier clear stays respected after a later one exactly when the later is not dated before it |
| `ReservationRuns.BackdatedClearBreaksClearance` | server/src/IntersectionReservationManager.cpp:151-173 | a run with a backdated clear in which the clearance time is not kept |
| `ReservationRuns.CheckIsStable` | server/src/IntersectionReservationManager.cpp:112-185 | a successful check stays good whatever clears and cancels are interleaved before the reserve |
| `ReservationRuns.CancelUndoesReserve` | server/src/IntersectionReservationManager.cpp:122-185 | reserving and cancelling leaves the book as it was exactly when the train held nothing before |
| `ReservationRuns.Perform` | server/src/IntersectionReservationManager.cpp:12-185 | the manager object, driven by any list of operations, goes through exactly the run on values |
| `ReservationLaws.HeldNeverConflict` | server/src/IntersectionReservationManager.cpp:33-109 | in every run from a sound book, of two movements held at one intersection neither lists the other as a conflict |
| `ReservationLaws.ReservableOnFields` | server/src/IntersectionReservationManager.cpp:33-109 | a request is granted exactly when its movements are known, none lists another at its intersection, none is held, lists a held one or is listed by one, and after every recorded clear of such a movement the clearance times of both have passed, the default where there is none |
| `ReservationLaws.RefusedAsOccupiedIff` | server/src/IntersectionReservationManager.cpp:76-109 | a refusal names the intersection of the first movement in the way, as occupied exactly when a held movement there has its id, is listed by it or lists it, otherwise for a clearance still running |
| `ReservationLaws.ClearancesPassed` | server/src/IntersectionReservationManager.cpp:85-106 | in every run a reservation comes after every earlier clear of the same movement, or of one that either lists, by the clearance time of each, the default where it has none |
| `Policy.ScoreAll` | server/src/DynamicPriorityPolicy.cpp:89-137 | scores every feasible candidate once, in candidate order, with its wait, overdue and limit flags |
| `Policy.SelectBest` | server/src/DynamicPriorityPolicy.cpp:139-174 | the first item of the tier that nobody in the tier beats |
| `Policy.Decide` | server/src/DynamicPriorityPolicy.cpp:53-187 | holds with the first violated constraint, does nothing without a feasible candidate, and otherwise releases the best contender of the deciding tier; the no-eligible branch cannot be reached |
| `Policy.BetterIsStrict` | server/src/DynamicPriorityPolicy.cpp:151-170 | both rankings are strict weak orders |
| `Policy.DecisionIsUnique` | server/src/DynamicPriorityPolicy.cpp:53-187 | constraints and candidates determine the decision |
| `Policy.ReleasesIff` | server/src/DynamicPriorityPolicy.cpp:59-137 | a train is released exactly when every hard constraint holds and somebody is feasible |
| `Policy.ReleasedCandidate` | server/src/DynamicPriorityPolicy.cpp:139-186 | the released train is a feasible waiting candidate that no contender of its tier beats |
| `Policy.NobodyOvertakesOverdue` | server/src/DynamicPriorityPolicy.cpp:151-159 | while an overdue train is feasible, whoever is released arrived no later than it |
| `Policy.LimitYields` | server/src/DynamicPriorityPolicy.cpp:139-150 | a line at its consecutive limit is released again only for an overdue train or when no other line is feasible |
| `Policy.OrderDoesNotMatter` | server/src/DynamicPriorityPolicy.cpp:160-170 | in the normal tier, with distinct train ids, the decision does not depend on candidate order |
| `Policy.OverdueOrderFreeIff` | server/src/DynamicPriorityPolicy.cpp:151-159 | in the overdue tier it does not exactly when no two contenders share the best wait and score |
| `PolicyLaws.ReleasesOnFieldsIff` | server/src/DynamicPriorityPolicy.cpp:53-137 | somebody is released exactly when the resource was reported recently, has no pending command, a free way out, room and a last entry a minimum headway ago, and some candidate fits the resource with a recent report, an arrival and a known line |
| `PolicyLaws.HoldNamesFirstObstacle` | server/src/DynamicPriorityPolicy.cpp:59-88 | otherwise the decision names the first obstacle in the order of the checks, and no train |
| `PolicyLaws.ReleaseNamesTrain` | server/src/DynamicPriorityPolicy.cpp:175-186 | a release carries a fitting candidate's train, line and movements and says whether it had waited the longest time allowed |
| `PolicyLaws.ContendersOnFields` | server/src/DynamicPriorityPolicy.cpp:139-159 | who competes: those that waited the longest time allowed once there is one, before that all but a line at its limit while another line fits |
| `PolicyLaws.ReleasedIff` | server/src/DynamicPriorityPolicy.cpp:105-186 | of candidates of different trains exactly the one is released that comes before every other contender, by arrival, by the weighted differences of headway due, wait, credit, plan priority and consecutive releases, and by id |
| `PolicyLaws.BehindIsNotReleased` | server/src/DynamicPriorityPolicy.cpp:130-170 | of two contenders none of whom has waited too long, the one behind in the sum of weighted differences is not released |
| `PolicyLaws.WorseIsNotReleased` | server/src/DynamicPriorityPolicy.cpp:105-137 | no weight being negative, a contender no better in any respect and worse in one with weight is not released: its line released more recently against its target, a later arrival, less credit, less plan priority, or its line the last released with a count |
| `DispatchManagers.DispatchManager.constructor` | server/src/DispatchManager.cpp:8-16 | a manager starts empty, with an empty reservation book |
| `DispatchManagers.DispatchManager.Create` | server/src/DispatchManager.cpp:8-16 | construction succeeds exactly for a valid configuration |
| `DispatchManagers.DispatchManager.RegisterIntersectionMovement` | server/src/DispatchManager.cpp:19-22 | one registration step of the run; the rest of the state is unchanged |
| `DispatchManagers.DispatchManager.UpsertCorridor` | server/src/DispatchManager.cpp:25-43 | keeps a pending flag and the later last entry, fills in missing headway and capacity, overwrites the rest |
| `DispatchManagers.DispatchManager.UpsertLineState` | server/src/DispatchManager.cpp:46-53 | stores the line's state unless a name is missing or its target headway is zero |
| `DispatchManagers.DispatchManager.ReplaceCandidates` | server/src/DispatchManager.cpp:56-66 | replaces the candidates and the reception time of a known resource |
| `DispatchManagers.DispatchManager.FindOpposing` | server/src/DispatchManager.cpp:116-132 | finds another direction of the same corridor that is occupied or pending, exactly if there is one |
| `DispatchManagers.DispatchManager.UpdateFairnessCredits` | server/src/DispatchManager.cpp:69-90 | every line of the resource earns credit for the time passed, capped, and none when time went back |
| `DispatchManagers.DispatchManager.FilterCandidates` | server/src/DispatchManager.cpp:134-161 | keeps, in order, exactly the candidates whose movements can all be reserved, and explains the last refusal |
| `DispatchManagers.DispatchManager.PlanNext` | server/src/DispatchManager.cpp:94-185 | returns a decision the interlock, the reservations and the policy allow, and commits a release with all its reservations; the reserve cannot fail |
| `DispatchManagers.DispatchManager.Commit` | server/src/DispatchManager.cpp:163-184 | a release sets the pending flag and decision and reserves its movements |
| `DispatchManagers.DispatchManager.ConfirmEntry` | server/src/DispatchManager.cpp:189-228 | succeeds exactly for the pending train; counts the entry, dates it, removes the candidate, charges the line and counts the release |
| `DispatchManagers.DispatchManager.CancelPendingCommand` | server/src/DispatchManager.cpp:231-243 | succeeds exactly when something is pending; frees flag, decision and the train's reservations |
| `DispatchManagers.DispatchManager.RestorePendingCommand` | server/src/DispatchManager.cpp:247-270 | accepts a stored pending command exactly when nothing is pending, no other direction is in use and its movements are free at its own time |
| `DispatchManagers.DispatchManager.RestoreActiveCommand` | server/src/DispatchManager.cpp:274-300 | accepts a stored accepted command under the same checks and counts it while there is capacity |
| `DispatchManagers.DispatchManager.MarkCorridorExited` | server/src/DispatchManager.cpp:303-311 | takes one train off an occupied resource |
| `DispatchManagers.DispatchManager.MarkIntersectionCleared` | server/src/DispatchManager.cpp:314-320 | clears the train at the intersection and nothing else |
| `DispatchManagers.PlannedReleaseIsReservable` | server/src/DispatchManager.cpp:134-185 | a planned release is for an unblocked, open resource and a candidate listed there, and all its movements are reservable, so the reserve-failed branch is dead |
| `DispatchSpec.RunIsStructural` | server/src/DispatchManager.cpp:25-53 | in every run resources are filed under their id with positive headway and capacity, and lines have positive target headways |
| `DispatchRuns.AlwaysInterlocked` | server/src/DispatchManager.cpp:116-300 | in every reachable state, restores included, at most one directional resource of a corridor is occupied or pending, pending flags agree with pending decisions, and occupancy is within capacity |
| `DispatchRuns.UpsertKeepsInterlockIff` | server/src/DispatchManager.cpp:25-43 | overwriting a resource keeps the interlock exactly when it is left idle or nothing else in its corridor is in use |
| `DispatchRuns.PendingAlwaysHasRoom` | server/src/DispatchManager.cpp:163-228 | a pending command always leaves room for its train |
| `DispatchRuns.Accounting` | server/src/DispatchManager.cpp:163-311 | occupancy equals entries minus exits, and a command is pending exactly when one more right was granted than used or withdrawn |
| `DispatchRuns.GrantAfterOtherDirectionDone` | server/src/DispatchManager.cpp:116-132 | when a right is granted in one direction, every right granted in the other was withdrawn, or used and its train has exited |
| `DispatchRuns.PendingOrigin` | server/src/DispatchManager.cpp:163-228 | without restores, a pending decision is the latest release of its resource, and its headway and counter history has not changed since |
| `DispatchRuns.EntriesKeepHeadway` | server/src/DispatchManager.cpp:189-228 | any two entries of one resource are at least the minimum headway apart, and no entry has the time zero that means never |
| `DispatchRuns.ReleaseKeepsHeadway` | server/src/DispatchManager.cpp:94-300 | a release comes at least the minimum headway after every train put on its resource before, by a confirmed entry or by an accepted row restored after a restart, as long as confirmations are not dated before the last entry |
| `DispatchRuns.CounterIsTrailingRun` | server/src/DispatchManager.cpp:214-225 | the consecutive counter is the length of the trailing run of entries of one line |
| `DispatchRuns.LimitExceededOnlyWhenForced` | server/src/DispatchManager.cpp:214-225 | the counter exceeds the limit only through a train that was overdue at its release or had no feasible rival of another line |
| `DispatchRuns.CancelUndoesPlan` | server/src/DispatchManager.cpp:94-243 | planning a release and cancelling it restores flags, occupancy and pending decisions, and the reservations exactly when the train held nothing before |
| `DispatchLaws.CreditEarned` | server/src/DispatchManager.cpp:69-90 | over any stretch of a run in which a line is neither set nor released, the clock going forward, it earns the target headways between its last update and the last planning, up to three in all, however often it is planned in between |
| `DispatchLaws.LineStep` | server/src/DispatchManager.cpp:46-90 | a line's state changes only when it is set, when a train of it enters, or by planning, which also only dates the update when there was none or the clock went back |
| `DispatchLaws.EntryCharges` | server/src/DispatchManager.cpp:210-213 | an entry dates its line's release and spends one unit of credit if there is one; a line without a state starts from a target of fifteen seconds |
| `DispatchLaws.LineOrigin` | server/src/DispatchManager.cpp:46-53 | a line has a state only because it was set or a train of it entered |
| `DispatchLaws.SettingsAreLatest` | server/src/DispatchManager.cpp:25-43 | at every moment of every run a resource is known exactly if it was described, and corridor, direction, headway, capacity and way out are as last described, with the defaults for headway and capacity |
| `DispatchLaws.WaitingAreLatest` | server/src/DispatchManager.cpp:56-209 | at every moment the trains waiting at a resource are those of the last list given, in its order, without those that entered since |
| `DispatchLaws.LastEntryIsLatest` | server/src/DispatchManager.cpp:25-300 | at every moment the last entry is the latest of the last confirmed entry and of what descriptions and restored rows said since |
| `DispatchLaws.OppositeHolds` | server/src/DispatchManager.cpp:116-132 | while the other direction is in use nobody is released, and the decision says whether it is occupied or pending |
| `DispatchLaws.PlanningWeighs` | server/src/DispatchManager.cpp:94-163 | otherwise planning decides by the policy on exactly the candidates whose movements can all be reserved, with credit earned up to now and the release history; if there are candidates and none can, it holds for what is in the way of the last |
| `DispatchLaws.RestorableIff` | server/src/DispatchManager.cpp:247-300 | a stored row is accepted exactly when its resource is known and not in use the other way and its movements can be reserved at its issue; a pending one also needs a resource without a pending command |
| `Restart.BookOfRun` | server/src/DispatchManager.cpp:94-320 | the reservation book of any manager run is the result of a run of reservation operations |
| `Restart.NeverConflicting` | server/src/DispatchManager.cpp:163-300 | in no manager run do conflicting movements hold reservations together |
| `Restart.AnyReplayIsSafe` | server/src/RailwayDispatchService.cpp:105-114 | whatever rows are replayed, the interlock and freedom from conflicts survive |
| `Restart.RestartRoundTrip` | server/src/DispatchManager.cpp:247-300 | rows that describe a live state are all accepted by a rebuilt manager and restore its pending trains, occupancy, flags and reservations |
| `Recovery.AcceptedIff` | server/src/DispatchManager.cpp:247-300 | a rebuilt manager accepts all rows exactly when each names a train, a known resource and known movements that fit, and every two can be in force together, whatever their order and the capacity |
| `Recovery.RecoverableIff` | server/src/RailwayDispatchService.cpp:89-121 | recovery succeeds exactly when that holds and every row is of the loaded revision |
| `Recovery.RecoveredAll` | server/src/DispatchManager.cpp:247-300 | after an accepted recovery every occupancy is the number of accepted rows up to the capacity, flags are those of pending rows, reservations are those of the rows, and no clear is remembered |
| `Recovery.RecoveredHistory` | server/src/DispatchManager.cpp:274-300 | after any accepted replay each resource's last entry is the latest of its start value and the issue times of its accepted rows, and settings, candidates, lines and release history are as before |
| `Recovery.ReleaseAfterRecovery` | server/src/DispatchManager.cpp:274-300 | so the first release after a recovery is at least the minimum headway after every accepted row of the resource |
| `Recovery.FullResourceRestored` | server/src/DispatchManager.cpp:274-300 | two accepted rows on a resource with room for one are both accepted and the second is not counted |
| `Recovery.CommandsRecoveredIff` | server/src/RailwayDispatchService.cpp:105-114 | after recovery every pending decision has its command exactly when the PENDING rows are of different trains |
| `LiveRows.DeedKeepsRowsIff` | server/src/RailwayDispatchService.cpp:232-504 | a deed keeps the stored unfinished rows an exact description of the manager exactly when a release is of a train without an unfinished command, a clear is of a whole passage or frees nothing without one, and a stale train has no pending command; offers and answers always do |
| `LiveRows.ClearOfNothingClosesRow` | server/src/RailwayDispatchService.cpp:483-503 | a clear for an unknown resource and unknown intersections closes the train's row and frees nothing, so the rows no longer describe the manager |
| `LiveRows.ReorderedSnapshot` | server/src/DispatchPersistence.cpp:486-511 | the description does not depend on the order in which rows are read |
| `Lives.StoredAfter` | server/src/RailwayDispatchService.cpp:232-444 | a row whose command a cleanup withdraws, or whose passage a newer one of the train replaces, stays stored; every other deed changes the stored rows as it changes those in memory |
| `Lives.AlwaysFollowed` | server/src/RailwayDispatchService.cpp:232-504 | at every moment of every life, whoever is released and whatever becomes stale, the manager is safe, occupancies count the stored accepted rows, pending decisions are those of the commands in memory and of releases that got none, and the stored rows name known trains, resources and movements of the topology |
| `Restarts.RestartAcceptedIff` | server/src/RailwayDispatchService.cpp:89-121 | recovery at any moment of any life, in any order of the rows, succeeds exactly when every two stored rows stand together |
| `Restarts.RestartFollowsIff` | server/src/RailwayDispatchService.cpp:89-121 | a restart at any moment of any life that recovery survives restores every occupancy, and pending trains and flags exactly when the withdrawn commands are those that releases without a command lack |
| `Restarts.RestartRestoresIff` | server/src/RailwayDispatchService.cpp:89-121 | recovery succeeds and arrives at the live pending trains, occupancy, flags and reservations exactly when both hold and what is reserved is what the stored rows name |
| `Restarts.RowsAlwaysDescribe` | server/src/RailwayDispatchService.cpp:232-504 | as long as releases are of trains without an unfinished command and clears of whole passages, stale cleanups included, the rows in memory describe the manager exactly |
| `Restarts.OrderlyRestartIff` | server/src/RailwayDispatchService.cpp:89-121 | up to then recovery succeeds and arrives at the live state exactly when no stale cleanup withdrew a command |
| `Restarts.WithdrawnIsRevived` | server/src/RailwayDispatchService.cpp:232-263 | a restart right after the first such cleanup brings back the state before it, with the command pending |
| `RefusedRestart.StaleCleanupRefusesRestart` | server/src/RailwayDispatchService.cpp:89-121 | a life, for every valid configuration, whose recovery has a withdrawn command pending again and, after the next release, is refused |
| `RefusedRestart.RestartLosesCommand` | server/src/RailwayDispatchService.cpp:105-114 | a life, for every valid configuration, after which recovery makes two decisions of one train pending and files one command |
| `RefusedRestart.RestartForgetsUnfiled` | server/src/RailwayDispatchService.cpp:300-340 | a life, for every valid configuration, in which a second release of a train with a command locks a resource that a restart unlocks |
| `RestartClearance.ReservableAfterRestartIff` | server/src/IntersectionReservationManager.cpp:83-109 | the live book allows a reservation exactly when the restarted one does and no remembered conflicting clear is too recent |
| `RestartClearance.DateIsAClear` | server/src/IntersectionReservationManager.cpp:151-173 | every date the book remembers is the time of a clear of the run |
| `RestartClearance.RestartKeepsClearanceIff` | server/src/IntersectionReservationManager.cpp:85-106 | what a restarted book lets reserve keeps the clearance after every conflicting clear before the restart exactly when the live book would have let it |
| `RestartClearance.BookOfLife` | server/src/RailwayDispatchService.cpp:232-504 | the reservation book of a life is the result of its reservations, clears and cancellations |
| `RestartClearance.ClearanceAcrossRestartIff` | server/src/RailwayDispatchService.cpp:89-121 | after a restart in any life that restores the reservations, the next reservation keeps every earlier clearance exactly when the live book would have allowed it |
| `RestartClearance.RestartLosesClearance` | server/src/RailwayDispatchService.cpp:89-121 | a life, for every valid configuration, in which a movement is reservable after the restart at the very time it was cleared |
| `ManagerCalls.RunningIsSafe` | server/src/RailwayDispatchService.cpp:192-228 | a manager that is only set up while idle, with movements neither held nor dated, is interlocked and free of conflicts |
| `ManagerCalls.ClearIntersections` | server/src/RailwayDispatchService.cpp:493-496 | clears the intersections in order and reports whether any held the train |
| `Setup.ResourceIdDetermines` | server/src/DispatchCandidateBuilder.cpp:99-103 | a resource id determines its corridor and its direction |
| `Setup.Rebuild` | server/src/RailwayDispatchService.cpp:192-228 | the loops over movements, corridors, directions and members build exactly the state of the topology |
| `Setup.BuiltFromTopology` | server/src/RailwayDispatchService.cpp:192-228 | that state has both directions of every shared corridor idle and no other resource, nothing reserved, and exactly the member lines with their target headways |
| `Setup.BuiltIsSafe` | server/src/RailwayDispatchService.cpp:192-228 | that state satisfies every invariant of a run |
| `Setup.BuiltAgain` | server/src/RailwayDispatchService.cpp:192-228 | building twice from one topology gives the same resources and movements, idle |
| `ServiceLaws.BuiltResources` | server/src/RailwayDispatchService.cpp:192-228 | a rebuilt manager knows exactly the two directions of the shared corridors, empty, open and with the default headway and capacity |
| `ServiceLaws.BuiltLines` | server/src/RailwayDispatchService.cpp:192-228 | a line has a state at a resource exactly if a shared corridor of it has the line and its target is not zero: the given target, fifteen seconds by default, and no history |
| `ServiceLaws.BuiltBook` | server/src/RailwayDispatchService.cpp:192-228 | its book has the movements with all their names, the last of each id, and their intersections, with nothing held or remembered |
| `Lifecycle.CommandsHaveOwnResources` | server/src/RailwayDispatchService.cpp:306-340 | no two commands share a resource |
| `Lifecycle.InsertedRows` | server/src/DispatchPersistence.cpp:683-697 | storing a batch adds one PENDING row per command and changes no other row |
| `Lifecycle.InsertSaves` | server/src/RailwayDispatchService.cpp:356-377 | after a stored cycle every visible command has a PENDING row with its contents, and ids stay unique |
| `Lifecycle.AnswerKeepsRecords` | server/src/DispatchPersistence.cpp:757-783 | answering a command moves exactly its row from PENDING to ACCEPTED or REJECTED and disturbs no other record |
| `Lifecycle.ClearKeepsRecords` | server/src/DispatchPersistence.cpp:843-846 | clearing a passage moves exactly its row to CLEARED and disturbs no other record |
| `Lifecycle.TidyIsSafe` | server/src/RailwayDispatchService.cpp:192-228 | runs that set up only idle resources and fresh movements are interlocked and free of conflicts |
| `Lifecycle.RecoveredRecords` | server/src/RailwayDispatchService.cpp:105-116 | after recovery every command has its PENDING row, every passage an ACCEPTED one, and new ids are above all stored ones |
| `Cycle.WithdrawalUndoesPlanningIff` | server/src/RailwayDispatchService.cpp:368-377 | withdrawing an unstored cycle restores resources, pending decisions and reservations exactly when every release of the cycle had got its command and was of a train that held nothing before |
| `Cycle.WithdrawalFrees` | server/src/RailwayDispatchService.cpp:368-377 | when every release had got its command, the withdrawal leaves no reservation to any released train |
| `LostReservations.FailedStoreDropsPassage` | server/src/RailwayDispatchService.cpp:368-377 | a life, for every valid configuration, in which a train inside a corridor is released on another, gets its command, and loses its passage's reservations when the cycle cannot be stored |
| `Cycle.PlanningTrack` | server/src/RailwayDispatchService.cpp:300-340 | planning all resources adds pending decisions only where none was, one per release, and keeps the invariants |
| `Cycle.PlanningBook` | server/src/DispatchManager.cpp:163-184 | planning all resources adds only reservations of the released trains |
| `Cycle.CancelAllRestores` | server/src/RailwayDispatchService.cpp:370-374 | cancelling the commands that stand for all releases takes decisions, flags and reservations back |
| `ServiceLaws.OfferedOnFields` | server/src/RailwayDispatchService.cpp:281-296 | each resource offered to gets its list, or the empty one, and the time; nothing else changes |
| `ServiceLaws.IssuedIff` | server/src/RailwayDispatchService.cpp:300-340 | a cycle issues one command for each decision that releases a train that has none yet, in order, numbered on, with the cycle's revision and time and otherwise as decided |
| `ServiceLaws.LeavesIff` | server/src/RailwayDispatchService.cpp:483-503 | a clear changes something exactly if the resource it names is occupied or the train holds a movement at one of its intersections |
| `ServiceLaws.LeftOnFields` | server/src/RailwayDispatchService.cpp:483-503 | it takes one train off that resource, frees and dates exactly what the train held at those intersections, and changes nothing else |
| `ServiceLaws.FiledIff` | server/src/RailwayDispatchService.cpp:105-114 | commands and passages are filed by train, the last of each |
| `Service.RailwayDispatchService.constructor` | server/src/RailwayDispatchService.cpp:65-85 | the service starts with no command, no passage and storing off |
| `Service.RailwayDispatchService.CleanupStale` | server/src/RailwayDispatchService.cpp:232-263 | removed trains lose exactly their unacknowledged commands and pending decisions; passages and the table are untouched |
| `Service.RailwayDispatchService.RefreshCandidates` | server/src/RailwayDispatchService.cpp:281-296 | every resource is offered its fresh candidates, the empty list where there are none |
| `Service.RailwayDispatchService.PlanResource` | server/src/RailwayDispatchService.cpp:300-340 | plans one resource and issues a command, with the next id, revision and time, exactly for a release of a train without one; the command is the resource's pending decision |
| `Service.RailwayDispatchService.PlanAll` | server/src/RailwayDispatchService.cpp:300-342 | plans both directions of every corridor in order; the batch is exactly the commands of its releases, for distinct trains that had none |
| `Service.RailwayDispatchService.UpdateTrains` | server/src/RailwayDispatchService.cpp:347-378 | one cycle: withdraw stale, offer, plan, then store all new commands or withdraw them all; a failed transaction leaves table and commands as after the cleanup, and used ids are not used again |
| `Service.RailwayDispatchService.StoreAll` | server/src/DispatchPersistence.cpp:683-697 | a committed cycle gives every new command its PENDING row |
| `Service.RailwayDispatchService.WithdrawAll` | server/src/RailwayDispatchService.cpp:370-374 | a failed cycle cancels its commands' decisions in order and forgets the commands |
| `Service.RailwayDispatchService.Acknowledge` | server/src/RailwayDispatchService.cpp:406-444 | succeeds exactly for the train's command on the resource, with the given id if there is one, whose transaction, if storing is on, commits: nothing fails in memory after the commit; a failure changes nothing |
| `Service.RailwayDispatchService.PassageIntersections` | server/src/RailwayDispatchService.cpp:462-477 | exactly the intersections of the passage's movements, each once |
| `Service.RailwayDispatchService.Effective` | server/src/RailwayDispatchService.cpp:453-479 | what a clear leaves out is taken from the train's passage |
| `Service.RailwayDispatchService.MarkCleared` | server/src/RailwayDispatchService.cpp:448-504 | frees resource and intersections, closes the passage exactly when that changed something, marks its row, and changes nothing when the transaction fails |
| `Service.RailwayDispatchService.ReplaceRoutes` | server/src/RailwayDispatchService.cpp:135-188 | changed routes are refused while a command or passage is open or when invalid, and otherwise rebuild the manager from them |
| `Service.RailwayDispatchService.EnablePersistence` | server/src/RailwayDispatchService.cpp:89-121 | recovery succeeds exactly when routes load and every row, pending ones first, has the stored revision and is accepted in its turn; then the manager is the replay of the rows, commands and passages are filed by train, the last of each, and ids continue after them |
| `ServiceLife.CleanupKeepsRowsIff` | server/src/RailwayDispatchService.cpp:232-263 | after a cleanup of any trains the stored rows still describe the manager exactly when none of them had a command |
| `ServiceLife.CleanupIsDeeds` | server/src/RailwayDispatchService.cpp:232-263 | a cleanup leads a service in step with a moment of a life to a later moment it is in step with: maps, table and manager |
| `ServiceLife.StoredCycleIsDeeds` | server/src/RailwayDispatchService.cpp:347-366 | so does a telemetry cycle that commits, whoever it releases |
| `ServiceLife.FailedCycleIsDeeds` | server/src/RailwayDispatchService.cpp:367-377 | so does one whose transaction fails |
| `ServiceLife.AcknowledgementIsDeed` | server/src/RailwayDispatchService.cpp:406-444 | so does a successful acknowledgement |
| `ServiceLife.ClearIsDeed` | server/src/RailwayDispatchService.cpp:448-504 | so does a clear of a train's passage, of whichever intersections, which always changes something |
| `ServiceLife.IdleClearIsDeed` | server/src/RailwayDispatchService.cpp:448-504 | so does a clear for a train without a passage that takes none off a resource |
| `ServiceLife.OmittedPlacesCoverPassage` | server/src/RailwayDispatchService.cpp:462-477 | a request that names no intersections is filled in with those of the whole passage |
| `ServiceLife.ReadingGivesStored` | server/src/DispatchPersistence.cpp:486-511 | the PENDING and ACCEPTED entries of a table in step with a moment are exactly its stored rows |
| `ServiceLife.RestartFromTable` | server/src/RailwayDispatchService.cpp:89-121 | recovery from the table of such a service succeeds, and restores the live state, exactly under the conditions for lives |
| `ServiceLife.OrderlyRestartFromTable` | server/src/RailwayDispatchService.cpp:89-121 | in an orderly life it does both exactly when no cleanup withdrew a command |
| `CandidateBuilder.KeyDetermines` | server/src/DispatchCandidateBuilder.cpp:79-82 | for ids without newlines a waiting key determines train and resource, and only the train's own keys have its prefix |
| `CandidateBuilder.NewlineCollides` | server/src/DispatchCandidateBuilder.cpp:79-82 | with a newline in an id two trains' records can coincide |
| `CandidateBuilder.KeysCollideIff` | server/src/DispatchCandidateBuilder.cpp:79-82 | records of two trains can coincide exactly when one id begins with the other and a newline |
| `CandidateBuilder.NearestIsLeast` | server/src/DispatchCandidateBuilder.cpp:132-143 | no corridor in approach range is nearer than the chosen one, and one in range is never missed |
| `CandidateBuilder.FindNearest` | server/src/DispatchCandidateBuilder.cpp:132-143 | the loop chooses the first nearest corridor in range |
| `CandidateBuilder.DispatchCandidateBuilder.BuildCandidates` | server/src/DispatchCandidateBuilder.cpp:107-198 | one batch lists each competing train at its nearest corridor with its waiting start, sets every phase, and keeps only the records of competing trains |
| `CandidateBuilder.DispatchCandidateBuilder.ForgetTrain` | server/src/DispatchCandidateBuilder.cpp:201-211 | drops exactly the records whose key has the train's prefix |
| `CandidateBuilder.DispatchCandidateBuilder.Clear` | server/src/DispatchCandidateBuilder.cpp:214-217 | drops every record |
| `CandidateBuilder.RecordsComeFromList` | server/src/DispatchCandidateBuilder.cpp:145-196 | every record left after a batch belongs to a train listed in it, with the same waiting start |
| `CandidateBuilder.NewcomersArriveLater` | server/src/DispatchCandidateBuilder.cpp:148-196 | whoever a later batch lists as waiting that long was already listed, at the same resource, in the batch before |
| `CandidateBuilder.WaitersWereThere` | server/src/DispatchCandidateBuilder.cpp:148-196 | over any history of batches, entries and clears, whoever is listed as waiting since a given time was listed so in the first batch, if later ones are observed after it |
| `CandidateBuilder.EnteredReturnsAsNewcomer` | server/src/DispatchCandidateBuilder.cpp:121-196 | a train that entered is listed again only with a waiting start after the time considered |
| `CandidateBuilder.WaitingStartKept` | server/src/DispatchCandidateBuilder.cpp:148-168 | a competing train keeps its waiting start from batch to batch unless time goes back |
| `CandidateLaws.ListedIff` | server/src/DispatchCandidateBuilder.cpp:107-181 | at each resource a batch lists, in its order and once each, exactly the trains that have no command and have not entered, whose route is known and whose first nearest corridor within the approach distance is that resource and within the control point distance, with their own, the corridor's and the plan's data |
| `CandidateLaws.PhasesIff` | server/src/DispatchCandidateBuilder.cpp:114-181 | the phase of a train: its own when it has a command or entered, else monitored without a corridor in range, approaching when the least distance in range is beyond the control point, waiting when it is not |
| `CandidateLaws.ListedSince` | server/src/DispatchCandidateBuilder.cpp:148-168 | a listed train waits since its start on record, or since its report when there is none or the clock is behind it, and that start stays on record |
| `CandidateLaws.RecordedIff` | server/src/DispatchCandidateBuilder.cpp:183-196 | after a batch exactly the trains listed have a record, at the resource where they are |
| `CandidateLaws.ForgetsItsOwn` | server/src/DispatchCandidateBuilder.cpp:201-211 | forgetting a train drops exactly its own records, for ids without newlines |
| `Overtaking.BoundedOvertaking` | server/src/DispatchManager.cpp:189-228 | while an overdue train stays feasible at every release, those that enter before it were already waiting as long and are all different, so there are fewer of them than trains waiting when it became overdue; a train that queues again as a newcomer is allowed |
| `Overtaking.BuilderMakesNewcomersLater` | server/src/DispatchCandidateBuilder.cpp:153-196 | lists supplied by the candidate builder meet the newcomers-later condition of bounded overtaking |
| `Overtaking.BuilderRelistsAsNewcomers` | server/src/DispatchCandidateBuilder.cpp:121-125 | such lists name a train that entered only as a newcomer |
| `Overtaking.BuilderBoundsOvertaking` | server/src/DispatchCandidateBuilder.cpp:107-211 | so bounded overtaking holds of a live dispatcher supplied by the builder, if later batches are observed later |
| `GridIndex.NearSegmentsShareCell` | server/src/LineRouteAnalyzer.cpp:210-254 | segments whose boxes are within tolerance cover a common grid cell |
| `GridIndex.SpatialCandidates` | server/src/LineRouteAnalyzer.cpp:210-254 | every segment pair within tolerance is a candidate, ascending and without repetition, whatever 32-bit keys collide |
| `GridIndex.SparseRows` | server/src/LineRouteAnalyzer.cpp:745-764 | a pass that ignores pairs outside the candidates gives, in the same order, what the full double loop gives |
| `GridIndex.FirstPass` | server/src/LineRouteAnalyzer.cpp:745-764 | the overlap pass over the index finds the fragments and shared pairs of the full double loop, in order |
| `GridIndex.SecondPass` | server/src/LineRouteAnalyzer.cpp:874-958 | the crossing pass over the index finds the crossings of the full double loop, in order, duplicates dropped alike |
| `GridIndex.AnalyzePair` | server/src/LineRouteAnalyzer.cpp:711-958 | both passes over one index, with the merge tolerance at least the shared one, equal testing every pair |
| `GridLaws.FragmentsIff` | server/src/LineRouteAnalyzer.cpp:745-764 | the first pass finds the fragments of exactly the segment pairs whose horizontal boxes are within the tolerance and that overlap, in loop order and in one route only in order, and the keys of these pairs |
| `GridLaws.CrossingsIff` | server/src/LineRouteAnalyzer.cpp:874-958 | the second pass finds, in loop order, the crossings of the pairs whose boxes touch and that gave no fragment, without neighbours and the closing pair of one route, each unless it is known among those before |
| `GridLaws.RowsList` | server/src/LineRouteAnalyzer.cpp:745-958 | loop order: exactly the pairs in question, by first and then by second segment |
| `UnionFind.Find` | server/src/LineRouteAnalyzer.cpp:770-773 | finding a root ends, compresses the path and changes nobody's root |
| `UnionFind.LinkMergesTrees` | server/src/LineRouteAnalyzer.cpp:800-801 | hanging one root under another joins exactly their two trees and keeps a forest |
| `UnionFind.RootsAreComponents` | server/src/LineRouteAnalyzer.cpp:774-803 | two items share a root exactly when a chain of near pairs joins them |
| `UnionFind.UnionAll` | server/src/LineRouteAnalyzer.cpp:774-803 | after the double loop the trees are the connected components of the near relation |
| `UnionFind.Group` | server/src/LineRouteAnalyzer.cpp:768-806 | one group per component, holding exactly its members in ascending order |
| `UnionFind.FilterShort` | server/src/LineRouteAnalyzer.cpp:619-658 | keeps, in order, exactly the items whose whole component is long enough |
| `CorridorMerge.BestIsLeast` | server/src/LineRouteAnalyzer.cpp:358-374 | the chosen member has the least gap of all unused members of the line and direction, the first of several |
| `CorridorMerge.MatchIsBijection` | server/src/LineRouteAnalyzer.cpp:352-379 | a match pairs all members one to one, with the same line and direction and touching ranges |
| `CorridorMerge.UnambiguousMatch` | server/src/LineRouteAnalyzer.cpp:352-379 | when nobody fits two members, a match is found exactly when a pairing exists |
| `CorridorMerge.MatchIff` | server/src/LineRouteAnalyzer.cpp:352-379 | a pairing is the match exactly when it is perfect and gives each member, in order, the nearest one left |
| `CorridorMerge.PairingMissedIff` | server/src/LineRouteAnalyzer.cpp:352-379 | no match is found exactly when no perfect pairing takes the nearest one left in order |
| `CorridorMerge.GreedyCanMissPairing` | server/src/LineRouteAnalyzer.cpp:352-379 | two corridors with a pairing that the greedy choice misses |
| `CorridorMerge.ReverseFindsPairing` | server/src/LineRouteAnalyzer.cpp:352-379 | taken the other way round their pairing is found |
| `CorridorMerge.MatchCorridorMembers` | server/src/LineRouteAnalyzer.cpp:352-379 | the loops compute the greedy match or none |
| `CorridorMerge.HullOfTouching` | server/src/LineRouteAnalyzer.cpp:400-427 | the merged range of two touching ranges contains both and nothing beyond them but a gap of the allowed size |
| `CorridorMerge.AbsorbCorridor` | server/src/LineRouteAnalyzer.cpp:381-427 | joins ends, geometry and length at the touching end and widens every member to its pair's hull |
| `CorridorMerge.ConsolidateAdjacentCorridors` | server/src/LineRouteAnalyzer.cpp:431-458 | the restart-on-change loop ends and computes the consolidated list |
| `CorridorMerge.EveryPieceUsedOnce` | server/src/LineRouteAnalyzer.cpp:431-458 | every result is put together by legal merges, and together they use each original exactly once |
| `CorridorMerge.NothingLeftToMerge` | server/src/LineRouteAnalyzer.cpp:431-458 | no result can absorb a later one |
| `CorridorMerge.LeftOverIff` | server/src/LineRouteAnalyzer.cpp:431-458 | a later result could absorb an earlier one exactly when they lie end to end and only the match from the later one's members exists |
| `CorridorMerge.ReverseCanBeLeft` | server/src/LineRouteAnalyzer.cpp:431-458 | two corridors that are left so |
| `CorridorMerge.NothingLeftEitherWay` | server/src/LineRouteAnalyzer.cpp:431-458 | when nobody fits two members on either side, nothing is left to merge in either order |
| `CorridorMerge.PassagesMadeOfPieces` | server/src/LineRouteAnalyzer.cpp:400-427 | every member of a result is the hull of one member of each corridor in it, has their ends, leaves no gap beyond the allowed one and is at most their total length and one allowed gap per joint long |
| `CorridorMerge.MembersCovered` | server/src/LineRouteAnalyzer.cpp:400-427 | every member of a result covers one member of each original in it, of the same line and direction, and their numbers agree |
| `CorridorMerge.ConsolidatedWellDrawn` | server/src/LineRouteAnalyzer.cpp:381-427 | if every corridor's geometry runs from its start to its end, so does every result's |
| `CorridorMerge.LengthConserved` | server/src/LineRouteAnalyzer.cpp:431-458 | merging conserves the total length |
| `CorridorMerge.FilterShortSharedComponents` | server/src/LineRouteAnalyzer.cpp:619-658 | a corridor survives exactly when its whole component, joined by near ends, meets the minimum length, and survivors keep their order |
| `MergeLaws.MergesIff` | server/src/LineRouteAnalyzer.cpp:352-458 | two corridors merge exactly when the end of one touches the start of the other and their members pair up, one to one, by line and direction, at most a hundred-thousandth of a segment apart, each with the nearest left, the first of several |
| `MergeLaws.MergedOnFields` | server/src/LineRouteAnalyzer.cpp:381-427 | the merged corridor runs from the first one's start to the second one's end, with a shared joint taken once, the lengths added and every member's range just covering both |
| `MergeLaws.FirstPairMerges` | server/src/LineRouteAnalyzer.cpp:431-458 | the first mergeable pair in loop order is merged in place of its first corridor, and consolidation starts again on what is left |
| `MergeLaws.KeptIff` | server/src/LineRouteAnalyzer.cpp:619-658 | the filter keeps, in order, exactly the corridors that with all that chains of touching ends join to them are long enough |
| `ArcDistance.DistanceToEntry` | server/src/AffectedLinePlanner.cpp:42-77 | none for an entry behind on an open route, otherwise what the loop measures from the clamped position |
| `ArcDistance.Walk` | server/src/AffectedLinePlanner.cpp:53-76 | the loop ends; off the wrap point it measures the true distance along the route, wrapping in either direction |
| `ArcDistance.StepIsRight` | server/src/AffectedLinePlanner.cpp:53-74 | each round charges one segment for the part run on it and leaves exactly the rest to measure |
| `ArcDistance.RightIff` | server/src/AffectedLinePlanner.cpp:53-74 | the loop measures the true distance for all segment lengths exactly when it does not start on the wrap point, or there is one segment, or it runs a full round |
| `ArcDistance.WrongFromWrap` | server/src/AffectedLinePlanner.cpp:57-73 | from the wrap point of a longer route there are lengths for which it is wrong |
| `ArcDistance.LoopByArcs` | server/src/AffectedLinePlanner.cpp:42-77 | off the wrap point the result is the length of route between train and entry, the rest of a closed route when the entry is behind, and none when it is behind on an open one |
| `ArcDistance.DensityDoesNotMatter` | server/src/DispatchCandidateBuilder.cpp:27-64 | cutting a segment in two changes nothing that the loop measures off the wrap point, as the source's comment promises, and keeps it off the wrap point |
| `ArcDistance.CutChangesNoDistance` | server/src/DispatchCandidateBuilder.cpp:27-64 | cutting a segment in two changes no true distance, wherever it starts |
| `Planner.AddSaturated` | server/src/AffectedLinePlanner.cpp:80-83 | the sum, or the largest time when it does not fit |
| `Planner.SortByEta` | server/src/AffectedLinePlanner.cpp:161-170 | a permutation sorted by ETA, then train id |
| `Planner.NeighboursInList` | server/src/AffectedLinePlanner.cpp:174-201 | neighbours in a line's index list are its nearest earlier and later arrivals |
| `Planner.TravelTimeCovers` | server/src/AffectedLinePlanner.cpp:126-148 | the travel time is the first whole millisecond that covers the distance at the speed used, or the largest time |
| `Planner.Need` | server/src/AffectedLinePlanner.cpp:178-200 | the need to spread is always between minus one and one |
| `Planner.NeedSpreads` | server/src/AffectedLinePlanner.cpp:178-200 | it is negative for a train too close behind its leader, positive for one with its follower too close, and zero with room on both sides |
| `Planner.Distribute` | server/src/AffectedLinePlanner.cpp:174-201 | every arrival gets the need computed from its nearest neighbours of the line, and nothing else changes |
| `Planner.PickBest` | server/src/AffectedLinePlanner.cpp:212-240 | picks an open arrival within tolerance of the earliest that nobody in that window beats |
| `Planner.Schedule` | server/src/AffectedLinePlanner.cpp:205-255 | the ordering loop ends with a complete order of picks and gives each train its rank and slot |
| `Planner.RanksOnce` | server/src/AffectedLinePlanner.cpp:205-255 | exactly the trains in the horizon are ranked, each once |
| `Planner.ReordersWithinTolerance` | server/src/AffectedLinePlanner.cpp:212-240 | a train ranked before another has an ETA at most the tolerance later |
| `Planner.SuggestionsAt` | server/src/AffectedLinePlanner.cpp:243-255 | each ranked train carries the rank of its place, its slot and priority |
| `Planner.SuggestionsKeep` | server/src/AffectedLinePlanner.cpp:205-255 | trains beyond the horizon are left as they are |
| `Planner.IdealIsMaximum` | server/src/AffectedLinePlanner.cpp:243-250 | the ideal entry is the maximum over earlier ranks of their ETA plus the spacing for every rank between |
| `Planner.SlotIsIdeal` | server/src/AffectedLinePlanner.cpp:243-250 | with a first ETA of at least one, planned entries are the ideal ones, saturated |
| `Planner.SlotsAreEarliest` | server/src/AffectedLinePlanner.cpp:243-250 | no schedule that respects every ETA and the spacing has an earlier entry at any rank |
| `Planner.SpacingHoldsIff` | server/src/AffectedLinePlanner.cpp:243-250 | successive planned entries keep the spacing exactly when the first ETA is not zero or the second alone is far enough |
| `Planner.PlanResource` | server/src/AffectedLinePlanner.cpp:126-255 | one round for one resource: the estimates, sorted and with needs, none in the past, ordered completely and given slots |
| `PlannerLaws.EstimateOnFields` | server/src/AffectedLinePlanner.cpp:127-146 | an estimate is now plus the first whole millisecond in which the distance is covered at the speed, at least the minimum speed, and is in the horizon exactly if that is at most the horizon |
| `PlannerLaws.SortedIff` | server/src/AffectedLinePlanner.cpp:160-169 | arrivals are sorted by time, those at the same time by train id |
| `PlannerLaws.NeedOnFields` | server/src/AffectedLinePlanner.cpp:174-201 | a need is the part of the target headway that the nearest follower of the line lacks less the part lacking to the nearest leader, between minus one and one |
| `PlannerLaws.WindowOnFields` | server/src/AffectedLinePlanner.cpp:212-224 | the window: those waiting whose arrival is at most the tolerance after the earliest waiting |
| `PlannerLaws.PickedIff` | server/src/AffectedLinePlanner.cpp:212-240 | exactly the arrival is picked that comes before every other in the window, by the weighted differences of nearness and need and the penalty for the line ranked last, and by train id |
| `PlannerLaws.WorseIsNotPicked` | server/src/AffectedLinePlanner.cpp:222-240 | of two in the window, one that comes no earlier, has no more need and pays the penalty if the other does is not picked when it is worse in one of these: of the last ranked line and the other not, with a positive penalty; less need; or later, the other within the horizon |
| `PlannerLaws.RankedOnFields` | server/src/AffectedLinePlanner.cpp:243-255 | the train at a place of the order gets that rank, the slot of that rank and the priority one over the places so far plus half its need; nothing else changes |
| `Passage.DispatchRuntime.DrainCommands` | cities-skylines-mod/DispatchRuntime.cs:257-287 | takes every queued command in order; malformed, finished and repeated ones are ignored |
| `Passage.DispatchRuntime.Receive` | cities-skylines-mod/DispatchRuntime.cs:257-287 | a different command for a train ends its passage, rejected unless acknowledged, and starts a fresh one |
| `Passage.DispatchRuntime.UpdatePassage` | cities-skylines-mod/DispatchRuntime.cs:289-327 | entry is acknowledged once, leaving starts the tail delay, coming back cancels it, and the passage is cleared after it |
| `Passage.DispatchRuntime.SeeTrain` | cities-skylines-mod/DispatchRuntime.cs:190-232 | a passage of another revision, line or without bounds is ended; otherwise the train is observed |
| `Passage.DispatchRuntime.RemoveMissingPassages` | cities-skylines-mod/DispatchRuntime.cs:406-432 | exactly the passages of trains not seen end, cleared if acknowledged and rejected if not |
| `Passage.DispatchRuntime.Tick` | cities-skylines-mod/DispatchRuntime.cs:158-246 | one frame: commands, then trains, then missing passages |
| `PassageRuns.EventsOfACommand` | cities-skylines-mod/DispatchRuntime.cs:289-404 | a command's events are a beginning of accept then cleared, or one reject |
| `PassageRuns.EventsStayOrdered` | cities-skylines-mod/DispatchRuntime.cs:158-432 | in every game this holds of every command until the finished set is flushed |
| `PassageRuns.FinishedForGood` | cities-skylines-mod/DispatchRuntime.cs:384-404 | a finished command gets no further event until the finished set is flushed |
| `PassageRuns.EndsWithoutClearIff` | cities-skylines-mod/DispatchRuntime.cs:190-286 | in any step an acknowledged passage ends without a clear exactly when a well-formed, unfinished, different command for its train is taken or its train is seen on another revision, another line or without bounds |
| `PassageRuns.GivenUpIsNeverCleared` | cities-skylines-mod/DispatchRuntime.cs:190-286 | a passage so given up is finished with its acknowledgement as its only event |
| `PassageRuns.SupersededGame` | cities-skylines-mod/DispatchRuntime.cs:270-286 | a game in which a newer command does this |
| `PassageRuns.StaleGame` | cities-skylines-mod/DispatchRuntime.cs:195-205 | a game in which a new topology revision does this |
| `PassageRuns.ClearWaitsForTail` | cities-skylines-mod/DispatchRuntime.cs:309-327 | a clear for a train that is present comes at least the tail delay after a frame that saw it outside, with no frame since seeing it inside |
| `PassageRuns.ClearAfterAccept` | cities-skylines-mod/DispatchRuntime.cs:289-432 | every clear comes after the acknowledgement of the same command |
| `PassageLaws.PassagesRemember` | cities-skylines-mod/DispatchRuntime.cs:158-432 | in every game every passage was begun by a command of its train, is acknowledged exactly if a frame since showed the train inside, and remembers exactly the first frame that showed it outside since it was last inside |
| `PassageLaws.ToldIff` | cities-skylines-mod/DispatchRuntime.cs:158-432 | exactly what each frame reports of each command: accept when its train is first seen inside, clear once it was seen outside for two seconds and not inside since or is gone after being inside, reject when it is gone or on another revision or line or without bounds before being inside, and nothing else; and when its passage ends |
| `PassageLaws.TakesIff` | cities-skylines-mod/DispatchRuntime.cs:257-287 | a command begins a passage exactly if it is a release with train and resource, is not finished and is not its train's already; what it replaces is finished, and rejected unless acknowledged |
| `PassageRuns.NoClearOvertakesItsAck` | cities-skylines-mod/TelemetrySender.cs:177-280 | through the sender, whatever fails, a clear that has left was preceded by the acknowledgement of its command |
| `ControlQueue.TelemetrySender.StartSending` | cities-skylines-mod/TelemetrySender.cs:53-71 | starts a thread with empty queues unless one is running |
| `ControlQueue.TelemetrySender.StopSending` | cities-skylines-mod/TelemetrySender.cs:136-158 | stops and drops what is queued; an event being sent stays with its thread |
| `ControlQueue.TelemetrySender.EnqueueControlPost` | cities-skylines-mod/TelemetrySender.cs:177-188 | an event joins the end of the queue while running |
| `ControlQueue.TelemetrySender.EnqueueJson` | cities-skylines-mod/TelemetrySender.cs:160-175 | the newest frame of a path replaces the one before |
| `ControlQueue.TelemetrySender.TakeWork` | cities-skylines-mod/TelemetrySender.cs:190-238 | a round takes all newest frames and one event from the head, or ends the thread |
| `ControlQueue.TelemetrySender.SendControlPost` | cities-skylines-mod/TelemetrySender.cs:240-264 | a delivered or refused event is done with; any other failure puts it back |
| `ControlQueue.TelemetrySender.RetryControlPost` | cities-skylines-mod/TelemetrySender.cs:266-280 | a failed event returns to the head of the queue with one more attempt while running |
| `ControlQueue.Order` | cities-skylines-mod/TelemetrySender.cs:177-280 | every accepted event has left, is being sent or waits, in the order of acceptance, with one thread |
| `ControlQueue.EventsDepartInOrder` | cities-skylines-mod/TelemetrySender.cs:177-280 | under any interleaving and any failures the events that left are the first ones accepted, in order |
| `ControlQueue.FrameIsNewest` | cities-skylines-mod/TelemetrySender.cs:160-238 | at every moment the frame waiting for a path is the newest given since the last round, stop and start |
| `ControlQueue.OrderAcrossRestarts` | cities-skylines-mod/TelemetrySender.cs:53-280 | across restarts that wait for the previous thread, everything that left was accepted in that order |
| `ControlQueue.EarlyStartOvertakes` | cities-skylines-mod/TelemetrySender.cs:53-158 | from any reachable state in which sending starts again while an earlier thread is alive, some continuation delivers a later event before an earlier one |
| `ControlQueue.StartKeepsOrderIff` | cities-skylines-mod/TelemetrySender.cs:53-158 | starting again keeps the order in every continuation exactly when no thread is alive |
| `ControlQueue.HastyRestartBreaksOrder` | cities-skylines-mod/TelemetrySender.cs:53-158 | a run that restarts while a thread still sends, in which a clear leaves before its acknowledgement |
| `TimerHeap.TimerManager.Add` | server/src/TimerManager.cpp:10-26 | a descriptor's new deadline replaces its old one |
| `TimerHeap.TimerManager.Remove` | server/src/TimerManager.cpp:29-31 | the descriptor has no deadline any more |
| `TimerHeap.TimerManager.HandleExpired` | server/src/TimerManager.cpp:34-59 | fires exactly the due descriptors, once each in deadline order, never a superseded or removed one, and ends their deadlines |
| `TimerHeap.TimerManager.GetNextTimeout` | server/src/TimerManager.cpp:62-76 | the whole milliseconds until the least live deadline, zero when due, minus one when there is none |
| `TimerHeap.LiveSince` | server/src/TimerManager.cpp:10-59 | a live deadline was set by an addition that nothing has ended since |
| `TimerHeap.FiresForLatest` | server/src/TimerManager.cpp:34-59 | what fires was due by its latest addition |
| `TimerHeap.LiveIff` | server/src/TimerManager.cpp:10-59 | after any history a deadline is live exactly if an addition set it, its milliseconds after the time of the addition, and no later addition, removal or expiry ended it |
| `TimerHeap.FiresIff` | server/src/TimerManager.cpp:34-59 | an expiry fires exactly the descriptors whose latest addition, not ended since, set a deadline that has come |
| `TimerHeap.Drive` | server/src/TimerManager.cpp:10-76 | through any history of operations the heap is equivalent to a plain table of latest deadlines |

## Left out

- Route bounds of a command (server/src/RailwayDispatchService.cpp:313-331): copied from the corridor member for the game, no decision depends on them.
- Train monitoring, telemetry parsing and phases kept by the monitor: removed trains and candidate lists are inputs of the service; a failed cycle leaves phases behind that say nothing about commands.
- Command ids are numbers; the "CMD:" prefix is dropped.
- MySQL, Redis and JSON: a table of command rows whose transactions succeed or fail as a parameter; what recovery reads is assumed to agree with the stored rows, and recovery that is switched off is an empty list of rows.
- `Service.RailwayDispatchService.EnablePersistence`: called on a fresh service, as at start-up; after a failure the service is not used.
- `Lives.AlwaysFollowed`: a life begins at a rebuilt manager without unfinished rows and keeps one topology; a clear that takes a train off another resource than its passage's, or off a resource without a passage, ends it (`LiveRows.DeedKeepsRowsIff`, `LiveRows.ClearOfNothingClosesRow`).
- `Restarts.RestartRestoresIff`: of a life that is not orderly, the reservations are compared with the stored rows as they are; which deeds make them differ is in `LiveRows.DeedKeepsRowsIff`.
- `Restart.RestartRoundTrip`: past clears are not stored; what that loses is in `RestartClearance`.
- HTTP, sockets, threads of the server, logging, configuration and the web page.
- Floating point: positions, lengths and scores are real numbers, and the epsilons of the distance loop are dropped.
- Geometric tests: nearness, overlap and crossing of two segments are parameters of the analyzer's passes; `atomizeOverlappingCorridors`, `mergeCorridor` and `projectToRange` are not modelled because their promises depend on geometric tolerances.
- Corridor and occurrence ids, and the order in which merged members are finally listed.
- `GridIndex.SpatialCandidates`: cell numbers are unbounded before their 32-bit truncation; the source's 64-bit cells do not overflow for game coordinates.
- The planner's final presentation order and its map by train and resource; the purge of stale trains from the last plan.
- `Planner.PlanResource`: one resource with the distances given; which trains reach which resource comes from the topology registry, which is not part of this model.
- Gates, vehicle control and engine access of the mod; snapshot frames without data.
- A command without an id is identified by its train, resource and time as a record, not as a joined string.
- `PassageRuns.EventsStayOrdered`: each command id belongs to one train, and after the finished set has grown past 4096 and was flushed a repeated command can start again.
- `ControlQueue.EventsDepartInOrder`: sending starts again only after the previous thread has ended; `ControlQueue.StartKeepsOrderIff` says that nothing weaker is enough.
- `TimerHeap.TimerManager.HandleExpired`: the callback does not touch the timer, and nodes with equal deadlines come off in any order; descriptors are naturals.
- Sorting by library calls is modelled by its contract, a sorted permutation.
