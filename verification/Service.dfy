/** The dispatch service object: issue, acknowledge, clear, stale cleanup and recovery.
    The database is the field `table`; each transaction's success is a parameter, and a
    failed transaction leaves the table as it was. */
module Service {
  import opened Basics
  import opened Reservations
  import opened Policy
  import opened DispatchSpec
  import opened DispatchManagers
  import opened DispatchRuns
  import opened Restart
  import opened Lifecycle
  import opened ManagerCalls
  import opened Setup
  import opened Cycle

  class RailwayDispatchService {
    var manager: DispatchManager
    var topology: Topology
    var commandsByTrain: Commands
    var activeByTrain: Commands
    var nextCommandId: nat
    var persistence: bool
    var persistenceHealthy: bool
    var table: Table

    /** The lifecycle invariant, with the trains in `unsaved` not yet in the table. */
    ghost predicate Consistent(unsaved: set<string>)
      reads this, manager, manager.reservations
    {
      && Running(manager)
      && CommandsPending(commandsByTrain, manager.pending)
      && IdsUsed(commandsByTrain, table, nextCommandId)
      && (persistence ==> Recorded(commandsByTrain, activeByTrain, table, unsaved))
    }

    ghost predicate Valid()
      reads this, manager, manager.reservations
    {
      Consistent({})
    }

    constructor (cfg: ManagerConfig)
      requires ValidManagerConfig(cfg)
      ensures Valid() && fresh(manager) && fresh(manager.reservations)
      ensures commandsByTrain == map[] && activeByTrain == map[] && !persistence && manager.cfg == cfg
    {
      manager := new DispatchManager(cfg);
      topology := EmptyTopology;
      commandsByTrain, activeByTrain, nextCommandId := map[], map[], 1;
      persistence, persistenceHealthy, table := false, true, map[];
    }

    // Cancels a command's pending decision and forgets the command.
    method WithdrawCommand(train: string, ghost unsaved: set<string>)
      requires Consistent(unsaved) && train in commandsByTrain
      modifies this`commandsByTrain, manager, manager.reservations
      ensures Consistent(unsaved) && Consistent(unsaved - {train})
      ensures commandsByTrain == old(commandsByTrain) - {train}
      ensures manager.View() == PendingCancelled(old(manager.View()), old(commandsByTrain)[train].resourceId)
    {
      RemovalKeepsCommands(commandsByTrain, manager.pending, train);
      RemovalKeepsRecords(commandsByTrain, activeByTrain, table, nextCommandId, unsaved, train);
      var _ := Cancel(manager, commandsByTrain[train].resourceId);
      commandsByTrain := commandsByTrain - {train};
    }

    /** Removed trains lose their unacknowledged commands, the pending decisions of which are
        cancelled; accepted ones keep their passage, and the table is not told. */
    method CleanupStale(removed: seq<string>)
      requires Valid()
      modifies this`commandsByTrain, manager, manager.reservations
      ensures Valid() && commandsByTrain == old(commandsByTrain) - Listed(removed)
      ensures manager.View() == WithoutCommands(old(manager.View()), old(commandsByTrain), removed)
    {
      ghost var s, commands := manager.View(), commandsByTrain;
      for i := 0 to |removed|
        invariant Valid() && commandsByTrain == commands - Listed(removed[..i])
        invariant manager.View() == WithoutCommands(s, commands, removed[..i])
      {
        StaleNext(s, commands, removed, i);
        ForgetStale(removed[i]);
      }
      assert removed[..|removed|] == removed;
    }

    method ForgetStale(train: string)
      requires Valid()
      modifies this`commandsByTrain, manager, manager.reservations
      ensures Valid() && commandsByTrain == old(commandsByTrain) - {train}
      ensures manager.View() ==
        if train in old(commandsByTrain)
        then PendingCancelled(old(manager.View()), old(commandsByTrain)[train].resourceId) else old(manager.View())
    {
      if train in commandsByTrain {
        WithdrawCommand(train, {});
      } else {
        assert commandsByTrain - {train} == commandsByTrain;
      }
    }

    // Gives every resource its fresh candidates, none if there are none.
    method RefreshCandidates(candidates: map<string, seq<Candidate>>, wallNow: nat)
      requires Valid()
      modifies manager
      ensures Valid() && manager.pending == old(manager.pending)
      ensures manager.View() == Offered(old(manager.View()), Resources(topology.shared), candidates, wallNow)
    {
      ghost var s := manager.View();
      for i := 0 to |topology.shared|
        invariant Valid() && manager.pending == old(manager.pending)
        invariant manager.View() == Offered(s, Resources(topology.shared[..i]), candidates, wallNow)
      {
        RefreshShared(topology.shared[i].corridorId, candidates, wallNow);
        ResourcesNextShared(topology.shared, i);
        OfferedTwoMore(s, Resources(topology.shared[..i]), topology.shared[i].corridorId, candidates, wallNow);
      }
      assert topology.shared[..|topology.shared|] == topology.shared;
    }

    method RefreshShared(id: string, candidates: map<string, seq<Candidate>>, wallNow: nat)
      requires Valid()
      modifies manager
      ensures Valid() && manager.pending == old(manager.pending)
      ensures manager.View() == OfferedBoth(old(manager.View()), id, candidates, wallNow)
    {
      var f := ResourceId(id, Forward);
      Offer(manager, f, if f in candidates then candidates[f] else [], wallNow);
      var r := ResourceId(id, Reverse);
      Offer(manager, r, if r in candidates then candidates[r] else [], wallNow);
    }

    // Plans one resource and issues a command for a newly released train.
    method PlanResource(resource: string, simulationNow: nat, wallNow: nat, ghost unsaved: set<string>)
      returns (issued: Option<Decision>, ghost d: Decision)
      requires Consistent(unsaved)
      modifies this`commandsByTrain, this`nextCommandId, manager, manager.reservations
      ensures PlanResult(manager.cfg, old(manager.View()), resource, simulationNow, wallNow, d)
      ensures manager.View() == Planned(old(manager.View()), resource, simulationNow, d)
      ensures issued ==
        if d.action == Release && d.trainId !in old(commandsByTrain)
        then Some(d.(commandId := old(nextCommandId), topologyRevision := topology.revision, issuedAt := simulationNow))
        else None
      ensures issued.None? ==>
        Consistent(unsaved) && commandsByTrain == old(commandsByTrain) && nextCommandId == old(nextCommandId)
      ensures issued.Some? ==>
        && Consistent(unsaved + {issued.value.trainId}) && nextCommandId == old(nextCommandId) + 1
        && commandsByTrain == old(commandsByTrain)[issued.value.trainId := issued.value]
    {
      ghost var before := manager.pending;
      var decision := PlanOne(manager, resource, simulationNow, wallNow);
      d := decision;
      if decision.action != Release {
        return None, d;
      }
      ReleaseKeepsCommands(commandsByTrain, before, resource, decision);
      if decision.trainId in commandsByTrain {
        return None, d;
      }
      var command := decision.(commandId := nextCommandId, topologyRevision := topology.revision,
                               issuedAt := simulationNow);
      Issue(command, unsaved);
      return Some(command), d;
    }

    // Files a new command under its train and uses up its id.
    method Issue(command: Decision, ghost unsaved: set<string>)
      requires Consistent(unsaved) && command.trainId !in commandsByTrain
      requires command.commandId == nextCommandId && IsPending(command, manager.pending)
      modifies this`commandsByTrain, this`nextCommandId
      ensures Consistent(unsaved + {command.trainId})
      ensures commandsByTrain == old(commandsByTrain)[command.trainId := command]
      ensures nextCommandId == old(nextCommandId) + 1
    {
      IssueKeepsRecords(commandsByTrain, activeByTrain, table, nextCommandId, unsaved, command);
      nextCommandId := nextCommandId + 1;
      commandsByTrain := commandsByTrain[command.trainId := command];
    }

    // The commands of `issued` were added to `kept` and are not in the table yet.
    ghost predicate Filing(kept: Commands, first: nat, issued: seq<Decision>)
      reads this, manager, manager.reservations
    {
      && Consistent(TrainsOf(issued)) && Batch(kept, commandsByTrain, issued, first)
      && nextCommandId == first + |issued|
    }

    /** Midway through planning: `ds` were decided for `rs` from `s` on, and `issued` are
        their commands. */
    ghost predicate Planning(s: State, kept: Commands, first: nat, rs: seq<string>, simulationNow: nat, wallNow: nat,
                             ds: seq<Decision>, issued: seq<Decision>)
      reads this, manager, manager.reservations
    {
      && Filing(kept, first, issued)
      && Cycled(manager.cfg, s, manager.View(), kept, rs, simulationNow, wallNow, first, topology.revision,
                ds, issued)
    }

    // Plans one resource and adds its command, if any, to the batch.
    method PlanInto(resource: string, simulationNow: nat, wallNow: nat, issued: seq<Decision>,
                    ghost s: State, ghost kept: Commands, ghost first: nat, ghost rs: seq<string>, ghost ds: seq<Decision>)
      returns (more: seq<Decision>, ghost des: seq<Decision>)
      requires Planning(s, kept, first, rs, simulationNow, wallNow, ds, issued)
      modifies this`commandsByTrain, this`nextCommandId, manager, manager.reservations
      ensures Planning(s, kept, first, rs + [resource], simulationNow, wallNow, des, more)
    {
      ghost var d, t := *, manager.View();
      more, d := PlanAndFile(resource, simulationNow, wallNow, issued, kept, first);
      des := ds + [d];
      CycledNext(manager.cfg, s, t, kept, rs, simulationNow, wallNow, first, topology.revision, ds, issued, resource, d);
    }

    method PlanAndFile(resource: string, simulationNow: nat, wallNow: nat, issued: seq<Decision>,
                       ghost kept: Commands, ghost first: nat) returns (more: seq<Decision>, ghost d: Decision)
      requires Filing(kept, first, issued)
      modifies this`commandsByTrain, this`nextCommandId, manager, manager.reservations
      ensures PlanResult(manager.cfg, old(manager.View()), resource, simulationNow, wallNow, d)
      ensures manager.View() == Planned(old(manager.View()), resource, simulationNow, d)
      ensures Filing(kept, first, more)
      ensures more == WithCommand(kept, issued, d, first, topology.revision, simulationNow)
    {
      ghost var before := commandsByTrain;
      var command;
      command, d := PlanResource(resource, simulationNow, wallNow, TrainsOf(issued));
      more := issued;
      if command.Some? {
        BatchGrows(kept, before, issued, first, command.value);
        more := issued + [command.value];
      }
    }

    // Plans every resource; the issued commands are not in the table yet.
    method PlanAll(simulationNow: nat, wallNow: nat) returns (issued: seq<Decision>, ghost ds: seq<Decision>)
      requires Valid()
      modifies this`commandsByTrain, this`nextCommandId, manager, manager.reservations
      ensures Planning(old(manager.View()), old(commandsByTrain), old(nextCommandId), Resources(topology.shared),
                       simulationNow, wallNow, ds, issued)
      ensures old(nextCommandId) > 0 && forall id <- table :: id < old(nextCommandId)
    {
      issued, ds := [], [];
      ghost var s, kept, first := manager.View(), commandsByTrain, nextCommandId;
      StartsPlanning(simulationNow, wallNow);
      assert topology.shared[..0] == [];
      for i := 0 to |topology.shared|
        invariant Planning(s, kept, first, Resources(topology.shared[..i]), simulationNow, wallNow, ds, issued)
      {
        issued, ds := PlanShared(i, simulationNow, wallNow, issued, s, kept, first, ds);
      }
      assert topology.shared[..|topology.shared|] == topology.shared;
    }

    lemma StartsPlanning(simulationNow: nat, wallNow: nat)
      requires Valid()
      ensures Planning(manager.View(), commandsByTrain, nextCommandId, Resources([]), simulationNow, wallNow, [], [])
    {
      assert TrainsOf([]) == {};
      RunningIsSafe(manager);
    }

    // Plans both directions of one shared corridor.
    method PlanShared(i: nat, simulationNow: nat, wallNow: nat, issued: seq<Decision>,
                      ghost s: State, ghost kept: Commands, ghost first: nat, ghost ds: seq<Decision>)
      returns (more: seq<Decision>, ghost des: seq<Decision>)
      requires i < |topology.shared|
      requires Planning(s, kept, first, Resources(topology.shared[..i]), simulationNow, wallNow, ds, issued)
      modifies this`commandsByTrain, this`nextCommandId, manager, manager.reservations
      ensures Planning(s, kept, first, Resources(topology.shared[..i + 1]), simulationNow, wallNow, des, more)
    {
      ghost var rs := Resources(topology.shared[..i]);
      var f := ResourceId(topology.shared[i].corridorId, Forward);
      more, des := PlanInto(f, simulationNow, wallNow, issued, s, kept, first, rs, ds);
      var r := ResourceId(topology.shared[i].corridorId, Reverse);
      more, des := PlanInto(r, simulationNow, wallNow, more, s, kept, first, rs + [f], des);
      ResourcesNextShared(topology.shared, i);
      assert rs + [f] + [r] == rs + [f, r];
    }

    /** One telemetry cycle: stale trains out, candidates in, every resource planned, and
        the new commands either all stored or, when the transaction fails, all withdrawn. */
    method UpdateTrains(removed: seq<string>, candidates: map<string, seq<Candidate>>,
                        simulationNow: nat, wallNow: nat, committed: bool)
      returns (issued: seq<Decision>, ghost planned: State, ghost ds: seq<Decision>, ghost all: seq<Decision>)
      requires Valid()
      modifies this`commandsByTrain, this`nextCommandId, this`persistenceHealthy, this`table
      modifies manager, manager.reservations
      ensures Valid()
      ensures Cycled(manager.cfg,
                     Offered(WithoutCommands(old(manager.View()), old(commandsByTrain), removed),
                             Resources(topology.shared), candidates, wallNow),
                     planned, old(commandsByTrain) - Listed(removed), Resources(topology.shared),
                     simulationNow, wallNow, old(nextCommandId), topology.revision, ds, all)
      ensures manager.View() == if persistence && !committed then CancelledAll(planned, all) else planned
      ensures nextCommandId == old(nextCommandId) + |all|
      ensures issued == if persistence && !committed then [] else all
      ensures Batch(old(commandsByTrain) - Listed(removed), commandsByTrain, issued, old(nextCommandId))
      ensures table == if persistence then Inserted(old(table), issued) else old(table)
      ensures persistenceHealthy == if persistence then committed else old(persistenceHealthy)
    {
      Prepare(removed, candidates, wallNow);
      issued, planned, ds, all := Run(simulationNow, wallNow, committed);
    }

    method Prepare(removed: seq<string>, candidates: map<string, seq<Candidate>>, wallNow: nat)
      requires Valid()
      modifies this`commandsByTrain, manager, manager.reservations
      ensures Valid() && commandsByTrain == old(commandsByTrain) - Listed(removed)
      ensures manager.View() ==
        Offered(WithoutCommands(old(manager.View()), old(commandsByTrain), removed),
                Resources(topology.shared), candidates, wallNow)
    {
      CleanupStale(removed);
      RefreshCandidates(candidates, wallNow);
    }

    method Run(simulationNow: nat, wallNow: nat, committed: bool)
      returns (issued: seq<Decision>, ghost planned: State, ghost ds: seq<Decision>, ghost all: seq<Decision>)
      requires Valid()
      modifies this`commandsByTrain, this`nextCommandId, this`persistenceHealthy, this`table
      modifies manager, manager.reservations
      ensures Valid() && Batch(old(commandsByTrain), commandsByTrain, issued, old(nextCommandId))
      ensures Cycled(manager.cfg, old(manager.View()), planned, old(commandsByTrain), Resources(topology.shared),
                     simulationNow, wallNow, old(nextCommandId), topology.revision, ds, all)
      ensures manager.View() == if persistence && !committed then CancelledAll(planned, all) else planned
      ensures nextCommandId == old(nextCommandId) + |all|
      ensures issued == if persistence && !committed then [] else all
      ensures table == if persistence then Inserted(old(table), issued) else old(table)
      ensures persistenceHealthy == if persistence then committed else old(persistenceHealthy)
    {
      ghost var kept, first := commandsByTrain, nextCommandId;
      issued, ds := PlanAll(simulationNow, wallNow);
      planned, all := manager.View(), issued;
      issued := Settle(issued, committed, kept, first);
    }

    // Ends the cycle's transaction: what is still issued is stored, if storing is on.
    method Settle(issued: seq<Decision>, committed: bool, ghost kept: Commands, ghost first: nat)
      returns (standing: seq<Decision>)
      requires Consistent(TrainsOf(issued)) && Batch(kept, commandsByTrain, issued, first)
      requires nextCommandId == first + |issued| && first > 0 && forall id <- table :: id < first
      modifies this`commandsByTrain, this`persistenceHealthy, this`table, manager, manager.reservations
      ensures Valid() && Batch(kept, commandsByTrain, standing, first)
      ensures standing == if persistence && !committed then [] else issued
      ensures manager.View() ==
        if persistence && !committed then CancelledAll(old(manager.View()), issued) else old(manager.View())
      ensures table == if persistence then Inserted(old(table), standing) else old(table)
      ensures persistenceHealthy == if persistence then committed else old(persistenceHealthy)
    {
      standing := issued;
      if persistence {
        persistenceHealthy := committed;
        if committed {
          StoreAll(issued, kept, first);
        } else {
          WithdrawAll(issued, kept, first);
          standing := [];
        }
      } else {
        UnrecordedIsValid(TrainsOf(issued));
      }
    }

    lemma UnrecordedIsValid(unsaved: set<string>)
      requires Consistent(unsaved) && !persistence
      ensures Valid()
    {
    }

    // The committed transaction: every issued command becomes a PENDING row.
    method StoreAll(issued: seq<Decision>, ghost kept: Commands, ghost first: nat)
      requires Consistent(TrainsOf(issued)) && persistence && Batch(kept, commandsByTrain, issued, first)
      requires nextCommandId == first + |issued| && first > 0 && forall id <- table :: id < first
      modifies this`table
      ensures Valid() && table == Inserted(old(table), issued)
    {
      InsertSaves(kept, commandsByTrain, activeByTrain, table, issued, first);
      var after := InsertRows(table, issued);
      table := after;
    }

    // The failed transaction: undoes this cycle's commands.
    method WithdrawAll(issued: seq<Decision>, ghost kept: Commands, ghost first: nat)
      requires Consistent(TrainsOf(issued)) && Batch(kept, commandsByTrain, issued, first)
      modifies this`commandsByTrain, manager, manager.reservations
      ensures Valid() && Batch(kept, commandsByTrain, [], first)
      ensures manager.View() == CancelledAll(old(manager.View()), issued)
    {
      ghost var s := manager.View();
      for i := 0 to |issued|
        invariant Consistent(TrainsOf(issued[i..])) && Batch(kept, commandsByTrain, issued[i..], first + i)
        invariant manager.View() == CancelledAll(s, issued[..i])
      {
        WithdrawAt(issued, i, kept, first, s);
      }
      assert issued[|issued|..] == [] && issued[..|issued|] == issued && TrainsOf([]) == {};
    }

    method WithdrawAt(issued: seq<Decision>, i: nat, ghost kept: Commands, ghost first: nat, ghost s: State)
      requires i < |issued| && manager.View() == CancelledAll(s, issued[..i])
      requires Consistent(TrainsOf(issued[i..])) && Batch(kept, commandsByTrain, issued[i..], first + i)
      modifies this`commandsByTrain, manager, manager.reservations
      ensures Consistent(TrainsOf(issued[i + 1..])) && Batch(kept, commandsByTrain, issued[i + 1..], first + i + 1)
      ensures manager.View() == CancelledAll(s, issued[..i + 1])
    {
      CancelledNext(s, issued, i);
      WithdrawFirst(issued[i..], kept, first + i);
    }

    method WithdrawFirst(issued: seq<Decision>, ghost kept: Commands, ghost first: nat)
      requires issued != []
      requires Consistent(TrainsOf(issued)) && Batch(kept, commandsByTrain, issued, first)
      modifies this`commandsByTrain, manager, manager.reservations
      ensures Consistent(TrainsOf(issued[1..])) && Batch(kept, commandsByTrain, issued[1..], first + 1)
      ensures manager.View() == PendingCancelled(old(manager.View()), issued[0].resourceId)
    {
      BatchShrinks(kept, commandsByTrain, issued, first);
      WithdrawCommand(issued[0].trainId, TrainsOf(issued));
    }

    // ----- acknowledgement -----

    predicate Matches(train: string, resource: string, commandId: Option<nat>)
      reads this
    {
      && train in commandsByTrain && commandsByTrain[train].resourceId == resource
      && (commandId.Some? ==> commandsByTrain[train].commandId == commandId.value)
    }

    /** An acknowledgement succeeds exactly when it matches a command and, with
        persistence on, its transaction commits: nothing can fail after the commit. */
    method Acknowledge(resource: string, train: string, accepted: bool, simulationNow: nat,
                       commandId: Option<nat>, committed: bool) returns (ok: bool)
      requires Valid()
      modifies this`commandsByTrain, this`activeByTrain, this`persistenceHealthy, this`table
      modifies manager, manager.reservations
      ensures Valid()
      ensures ok <==>
        && train in old(commandsByTrain) && old(commandsByTrain)[train].resourceId == resource
        && (commandId.Some? ==> old(commandsByTrain)[train].commandId == commandId.value)
        && (persistence ==> committed)
      ensures !ok ==> Untouched(old(commandsByTrain), old(activeByTrain), old(table), old(manager.View()))
      ensures ok ==> commandsByTrain == old(commandsByTrain) - {train}
      ensures ok ==>
        activeByTrain
        == if accepted then old(activeByTrain)[train := old(commandsByTrain)[train]] else old(activeByTrain)
      ensures ok ==> manager.View() == Answer(old(manager.View()), resource, train, accepted, simulationNow)
      ensures ok && persistence ==>
        var c := old(commandsByTrain)[train];
        table == old(table)[c.commandId := TableRow(c, if accepted then AcceptedRow else RejectedRow)]
      ensures ok && !persistence ==> table == old(table)
      ensures persistenceHealthy ==
        if old(Matches(train, resource, commandId)) && persistence then committed else old(persistenceHealthy)
    {
      if !Matches(train, resource, commandId) {
        return false;
      }
      if persistence {
        persistenceHealthy := committed;
        if !committed {
          return false;
        }
        StoreAnswer(train, accepted);
      }
      if accepted {
        ok := AcceptCommand(train, simulationNow);
      } else {
        ok := RejectCommand(train);
      }
    }

    ghost predicate Untouched(commands: Commands, active: Commands, rows: Table, s: State)
      reads this, manager, manager.reservations
    {
      commandsByTrain == commands && activeByTrain == active && table == rows && manager.View() == s
    }

    method StoreAnswer(train: string, accepted: bool)
      requires Valid() && persistence && train in commandsByTrain
      modifies this`table
      ensures Consistent({train})
      ensures accepted ==> ActiveSaved(activeByTrain[train := commandsByTrain[train]], table)
      ensures table ==
        old(table)[commandsByTrain[train].commandId := TableRow(commandsByTrain[train], AckStatus(accepted))]
    {
      AnswerKeepsRecords(commandsByTrain, activeByTrain, table, nextCommandId, train, AckStatus(accepted));
      table := Answered(table, commandsByTrain[train].commandId, AckStatus(accepted));
    }

    method AcceptCommand(train: string, now: nat) returns (ok: bool)
      requires Consistent({train}) && train in commandsByTrain
      requires persistence ==> ActiveSaved(activeByTrain[train := commandsByTrain[train]], table)
      modifies this`commandsByTrain, this`activeByTrain, manager, manager.reservations
      ensures ok && Valid() && commandsByTrain == old(commandsByTrain) - {train}
      ensures activeByTrain == old(activeByTrain)[train := old(commandsByTrain)[train]]
      ensures manager.View() == Confirmed(old(manager.View()), old(commandsByTrain)[train].resourceId, train, now)
    {
      var command := commandsByTrain[train];
      AcceptanceKeepsRecords(commandsByTrain, activeByTrain, manager.pending, table, nextCommandId, train, persistence);
      ok := Enter(manager, command.resourceId, train, now);
      if !ok {
        // The source's failure after the commit: the command is the pending decision.
        assert false;
      }
      activeByTrain := activeByTrain[train := command];
      commandsByTrain := commandsByTrain - {train};
    }

    method RejectCommand(train: string) returns (ok: bool)
      requires Consistent({train}) && train in commandsByTrain
      modifies this`commandsByTrain, manager, manager.reservations
      ensures ok && Valid() && commandsByTrain == old(commandsByTrain) - {train}
      ensures manager.View() == PendingCancelled(old(manager.View()), old(commandsByTrain)[train].resourceId)
    {
      RemovalKeepsCommands(commandsByTrain, manager.pending, train);
      RemovalKeepsRecords(commandsByTrain, activeByTrain, table, nextCommandId, {train}, train);
      assert IsPending(commandsByTrain[train], manager.pending);
      ok := Cancel(manager, commandsByTrain[train].resourceId);
      if !ok {
        // The source's failure after the commit: the command is the pending decision.
        assert false;
      }
      commandsByTrain := commandsByTrain - {train};
    }

    // ----- clearing -----

    // The intersections of the active passage's movements.
    method PassageIntersections(ids: seq<string>) returns (ixs: seq<string>)
      ensures IntersectionsOf(topology.movements, ids, ixs)
    {
      ixs := [];
      for i := 0 to |ids|
        invariant IntersectionsOf(topology.movements, ids[..i], ixs)
      {
        ixs := AddIntersections(ids, i, ixs);
      }
      assert ids[..|ids|] == ids;
    }

    method AddIntersections(ids: seq<string>, i: nat, before: seq<string>) returns (ixs: seq<string>)
      requires i < |ids| && IntersectionsOf(topology.movements, ids[..i], before)
      ensures IntersectionsOf(topology.movements, ids[..i + 1], ixs)
    {
      ixs := before;
      assert ids[..i + 1] == ids[..i] + [ids[i]];
      for j := 0 to |topology.movements|
        invariant forall m <- topology.movements :: m.movementId in ids[..i] ==> m.intersectionId in ixs
        invariant forall m <- topology.movements[..j] :: m.movementId == ids[i] ==> m.intersectionId in ixs
        invariant forall ix <- ixs ::
          exists m :: m in topology.movements && m.movementId in ids[..i + 1] && m.intersectionId == ix
        invariant forall m, n | 0 <= m < n < |ixs| :: ixs[m] != ixs[n]
      {
        var m := topology.movements[j];
        assert m in topology.movements;
        if m.movementId == ids[i] && m.intersectionId !in ixs {
          ixs := ixs + [m.intersectionId];
        }
      }
      assert topology.movements[..|topology.movements|] == topology.movements;
    }

    /** Names the resource and the intersections of a clear, from the active passage
        where the request leaves them out. */
    method Effective(train: string, resource: string, intersections: seq<string>)
      returns (r: string, ixs: seq<string>)
      ensures r == if resource == "" && train in activeByTrain then activeByTrain[train].resourceId else resource
      ensures intersections != [] || train !in activeByTrain ==> ixs == intersections
      ensures intersections == [] && train in activeByTrain ==>
        IntersectionsOf(topology.movements, activeByTrain[train].movementIds, ixs)
    {
      r, ixs := resource, intersections;
      if train in activeByTrain {
        if r == "" {
          r := activeByTrain[train].resourceId;
        }
        if ixs == [] {
          ixs := PassageIntersections(activeByTrain[train].movementIds);
        }
      }
    }

    /** A clear frees the resource and the intersections, and closes the passage exactly
        when that changed something; a failed transaction changes nothing. */
    method MarkCleared(train: string, resource: string, intersections: seq<string>,
                       simulationNow: nat, committed: bool)
      returns (changed: bool, ghost r: string, ghost ixs: seq<string>)
      requires Valid()
      modifies this`activeByTrain, this`persistenceHealthy, this`table, manager, manager.reservations
      ensures Valid()
      ensures r == if resource == "" && train in old(activeByTrain) then old(activeByTrain)[train].resourceId else resource
      ensures intersections != [] || train !in old(activeByTrain) ==> ixs == intersections
      ensures intersections == [] && train in old(activeByTrain) ==>
        IntersectionsOf(topology.movements, old(activeByTrain)[train].movementIds, ixs)
      ensures persistence && train in old(activeByTrain) && !committed ==>
        !changed && table == old(table) && manager.View() == old(manager.View())
      ensures !persistence || train !in old(activeByTrain) || committed ==>
        && manager.View() == LeftState(old(manager.View()), r, ixs, train, simulationNow)
        && (changed <==> CanLeave(old(manager.View()), r, ixs, train, simulationNow))
      ensures persistence && train in old(activeByTrain) && committed ==>
        table == old(table)[old(activeByTrain)[train].commandId := TableRow(old(activeByTrain)[train], ClearedRow)]
      ensures !persistence || train !in old(activeByTrain) ==> table == old(table)
      ensures persistenceHealthy ==
        if persistence && train in old(activeByTrain) then committed else old(persistenceHealthy)
      ensures activeByTrain == if changed then old(activeByTrain) - {train} else old(activeByTrain)
    {
      var effectiveResource, effectiveIntersections := Effective(train, resource, intersections);
      r, ixs := effectiveResource, effectiveIntersections;
      if persistence && train in activeByTrain {
        persistenceHealthy := committed;
        if !committed {
          return false, r, ixs;
        }
        StoreCleared(train);
      }
      changed := Close(train, effectiveResource, effectiveIntersections, simulationNow);
    }

    // The train leaves, and its passage is closed if that changed something.
    method Close(train: string, resource: string, ixs: seq<string>, now: nat) returns (changed: bool)
      requires Valid()
      modifies this`activeByTrain, manager, manager.reservations
      ensures Valid() && manager.View() == LeftState(old(manager.View()), resource, ixs, train, now)
      ensures changed <==> CanLeave(old(manager.View()), resource, ixs, train, now)
      ensures activeByTrain == if changed then old(activeByTrain) - {train} else old(activeByTrain)
    {
      changed := Depart(resource, ixs, train, now);
      if changed {
        activeByTrain := activeByTrain - {train};
      }
    }

    method StoreCleared(train: string)
      requires Valid() && persistence && train in activeByTrain
      modifies this`table
      ensures Valid()
      ensures table == old(table)[activeByTrain[train].commandId := TableRow(activeByTrain[train], ClearedRow)]
    {
      ClearKeepsRecords(commandsByTrain, activeByTrain, table, nextCommandId, train);
      table := ClearedIn(table, activeByTrain[train].commandId);
    }

    method Depart(resource: string, ixs: seq<string>, train: string, now: nat) returns (changed: bool)
      requires Valid()
      modifies manager, manager.reservations
      ensures Valid() && manager.View() == LeftState(old(manager.View()), resource, ixs, train, now)
      ensures changed <==> CanLeave(old(manager.View()), resource, ixs, train, now)
    {
      changed := false;
      RunningIsSafe(manager);
      if resource != "" {
        changed := Leave(manager, resource);
      }
      var any := ClearIntersections(manager, ixs, train, now);
      changed := any || changed;
    }

    // ----- topology -----

    /** Changed routes are refused while any command or passage is open or when the
        registry rejects them; otherwise the manager is rebuilt from the new topology. */
    method ReplaceRoutes(unchangedRoutes: bool, next: Option<Topology>, wallNow: nat, committed: bool)
      returns (ok: bool)
      requires Valid()
      modifies this`manager, this`topology, this`persistenceHealthy
      ensures Valid() && manager.cfg == old(manager.cfg)
      ensures ok <==> unchangedRoutes || (commandsByTrain == map[] && activeByTrain == map[] && next.Some?)
      ensures !ok || unchangedRoutes ==>
        manager == old(manager) && topology == old(topology) && persistenceHealthy == old(persistenceHealthy)
      ensures ok && !unchangedRoutes ==>
        && topology == next.value && manager.View() == Built(manager.cfg, topology, wallNow)
        && persistenceHealthy == if persistence then committed else old(persistenceHealthy)
    {
      if unchangedRoutes {
        return true;
      }
      if commandsByTrain != map[] || activeByTrain != map[] || next.None? {
        return false;
      }
      topology := next.value;
      manager := Rebuild(manager.cfg, next.value, wallNow);
      if persistence {
        persistenceHealthy := committed;
      }
      return true;
    }

    // ----- recovery -----

    /** Recovery rebuilds the stored topology and replays the unfinished rows, pending ones
        first.  It succeeds exactly when the routes load and every row belongs to the stored
        topology and is accepted in its turn; otherwise the service must not start. */
    method EnablePersistence(
      loaded: bool, routes: Option<Topology>, revision: nat, stored: Table,
      pending: seq<Decision>, active: seq<Decision>, nextSequence: nat, wallNow: nat)
      returns (ok: bool, ghost start: State)
      requires Valid() && !persistence && commandsByTrain == map[] && activeByTrain == map[]
      requires ReadFrom(stored, pending, active)
      requires forall id <- stored :: 0 < id < nextSequence && stored[id].command.commandId == id
      modifies this, manager, manager.reservations
      ensures manager.cfg == old(manager.cfg) && (!ok ==> !persistence)
      ensures topology == if loaded && routes.Some? then routes.value.(revision := revision) else old(topology)
      ensures start == if loaded && routes.Some? then Built(manager.cfg, topology, wallNow) else old(manager.View())
      ensures ok <==> loaded && Recoverable(start, pending, active, revision)
      ensures ok ==> Valid() && persistence && persistenceHealthy && table == stored
      ensures ok ==> manager.View() == Replay(start, RowsOf(pending, active))
      ensures ok ==> nextCommandId == Max(old(nextCommandId), nextSequence)
      ensures ok ==> commandsByTrain.Keys == TrainsOf(pending) && activeByTrain.Keys == TrainsOf(active)
      ensures ok ==> commandsByTrain == ByTrain(pending) && activeByTrain == ByTrain(active)
    {
      start := manager.View();
      if !loaded {
        return false, start;
      }
      LoadTopology(routes, revision, wallNow);
      start := manager.View();
      ok := Recover(start, stored, pending, active, revision, nextSequence);
    }

    method Recover(ghost start: State, stored: Table, pending: seq<Decision>, active: seq<Decision>, revision: nat,
                   nextSequence: nat) returns (ok: bool)
      requires Running(manager) && manager.View() == start && nextCommandId > 0
      requires commandsByTrain == map[] && activeByTrain == map[] && ReadFrom(stored, pending, active)
      requires forall id <- stored :: 0 < id < nextSequence && stored[id].command.commandId == id
      modifies this`commandsByTrain, this`activeByTrain, manager, manager.reservations
      modifies this`nextCommandId, this`persistence, this`persistenceHealthy, this`table
      ensures ok <==> Recoverable(start, pending, active, revision)
      ensures ok ==> Valid() && persistence && persistenceHealthy && table == stored
      ensures ok ==> manager.View() == Replay(start, RowsOf(pending, active))
      ensures ok ==> nextCommandId == Max(old(nextCommandId), nextSequence)
      ensures ok ==> commandsByTrain.Keys == TrainsOf(pending) && activeByTrain.Keys == TrainsOf(active)
      ensures ok ==> commandsByTrain == ByTrain(pending) && activeByTrain == ByTrain(active)
      ensures !ok ==> persistence == old(persistence)
    {
      ok := ReplayAll(start, pending, active, revision);
      if ok {
        Adopt(stored, pending, active, nextSequence);
      }
    }

    // Recovery is complete: ids continue after the stored ones and storing is on.
    method Adopt(stored: Table, ghost pending: seq<Decision>, ghost active: seq<Decision>, nextSequence: nat)
      requires Running(manager) && CommandsPending(commandsByTrain, manager.pending) && nextCommandId > 0
      requires ReadFrom(stored, pending, active)
      requires forall id <- stored :: 0 < id < nextSequence && stored[id].command.commandId == id
      requires forall t <- commandsByTrain :: commandsByTrain[t] in pending
      requires forall t <- activeByTrain :: activeByTrain[t] in active
      modifies this`nextCommandId, this`persistence, this`persistenceHealthy, this`table
      ensures Valid() && persistence && persistenceHealthy && table == stored
      ensures nextCommandId == Max(old(nextCommandId), nextSequence)
    {
      nextCommandId := Max(nextCommandId, nextSequence);
      persistence, persistenceHealthy, table := true, true, stored;
      RecoveredRecords(commandsByTrain, activeByTrain, stored, nextCommandId, pending, active);
    }

    method LoadTopology(routes: Option<Topology>, revision: nat, wallNow: nat)
      requires Running(manager)
      modifies this`manager, this`topology
      ensures Running(manager) && manager.cfg == old(manager.cfg)
      ensures routes.None? ==> manager == old(manager) && topology == old(topology)
      ensures routes.Some? ==>
        && fresh(manager) && fresh(manager.reservations) && topology == routes.value.(revision := revision)
        && manager.View() == Built(manager.cfg, topology, wallNow)
    {
      if routes.Some? {
        topology := routes.value.(revision := revision);
        manager := Rebuild(manager.cfg, topology, wallNow);
      }
    }

    method ReplayAll(ghost start: State, pending: seq<Decision>, active: seq<Decision>, revision: nat)
      returns (ok: bool)
      requires Running(manager) && manager.View() == start
      requires commandsByTrain == map[] && activeByTrain == map[]
      modifies this`commandsByTrain, this`activeByTrain, manager, manager.reservations
      ensures ok <==> Recoverable(start, pending, active, revision)
      ensures ok ==> Running(manager) && manager.View() == Replay(start, RowsOf(pending, active))
      ensures ok ==> CommandsPending(commandsByTrain, manager.pending)
      ensures ok ==> commandsByTrain.Keys == TrainsOf(pending) && activeByTrain.Keys == TrainsOf(active)
      ensures ok ==> commandsByTrain == ByTrain(pending) && activeByTrain == ByTrain(active)
      ensures ok ==> (forall t <- commandsByTrain :: commandsByTrain[t] in pending)
                     && (forall t <- activeByTrain :: activeByTrain[t] in active)
    {
      ghost var rows := RowsOf(pending, active);
      RowsOfParts(pending, active);
      ok := ReplayPending(start, rows, pending, revision);
      if ok {
        ok := ReplayActive(start, rows, |pending|, active, revision);
      }
    }

    method ReplayPending(ghost start: State, ghost rows: seq<Row>, pending: seq<Decision>, revision: nat)
      returns (ok: bool)
      requires Running(manager) && manager.View() == start && commandsByTrain == map[]
      requires |pending| <= |rows| && forall i | 0 <= i < |pending| :: rows[i] == Row(pending[i], false)
      modifies this`commandsByTrain, manager, manager.reservations
      ensures ok <==> forall i | 0 <= i < |pending| :: RowFits(start, rows, i, revision)
      ensures ok ==> Running(manager) && manager.View() == Replay(start, rows[..|pending|])
      ensures ok ==> CommandsPending(commandsByTrain, manager.pending)
      ensures ok ==> commandsByTrain.Keys == TrainsOf(pending) && commandsByTrain == ByTrain(pending)
      ensures ok ==> forall t <- commandsByTrain :: commandsByTrain[t] in pending
    {
      assert pending[..0] == [];
      for i := 0 to |pending|
        invariant PendingDone(start, rows, pending, i)
        invariant forall n | 0 <= n < i :: RowFits(start, rows, n, revision)
      {
        ok := ReplayPendingRow(start, rows, pending, i, revision);
        if !ok {
          return false;
        }
      }
      assert pending[..|pending|] == pending;
      ByTrainKeys(pending);
      ok := true;
    }

    // The first `n` pending commands are restored.
    ghost predicate PendingDone(start: State, rows: seq<Row>, pending: seq<Decision>, n: nat)
      requires n <= |pending| && n <= |rows|
      reads this, manager, manager.reservations
    {
      && Running(manager) && manager.View() == Replay(start, rows[..n])
      && CommandsPending(commandsByTrain, manager.pending)
      && commandsByTrain == ByTrain(pending[..n])
    }

    method ReplayPendingRow(ghost start: State, ghost rows: seq<Row>, pending: seq<Decision>, i: nat, revision: nat)
      returns (ok: bool)
      requires i < |pending| && i < |rows| && rows[i] == Row(pending[i], false)
      requires PendingDone(start, rows, pending, i)
      modifies this`commandsByTrain, manager, manager.reservations
      ensures ok == RowFits(start, rows, i, revision)
      ensures ok ==> PendingDone(start, rows, pending, i + 1)
    {
      if pending[i].topologyRevision != revision {
        return false;
      }
      ok := RestoreCommand(pending[i]);
      assert rows[..i + 1][..i] == rows[..i];
      ByTrainNext(pending, i);
    }

    method RestoreCommand(d: Decision) returns (ok: bool)
      requires Running(manager) && CommandsPending(commandsByTrain, manager.pending)
      modifies this`commandsByTrain, manager, manager.reservations
      ensures Running(manager) && CommandsPending(commandsByTrain, manager.pending)
      ensures ok == CanRestorePending(old(manager.View()), d)
      ensures manager.View() == PendingRestored(old(manager.View()), d)
      ensures ok ==> commandsByTrain == old(commandsByTrain)[d.trainId := d]
    {
      RunningIsSafe(manager);
      ghost var s := manager.View();
      ok := RestoreRow(manager, Row(d, false));
      if ok {
        RestoreKeepsCommands(commandsByTrain, s, d);
        commandsByTrain := commandsByTrain[d.trainId := d];
      }
    }

    method ReplayActive(ghost start: State, ghost rows: seq<Row>, ghost offset: nat, active: seq<Decision>, revision: nat)
      returns (ok: bool)
      requires Running(manager) && activeByTrain == map[] && CommandsPending(commandsByTrain, manager.pending)
      requires offset + |active| == |rows| && manager.View() == Replay(start, rows[..offset])
      requires forall i | 0 <= i < |active| :: rows[offset + i] == Row(active[i], true)
      modifies this`activeByTrain, manager, manager.reservations
      ensures ok <==> forall i | offset <= i < |rows| :: RowFits(start, rows, i, revision)
      ensures ok ==> Running(manager) && manager.View() == Replay(start, rows[..offset + |active|])
      ensures ok ==> CommandsPending(commandsByTrain, manager.pending)
      ensures ok ==> activeByTrain.Keys == TrainsOf(active) && activeByTrain == ByTrain(active)
      ensures ok ==> forall t <- activeByTrain :: activeByTrain[t] in active
    {
      assert active[..0] == [];
      for i := 0 to |active|
        invariant ActiveDone(start, rows, offset, active, i)
        invariant forall n | offset <= n < offset + i :: RowFits(start, rows, n, revision)
      {
        ok := ReplayActiveRow(start, rows, offset, active, i, revision);
        if !ok {
          return false;
        }
      }
      assert active[..|active|] == active;
      ByTrainKeys(active);
      ok := true;
    }

    // The first `n` accepted commands are restored after the pending ones.
    ghost predicate ActiveDone(start: State, rows: seq<Row>, offset: nat, active: seq<Decision>, n: nat)
      requires n <= |active| && offset + n <= |rows|
      reads this, manager, manager.reservations
    {
      && Running(manager) && manager.View() == Replay(start, rows[..offset + n])
      && CommandsPending(commandsByTrain, manager.pending)
      && activeByTrain == ByTrain(active[..n])
    }

    method ReplayActiveRow(ghost start: State, ghost rows: seq<Row>, ghost offset: nat, active: seq<Decision>, i: nat,
                           revision: nat) returns (ok: bool)
      requires i < |active| && offset + i < |rows| && rows[offset + i] == Row(active[i], true)
      requires ActiveDone(start, rows, offset, active, i)
      modifies this`activeByTrain, manager, manager.reservations
      ensures ok == RowFits(start, rows, offset + i, revision)
      ensures ok ==> ActiveDone(start, rows, offset, active, i + 1)
    {
      if active[i].topologyRevision != revision {
        return false;
      }
      ok := RestorePassage(active[i]);
      assert rows[..offset + i + 1][..offset + i] == rows[..offset + i];
      ByTrainNext(active, i);
    }

    method RestorePassage(d: Decision) returns (ok: bool)
      requires Running(manager) && CommandsPending(commandsByTrain, manager.pending)
      modifies this`activeByTrain, manager, manager.reservations
      ensures Running(manager) && CommandsPending(commandsByTrain, manager.pending)
      ensures ok == CanRestoreActive(old(manager.View()), d)
      ensures manager.View() == ActiveRestored(old(manager.View()), d)
      ensures !ok ==> activeByTrain == old(activeByTrain)
      ensures ok ==> activeByTrain == old(activeByTrain)[d.trainId := d]
    {
      ok := RestoreRow(manager, Row(d, true));
      if ok {
        activeByTrain := activeByTrain[d.trainId := d];
      }
    }
  }

  method InsertRows(table: Table, issued: seq<Decision>) returns (after: Table)
    ensures after == Inserted(table, issued)
  {
    after := table;
    for i := 0 to |issued|
      invariant after == Inserted(table, issued[..i])
    {
      assert issued[..i + 1][..i] == issued[..i];
      after := after[issued[i].commandId := TableRow(issued[i], PendingRow)];
    }
    assert issued[..|issued|] == issued;
  }

  function AckStatus(accepted: bool): Status {
    if accepted then AcceptedRow else RejectedRow
  }

  function Activated(active: Commands, commands: Commands, train: string, accepted: bool): Commands
    requires train in commands
  {
    if accepted then active[train := commands[train]] else active
  }

  function Answer(s: State, resource: string, train: string, accepted: bool, now: nat): State {
    if accepted then Confirmed(s, resource, train, now) else PendingCancelled(s, resource)
  }

  lemma ResourcesNextShared(shared: seq<Shared>, i: nat)
    requires i < |shared|
    ensures Resources(shared[..i + 1])
         == Resources(shared[..i]) + [ResourceId(shared[i].corridorId, Forward), ResourceId(shared[i].corridorId, Reverse)]
  {
    assert shared[..i + 1][..i] == shared[..i];
  }

  function OfferedBoth(s: State, id: string, candidates: map<string, seq<Candidate>>, wallNow: nat): State {
    var f, r := ResourceId(id, Forward), ResourceId(id, Reverse);
    Replaced(Replaced(s, f, ListFor(candidates, f), wallNow), r, ListFor(candidates, r), wallNow)
  }

  lemma OfferedTwoMore(s: State, rs: seq<string>, id: string, candidates: map<string, seq<Candidate>>, wallNow: nat)
    ensures Offered(s, rs + [ResourceId(id, Forward), ResourceId(id, Reverse)], candidates, wallNow)
         == OfferedBoth(Offered(s, rs, candidates, wallNow), id, candidates, wallNow)
  {
    var f, r := ResourceId(id, Forward), ResourceId(id, Reverse);
    assert (rs + [f, r])[..|rs| + 1] == rs + [f] && (rs + [f])[..|rs|] == rs;
  }
}
