/** The game side's passage machine: a release becomes a passage, its entry is
    acknowledged once, and its clear follows once the tail has had time to leave.  Times are
    milliseconds of the simulation; engine calls are inputs. */
module Passage {
  import opened Basics

  // A release as the server sent it.
  datatype Command = Command(
    commandId: string,
    trainId: string,
    lineId: string,
    resourceId: string,
    isRelease: bool,
    topologyRevision: int,
    hasBounds: bool,
    entry: real,
    exit: real,
    issuedAt: int)

  // The id, or the fields that stand in for a missing one.
  datatype Identity = ById(id: string) | ByFields(train: string, resource: string, issued: int)

  function IdentityOf(c: Command): Identity {
    if c.commandId != "" then ById(c.commandId) else ByFields(c.trainId, c.resourceId, c.issuedAt)
  }

  datatype Passing = Passing(command: Command, acknowledged: bool, wasInside: bool, exitObservedAt: int)

  datatype Kind = Accepted | Rejected | Cleared

  /** What is handed to the sender.  A clear carries no command id on the wire; `identity`
      says which command it is for. */
  datatype Event = Event(kind: Kind, identity: Identity, train: string, resource: string, time: int)

  // A train in the latest snapshot; `visible` when the engine knows its position.
  datatype Train = Train(trainId: string, lineId: string, position: real, visible: bool)

  datatype State = State(
    passages: map<string, Passing>,
    finished: set<Identity>,
    events: seq<Event>,
    flushed: bool)

  const Initial := State(map[], {}, [], false)
  const MAX_FINISHED := 4096
  const TAIL_CLEARANCE_MS := 2000

  // ----- one observation of one passage -----

  datatype Outcome = Quiet | Enter | Leave

  function Observe(p: Passing, inside: bool, time: int): (Passing, Outcome) {
    if inside then (p.(wasInside := true, exitObservedAt := 0, acknowledged := true), if p.acknowledged then Quiet else Enter)
    else if !p.acknowledged || !p.wasInside then (p, Quiet)
    else if p.exitObservedAt == 0 then (p.(exitObservedAt := time), Quiet)
    else if time - p.exitObservedAt < TAIL_CLEARANCE_MS then (p, Quiet)
    else (p, Leave)
  }

  predicate Inside(c: Command, position: real) {
    MinReal(c.entry, c.exit) <= position <= MaxReal(c.entry, c.exit)
  }

  // ----- steps on values -----

  function EventOf(kind: Kind, p: Passing, time: int): Event {
    Event(kind, IdentityOf(p.command), p.command.trainId, p.command.resourceId, time)
  }

  function Emit(s: State, e: Event): State {
    s.(events := s.events + [e])
  }

  // The set of finished commands is flushed when it grows too large.
  function Finish(s: State, k: Identity): State {
    if |s.finished + {k}| > MAX_FINISHED then s.(finished := {}, flushed := true)
    else s.(finished := s.finished + {k})
  }

  function RejectAndFinish(s: State, p: Passing, time: int): State {
    Finish(if p.acknowledged then s else Emit(s, EventOf(Rejected, p, time)), IdentityOf(p.command))
  }

  function ClearAndFinish(s: State, p: Passing, time: int): State {
    Finish(Emit(s, EventOf(Cleared, p, time)), IdentityOf(p.command))
  }

  predicate WellFormed(c: Command) {
    c.isRelease && c.trainId != "" && c.resourceId != ""
  }

  function Fresh(c: Command): Passing {
    Passing(c, false, false, 0)
  }

  // One dequeued command.
  function Received(s: State, c: Command, now: int): State {
    if !WellFormed(c) || IdentityOf(c) in s.finished then s
    else if c.trainId !in s.passages then s.(passages := s.passages[c.trainId := Fresh(c)])
    else if IdentityOf(s.passages[c.trainId].command) == IdentityOf(c) then s
    else
      var t := RejectAndFinish(s, s.passages[c.trainId], now);
      t.(passages := t.passages[c.trainId := Fresh(c)])
  }

  function Drained(s: State, cs: seq<Command>, now: int): State {
    if cs == [] then s else Received(Drained(s, cs[..|cs| - 1], now), cs[|cs| - 1], now)
  }

  predicate Stale(c: Command, t: Train, revision: int) {
    (revision != 0 && c.topologyRevision != revision) || c.lineId != t.lineId || !c.hasBounds
  }

  // One train of the snapshot.
  function Seen(s: State, t: Train, revision: int, time: int): State {
    if t.trainId == "" || !t.visible || t.trainId !in s.passages then s
    else
      var p := s.passages[t.trainId];
      if Stale(p.command, t, revision) then
        var r := RejectAndFinish(s, p, time);
        r.(passages := r.passages - {t.trainId})
      else
        var (q, outcome) := Observe(p, Inside(p.command, t.position), time);
        match outcome
        case Quiet => s.(passages := s.passages[t.trainId := q])
        case Enter => Emit(s.(passages := s.passages[t.trainId := q]), EventOf(Accepted, p, time))
        case Leave =>
          var r := ClearAndFinish(s, p, time);
          r.(passages := r.passages - {t.trainId})
  }

  function SeenAll(s: State, ts: seq<Train>, revision: int, time: int): State {
    if ts == [] then s else Seen(SeenAll(s, ts[..|ts| - 1], revision, time), ts[|ts| - 1], revision, time)
  }

  // One passage whose train is no longer in the snapshot.
  function Missed(s: State, train: string, time: int): State {
    if train !in s.passages then s
    else
      var p := s.passages[train];
      var r := if p.acknowledged then ClearAndFinish(s, p, time) else RejectAndFinish(s, p, time);
      r.(passages := r.passages - {train})
  }

  function MissedAll(s: State, trains: seq<string>, time: int): State {
    if trains == [] then s else Missed(MissedAll(s, trains[..|trains| - 1], time), trains[|trains| - 1], time)
  }

  ghost predicate Names(trains: set<string>, names: seq<string>) {
    (forall t :: t in names <==> t in trains) && forall i, j | 0 <= i < j < |names| :: names[i] != names[j]
  }

  function SeenIds(ts: seq<Train>): set<string> {
    set t | t in ts && t.trainId != "" :: t.trainId
  }

  // ----- the runtime object -----

  class DispatchRuntime {
    var pendingCommands: seq<Command>
    var passagesByTrain: map<string, Passing>
    var finishedCommandIds: set<Identity>
    var topologyRevision: int
    var events: seq<Event>
    ghost var flushed: bool

    ghost function View(): State
      reads this
    {
      State(passagesByTrain, finishedCommandIds, events, flushed)
    }

    constructor ()
      ensures View() == Initial && pendingCommands == []
    {
      pendingCommands, passagesByTrain, finishedCommandIds, topologyRevision := [], map[], {}, 0;
      events, flushed := [], false;
    }

    // The polling thread queues what the server returned.
    method AcceptCommands(commands: seq<Command>)
      modifies this`pendingCommands
      ensures pendingCommands == old(pendingCommands) + commands
    {
      pendingCommands := pendingCommands + commands;
    }

    method AcceptTopology(revision: int)
      modifies this`topologyRevision
      ensures topologyRevision == revision
    {
      topologyRevision := revision;
    }

    method EmitEvent(e: Event)
      modifies this`events
      ensures View() == Emit(old(View()), e)
    {
      events := events + [e];
    }

    method FinishCommand(k: Identity)
      modifies this`finishedCommandIds, this`flushed
      ensures View() == Finish(old(View()), k)
    {
      finishedCommandIds := finishedCommandIds + {k};
      if |finishedCommandIds| > MAX_FINISHED {
        finishedCommandIds := {};
        flushed := true;
      }
    }

    method Reject(p: Passing, time: int)
      modifies this`events, this`finishedCommandIds, this`flushed
      ensures View() == RejectAndFinish(old(View()), p, time)
    {
      if !p.acknowledged {
        EmitEvent(EventOf(Rejected, p, time));
      }
      FinishCommand(IdentityOf(p.command));
    }

    method Clear(p: Passing, time: int)
      modifies this`events, this`finishedCommandIds, this`flushed
      ensures View() == ClearAndFinish(old(View()), p, time)
    {
      EmitEvent(EventOf(Cleared, p, time));
      FinishCommand(IdentityOf(p.command));
    }

    method DrainCommands(now: int)
      modifies this
      ensures pendingCommands == [] && topologyRevision == old(topologyRevision)
      ensures View() == Drained(old(View()), old(pendingCommands), now)
    {
      ghost var s, cs, done := View(), pendingCommands, 0;
      while pendingCommands != []
        invariant done + |pendingCommands| == |cs| && pendingCommands == cs[done..]
        invariant View() == Drained(s, cs[..done], now) && topologyRevision == old(topologyRevision)
        decreases |pendingCommands|
      {
        var c := pendingCommands[0];
        pendingCommands := pendingCommands[1..];
        assert cs[..done + 1][..done] == cs[..done];
        done := done + 1;
        Receive(c, now);
      }
      assert cs[..done] == cs;
    }

    method Receive(c: Command, now: int)
      modifies this`passagesByTrain, this`events, this`finishedCommandIds, this`flushed
      ensures View() == Received(old(View()), c, now)
    {
      if !c.isRelease || c.trainId == "" || c.resourceId == "" {
        return;
      }
      var identity := IdentityOf(c);
      if identity in finishedCommandIds {
        return;
      }
      if c.trainId in passagesByTrain {
        var existing := passagesByTrain[c.trainId];
        if IdentityOf(existing.command) == identity {
          return;
        }
        Reject(existing, now);
      }
      passagesByTrain := passagesByTrain[c.trainId := Fresh(c)];
    }

    method UpdatePassage(t: Train, time: int, p: Passing)
      requires t.trainId in passagesByTrain && passagesByTrain[t.trainId] == p
      requires t.trainId != "" && t.visible && !Stale(p.command, t, topologyRevision)
      modifies this`passagesByTrain, this`events, this`finishedCommandIds, this`flushed
      ensures View() == Seen(old(View()), t, topologyRevision, time)
    {
      var start := MinReal(p.command.entry, p.command.exit);
      var end := MaxReal(p.command.entry, p.command.exit);
      var passage := p;
      if start <= t.position && t.position <= end {
        passage := passage.(wasInside := true, exitObservedAt := 0);
        if !passage.acknowledged {
          passage := passage.(acknowledged := true);
          EmitEvent(EventOf(Accepted, p, time));
        }
        passagesByTrain := passagesByTrain[t.trainId := passage];
        return;
      }
      if !passage.acknowledged || !passage.wasInside {
        assert passagesByTrain[t.trainId := passage] == passagesByTrain;
        return;
      }
      if passage.exitObservedAt == 0 {
        passagesByTrain := passagesByTrain[t.trainId := passage.(exitObservedAt := time)];
        return;
      }
      if time - passage.exitObservedAt < TAIL_CLEARANCE_MS {
        assert passagesByTrain[t.trainId := passage] == passagesByTrain;
        return;
      }
      Clear(p, time);
      passagesByTrain := passagesByTrain - {t.trainId};
    }

    method SeeTrain(t: Train, time: int)
      requires t.trainId != ""
      modifies this`passagesByTrain, this`events, this`finishedCommandIds, this`flushed
      ensures View() == Seen(old(View()), t, topologyRevision, time)
    {
      if !t.visible || t.trainId !in passagesByTrain {
        return;
      }
      var p := passagesByTrain[t.trainId];
      if (topologyRevision != 0 && p.command.topologyRevision != topologyRevision) ||
         p.command.lineId != t.lineId || !p.command.hasBounds {
        Reject(p, time);
        passagesByTrain := passagesByTrain - {t.trainId};
        return;
      }
      UpdatePassage(t, time, p);
    }

    // Ends the passages of trains that are gone, in some order.
    method RemoveMissingPassages(seen: set<string>, time: int) returns (ghost missing: seq<string>)
      modifies this`passagesByTrain, this`events, this`finishedCommandIds, this`flushed
      ensures Names(old(passagesByTrain).Keys - seen, missing)
      ensures View() == MissedAll(old(View()), missing, time)
    {
      missing := [];
      ghost var s := View();
      var left := passagesByTrain.Keys - seen;
      while left != {}
        invariant left <= s.passages.Keys - seen && Names(s.passages.Keys - seen - left, missing)
        invariant View() == MissedAll(s, missing, time) && left <= passagesByTrain.Keys
      {
        var train :| train in left;
        left := left - {train};
        ghost var was := missing;
        missing := missing + [train];
        assert missing[..|was|] == was;
        var p := passagesByTrain[train];
        if !p.acknowledged {
          Reject(p, time);
        } else {
          Clear(p, time);
        }
        passagesByTrain := passagesByTrain - {train};
      }
    }

    /** One game frame. */
    method Tick(trains: seq<Train>, time: int, now: int) returns (ghost missing: seq<string>)
      modifies this
      ensures pendingCommands == [] && topologyRevision == old(topologyRevision)
      ensures var s := SeenAll(Drained(old(View()), old(pendingCommands), now), trains, topologyRevision, time);
        Names(s.passages.Keys - SeenIds(trains), missing) && View() == MissedAll(s, missing, time)
    {
      DrainCommands(now);
      ghost var s := View();
      var seen: set<string> := {};
      for i := 0 to |trains|
        invariant View() == SeenAll(s, trains[..i], topologyRevision, time) && seen == SeenIds(trains[..i])
        invariant topologyRevision == old(topologyRevision) && pendingCommands == []
      {
        SeenIdsNext(trains, i);
        assert trains[..i + 1][..i] == trains[..i];
        if trains[i].trainId == "" {
          continue;
        }
        seen := seen + {trains[i].trainId};
        SeeTrain(trains[i], time);
      }
      assert trains[..|trains|] == trains;
      missing := RemoveMissingPassages(seen, time);
    }
  }

  lemma SeenIdsNext(ts: seq<Train>, i: nat)
    requires i < |ts|
    ensures SeenIds(ts[..i + 1]) == SeenIds(ts[..i]) + (if ts[i].trainId == "" then {} else {ts[i].trainId})
  {
    assert ts[..i + 1] == ts[..i] + [ts[i]];
  }
}
