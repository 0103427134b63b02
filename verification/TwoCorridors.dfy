/** A topology of two shared corridors, and the release of a train that is the only candidate
    of a resource, for the examples. */
module TwoCorridors {
  import opened Basics
  import opened Reservations
  import opened Policy
  import opened DispatchSpec
  import opened DispatchManagers
  import opened DispatchRuns
  import opened Restart
  import opened Lifecycle
  import opened Setup
  import opened LiveRows
  import opened Recovery
  import opened Lives
  import Cycle

  // Two shared corridors, both used by one line, and the movements.
  function Tracks(movements: seq<Movement>): Topology {
    Topology(1, movements, [Shared("C", ["L"]), Shared("D", ["L"])], map["L" := 1000])
  }

  function On(id: string): string {
    ResourceId(id, Forward)
  }

  function WaitingTrain(id: string, train: string, ids: seq<string>): Candidate {
    Candidate(train, "L", Forward, On(id), ids, 1, 1, Some(0.0))
  }

  function Offering(id: string, train: string, ids: seq<string>): Deed {
    Refresh(On(id), [WaitingTrain(id, train, ids)], 1)
  }

  function Releasing(id: string, d: Decision): Deed {
    Issue(On(id), 1, 1, d, CommandOf(d))
  }

  function CommandOf(d: Decision): Decision {
    d.(topologyRevision := 1, issuedAt := 1)
  }

  // The forward direction of the corridor is open for a train of line L at time 1.
  ghost predicate Ready(s: State, id: string) {
    && GoodLines(s) && On(id) in s.corridors && "L" in LinesAt(s, On(id)) && !Blocked(s, On(id))
    && OpenTrack(s.corridors[On(id)], id) && On(id) !in s.pending
  }

  predicate OpenTrack(c: Corridor, id: string) {
    && c.resourceId == On(id) && c.corridorId == id && c.direction == Forward
    && c.downstreamAvailable && !c.commandPending && c.occupancy < c.capacity && c.lastEntry == 0
  }

  function Offer(s: State, id: string, train: string, ids: seq<string>): State {
    Replaced(s, On(id), [WaitingTrain(id, train, ids)], 1)
  }

  // The train is the only candidate.
  ghost predicate Waits(s: State, id: string, train: string, ids: seq<string>)
    requires On(id) in s.corridors
  {
    s.corridors[On(id)].candidates == [WaitingTrain(id, train, ids)] && s.corridors[On(id)].receivedWall == 1
  }

  lemma BuiltReady(cfg: ManagerConfig, movements: seq<Movement>, id: string)
    requires ValidManagerConfig(cfg) && (id == "C" || id == "D")
    ensures Ready(Built(cfg, Tracks(movements), 1), id)
  {
    var t, s := Tracks(movements), Built(cfg, Tracks(movements), 1);
    BuiltFromTopology(cfg, t, 1);
    BuiltIsSafe(cfg, t, 1);
    BothShared(t.shared, id);
    assert s.corridors[On(id)] == IdleCorridor(cfg, id, Forward, 1);
    assert LineRight(s, t.shared, t.headways, On(id), "L");
  }

  lemma BothShared(shared: seq<Shared>, id: string)
    requires shared == [Shared("C", ["L"]), Shared("D", ["L"])] && (id == "C" || id == "D")
    ensures (id, Forward) in Setup.Pairs(shared) && Setup.Uses(shared, On(id), "L")
  {
    assert shared[..1] == [Shared("C", ["L"])];
    assert Setup.Uses(shared[..1], On("C"), "L") && ("C", Forward) in Setup.Pairs(shared[..1]);
  }

  // What happens to another corridor leaves this one ready.
  lemma ReadyElsewhere(s: State, t: State, id: string, r: string)
    requires Ready(s, id) && r in s.corridors && s.corridors[r].corridorId != id
    requires t.corridors.Keys == s.corridors.Keys && t.corridors[r].corridorId == s.corridors[r].corridorId
    requires forall p <- s.corridors :: p != r ==> t.corridors[p] == s.corridors[p]
    requires GoodLines(t) && "L" in LinesAt(t, On(id)) && On(id) !in t.pending
    ensures Ready(t, id)
  {
    forall o | Opposing(t, On(id), o) ensures Opposing(s, On(id), o) {
    }
  }

  lemma OfferKeepsReady(s: State, id: string, train: string, ids: seq<string>)
    requires Ready(s, id)
    ensures Ready(Offer(s, id, train, ids), id) && Waits(Offer(s, id, train, ids), id, train, ids)
  {
    forall o | Opposing(Offer(s, id, train, ids), On(id), o) ensures Opposing(s, On(id), o) {
    }
  }

  // The only candidate is released.
  lemma ReleaseTheTrain(cfg: ManagerConfig, s: State, id: string, train: string, ids: seq<string>)
    returns (d: Decision)
    requires ValidManagerConfig(cfg) && Ready(s, id) && Waits(s, id, train, ids) && train != ""
    requires Reservable(s.book, ids, 1)
    ensures PlanResult(cfg, s, On(id), 1, 1, d)
    ensures d.action == Release && d.trainId == train && d.resourceId == On(id) && d.movementIds == ids
  {
    var c, ctx := WaitingTrain(id, train, ids), PlanContext(s, On(id), 1, 1);
    AdmitsAll(s.book, c);
    assert ctx.corridor.candidates == [c];
    assert Feasible(cfg.policy, ctx, c);
    SoleIsChosen(cfg.policy, ctx, c);
    d := ReleaseOf(cfg.policy, ctx, c);
    assert Open(cfg.policy, ctx);
    assert AnyFeasible(cfg.policy, ctx) by {
      assert c in ctx.corridor.candidates;
    }
    assert d == ReleaseOf(cfg.policy, ctx, ctx.corridor.candidates[0]);
  }

  lemma AdmitsAll(b: Book, c: Candidate)
    requires Reservable(b, c.movementIds, 1)
    ensures Admitted(b, [c], 1) == [c]
  {
    assert [c][..0] == [] && Admitted(b, [], 1) == [];
  }

  lemma SoleIsChosen(cfg: PolicyConfig, ctx: Context, c: Candidate)
    requires ValidConfig(cfg) && ctx.corridor.candidates == [c] && Feasible(cfg, ctx, c)
    ensures Chosen(cfg, ctx, 0)
  {
    BetterIsStrict(OverdueTier(cfg, ctx), RankOf(cfg, ctx, c), RankOf(cfg, ctx, c), RankOf(cfg, ctx, c));
    assert OverdueTier(cfg, ctx) ==> Overdue(cfg, ctx, c);
    assert HasAlternative(cfg, ctx) ==> c.lineId != ctx.lastReleasedLine;
  }

  // Without candidates nobody is released.
  lemma NobodyToRelease(cfg: ManagerConfig, s: State, r: string) returns (d: Decision)
    requires ValidManagerConfig(cfg) && GoodLines(s) && r in s.corridors && s.corridors[r].candidates == []
    ensures PlanResult(cfg, s, r, 1, 1, d) && d.action != Release
  {
    var c := s.corridors[r];
    if Blocked(s, r) {
      var o :| Opposing(s, r, o);
      d := MakeDecision(NoAction, c,
                        if s.corridors[o].occupancy > 0 then OpposingDirectionOccupied else OpposingDirectionPending);
    } else {
      var ctx := PlanContext(s, r, 1, 1);
      assert ctx.corridor.candidates == [];
      d := if Open(cfg.policy, ctx) then MakeDecision(NoAction, ctx.corridor, NoFeasibleCandidate)
           else MakeDecision(Closure(cfg.policy, ctx).0, ctx.corridor, Closure(cfg.policy, ctx).1);
    }
  }

  // What the release of a train without a command or passage makes of the rows.
  lemma FirstRow(m: Moment, deed: Deed)
    requires deed.Issue? && deed.decision.action == Release && !HasCommand(m.live, deed.decision.trainId)
    ensures LiveAfter(m, deed) == m.live + [Row(deed.command, false)]
    ensures StrayAfter(m, deed) == m.stray && UnfiledAfter(m, deed) == m.unfiled
  {
  }

  // The train waiting for a ready resource is released.
  lemma ReleaseNext(cfg: ManagerConfig, m: Moment, id: string, train: string, ids: seq<string>)
    returns (next: Moment, d: Decision)
    requires ValidManagerConfig(cfg) && Ready(m.state, id) && Waits(m.state, id, train, ids)
    requires train != "" && Reservable(m.state.book, ids, 1) && !HasCommand(m.live, train)
    ensures DeedAt(cfg, 1, m, Releasing(id, d), next)
    ensures d.action == Release && d.trainId == train && d.resourceId == On(id) && d.movementIds == ids
    ensures next == Moment(Planned(m.state, On(id), 1, d), m.live + [Row(CommandOf(d), false)], m.stray, m.unfiled)
  {
    d := ReleaseTheTrain(cfg, m.state, id, train, ids);
    FirstRow(m, Releasing(id, d));
    next := Moment(Planned(m.state, On(id), 1, d), m.live + [Row(CommandOf(d), false)], m.stray, m.unfiled);
  }

  // A train is offered at a ready resource and released.
  lemma OfferAndRelease(cfg: ManagerConfig, m: Moment, id: string, train: string, ids: seq<string>)
    returns (offered: Moment, released: Moment, d: Decision)
    requires ValidManagerConfig(cfg) && Ready(m.state, id) && train != "" && !HasCommand(m.live, train)
    requires Reservable(m.state.book, ids, 1)
    ensures DeedAt(cfg, 1, m, Offering(id, train, ids), offered) && DeedAt(cfg, 1, offered, Releasing(id, d), released)
    ensures d.action == Release && d.trainId == train && d.resourceId == On(id) && d.movementIds == ids
    ensures offered == Moment(Offer(m.state, id, train, ids), m.live, m.stray, m.unfiled) && Ready(offered.state, id)
    ensures released == Moment(Planned(offered.state, On(id), 1, d), m.live + [Row(CommandOf(d), false)], m.stray, m.unfiled)
  {
    OfferKeepsReady(m.state, id, train, ids);
    offered := Moment(Offer(m.state, id, train, ids), m.live, m.stray, m.unfiled);
    released, d := ReleaseNext(cfg, offered, id, train, ids);
  }

  lemma TwoDeeds(
    cfg: ManagerConfig, topology: Topology, moments: seq<Moment>, deeds: seq<Deed>, first: Deed, second: Deed,
    m: Moment, n: Moment)
    returns (ms: seq<Moment>, ds: seq<Deed>)
    requires ValidManagerConfig(cfg) && topology.revision == 1 && Life(cfg, topology, 1, moments, deeds)
    requires DeedAt(cfg, 1, moments[|deeds|], first, m) && DeedAt(cfg, 1, m, second, n)
    ensures Life(cfg, topology, 1, ms, ds) && ms == moments + [m, n] && ds == deeds + [first, second]
  {
    LifeGrows(cfg, topology, 1, moments, deeds, first, m);
    LifeGrows(cfg, topology, 1, moments + [m], deeds + [first], second, n);
    ms, ds := moments + [m] + [n], deeds + [first] + [second];
  }

  // A life goes on with a train that is offered and released.
  lemma ReleaseInLife(
    cfg: ManagerConfig, topology: Topology, front: seq<Moment>, past: seq<Deed>, id: string, train: string,
    ids: seq<string>)
    returns (moments: seq<Moment>, deeds: seq<Deed>, d: Decision)
    requires ValidManagerConfig(cfg) && topology.revision == 1 && Life(cfg, topology, 1, front, past)
    requires var m := front[|past|];
      && Ready(m.state, id) && train != "" && !HasCommand(m.live, train) && Reservable(m.state.book, ids, 1)
    ensures Life(cfg, topology, 1, moments, deeds) && |deeds| == |past| + 2
    ensures deeds == past + [Offering(id, train, ids), Releasing(id, d)]
    ensures forall i | 0 <= i <= |past| :: moments[i] == front[i]
    ensures d.action == Release && d.trainId == train && d.resourceId == On(id) && d.movementIds == ids
    ensures var m, next := front[|past|], moments[|past| + 2];
      next.live == m.live + [Row(CommandOf(d), false)] && next.stray == m.stray && next.unfiled == m.unfiled
  {
    var offered, released;
    offered, released, d := OfferAndRelease(cfg, front[|past|], id, train, ids);
    moments, deeds := TwoDeeds(
      cfg, topology, front, past, Offering(id, train, ids), Releasing(id, d), offered, released);
  }

  // Withdrawing the release makes the resource ready again.
  lemma WithdrawalKeepsReady(s: State, id: string, d: Decision)
    requires Ready(s, id) && d.action == Release
    ensures var t := Planned(s, On(id), 1, d); GoodLines(t) && Ready(PendingCancelled(t, On(id)), id)
  {
    Cycle.PlannedKeepsLines(s, On(id), 1, d);
    var t := PendingCancelled(Planned(s, On(id), 1, d), On(id));
    forall o | Opposing(t, On(id), o) ensures Opposing(s, On(id), o) {
    }
  }

  // The released train vanishes from the telemetry.
  lemma TrainVanishes(cfg: ManagerConfig, offered: State, m: Moment, id: string, d: Decision) returns (next: Moment)
    requires ValidManagerConfig(cfg) && Ready(offered, id) && d.action == Release && d.resourceId == On(id)
    requires m.state == Planned(offered, On(id), 1, d) && m.live == [Row(CommandOf(d), false)]
    ensures DeedAt(cfg, 1, m, Stale(d.trainId), next) && Revokes(m, Stale(d.trainId))
    ensures next == Moment(PendingCancelled(m.state, On(id)), [], m.stray + m.live, m.unfiled)
    ensures Ready(next.state, id) && On(id) !in next.state.pending
  {
    WithdrawalKeepsReady(offered, id, d);
    assert CommandRow(m.live, d.trainId) == 0;
    assert LiveAfter(m, Stale(d.trainId)) == [];
    next := Moment(PendingCancelled(m.state, On(id)), [], m.stray + m.live, m.unfiled);
  }

  // What the release does to the manager.
  lemma ReleasedState(s: State, id: string, train: string, ids: seq<string>, d: Decision)
    requires Ready(s, id) && d.action == Release && d.trainId == train && d.movementIds == ids
    ensures var t := Planned(Offer(s, id, train, ids), On(id), 1, d);
      && GoodLines(t) && On(id) in t.pending && t.pending[On(id)] == d && t.book == Reserved(s.book, train, ids, 1)
      && t.pending.Keys == s.pending.Keys + {On(id)}
  {
    OfferKeepsReady(s, id, train, ids);
    Cycle.PlannedKeepsLines(Offer(s, id, train, ids), On(id), 1, d);
    ReleaseParts(Offer(s, id, train, ids), On(id), 1, d);
  }

  // The release on one corridor leaves the other ready.
  lemma ReleaseElsewhere(s: State, at: string, id: string, train: string, ids: seq<string>, d: Decision)
    requires Ready(s, at) && Ready(s, id) && at != id && d.action == Release && d.trainId == train && d.movementIds == ids
    ensures On(at) != On(id) && Ready(Planned(Offer(s, at, train, ids), On(at), 1, d), id)
  {
    if On(at) == On(id) {
      ResourceIdDetermines(at, Forward, id, Forward);
    }
    var u := Offer(s, at, train, ids);
    ReleasedState(s, at, train, ids, d);
    OfferKeepsReady(s, at, train, ids);
    ReleaseParts(u, On(at), 1, d);
    ReadyElsewhere(s, Planned(u, On(at), 1, d), id, On(at));
  }

  /** The first two deeds of a life: train A is offered and released on corridor C. */
  lemma FirstRelease(cfg: ManagerConfig, movements: seq<Movement>, ids: seq<string>)
    returns (moments: seq<Moment>, deeds: seq<Deed>, d: Decision)
    requires ValidManagerConfig(cfg) && Reservable(Built(cfg, Tracks(movements), 1).book, ids, 1)
    ensures Life(cfg, Tracks(movements), 1, moments, deeds) && |deeds| == 2
    ensures deeds == [Offering("C", "A", ids), Releasing("C", d)]
    ensures d.action == Release && d.trainId == "A" && d.resourceId == On("C") && d.movementIds == ids
    ensures moments[2] == Moment(moments[2].state, [Row(CommandOf(d), false)], [], {})
    ensures Ready(moments[0].state, "C") && Ready(moments[0].state, "D") && Ready(moments[1].state, "C")
    ensures moments[0] == Moment(Built(cfg, Tracks(movements), 1), [], [], {})
    ensures moments[1] == Moment(Offer(moments[0].state, "C", "A", ids), [], [], {})
    ensures moments[2].state == Planned(moments[1].state, On("C"), 1, d)
  {
    BuiltReady(cfg, movements, "C");
    BuiltReady(cfg, movements, "D");
    var start := Moment(Built(cfg, Tracks(movements), 1), [], [], {});
    var offered, released;
    offered, released, d := OfferAndRelease(cfg, start, "C", "A", ids);
    moments, deeds := TwoDeeds(
      cfg, Tracks(movements), [start], [], Offering("C", "A", ids), Releasing("C", d), offered, released);
  }

  /** The first three: and vanishes. */
  lemma FirstVanishes(cfg: ManagerConfig) returns (moments: seq<Moment>, deeds: seq<Deed>, a: Decision)
    requires ValidManagerConfig(cfg)
    ensures Life(cfg, Tracks([]), 1, moments, deeds) && |deeds| == 3
    ensures deeds[0].Refresh? && deeds[1].Issue? && deeds[2] == Stale("A") && Revokes(moments[2], deeds[2])
    ensures moments[0].live == [] && moments[1].live == []
    ensures moments[3] == Moment(moments[3].state, [], [Row(a, false)], {})
    ensures a.resourceId == On("C") && a.trainId == "A" && a.movementIds == []
    ensures Ready(moments[3].state, "C") && Ready(moments[3].state, "D")
    ensures On("C") in moments[2].state.pending && On("C") !in moments[3].state.pending
  {
    var front, past, d, gone;
    front, past, d := FirstRelease(cfg, [], []);
    gone := TrainVanishes(cfg, front[1].state, front[2], "C", d);
    ReleasedState(front[0].state, "C", "A", [], d);
    VanishedElsewhere(front[0].state, d);
    LifeGrows(cfg, Tracks([]), 1, front, past, Stale("A"), gone);
    moments, deeds, a := front + [gone], past + [Stale("A")], CommandOf(d);
  }

  lemma VanishedElsewhere(s: State, d: Decision)
    requires Ready(s, "C") && Ready(s, "D") && d.action == Release && d.trainId == "A" && d.movementIds == []
    ensures Ready(PendingCancelled(Planned(Offer(s, "C", "A", []), On("C"), 1, d), On("C")), "D")
  {
    var u := Planned(Offer(s, "C", "A", []), On("C"), 1, d);
    ReleaseElsewhere(s, "C", "D", "A", [], d);
    ReleasedState(s, "C", "A", [], d);
    OfferKeepsReady(s, "C", "A", []);
    assert u.corridors[On("C")].corridorId == "C";
    ReadyElsewhere(u, PendingCancelled(u, On("C")), "D", On("C"));
  }
}
