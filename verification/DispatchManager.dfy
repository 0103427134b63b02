/** The dispatch manager object.  Every method performs one step of the transition system
    in DispatchSpec; the ghost fields record the run that led to the current state. */
module DispatchManagers {
  import opened Basics
  import opened Reservations
  import opened Policy
  import opened DispatchSpec

  class DispatchManager {
    const cfg: ManagerConfig
    const reservations: IntersectionReservationManager
    var corridors: map<string, Corridor>
    var lines: map<string, map<string, LineState>>
    var lastLine: map<string, string>
    var consecutive: map<string, nat>
    var pending: map<string, Decision>
    ghost var states: seq<State>
    ghost var labels: seq<Label>

    ghost function View(): State
      reads this, reservations
    {
      State(corridors, lines, lastLine, consecutive, pending, reservations.View())
    }

    ghost predicate Valid()
      reads this, reservations
    {
      && ValidManagerConfig(cfg)
      && IsRun(cfg, states, labels) && states[|labels|] == View()
      && Structural(View()) && reservations.Valid()
    }

    constructor (cfg: ManagerConfig)
      requires ValidManagerConfig(cfg)
      ensures Valid() && fresh(reservations) && this.cfg == cfg
      ensures View() == EmptyState(cfg) && labels == []
    {
      this.cfg := cfg;
      reservations := new IntersectionReservationManager(cfg.defaultClearance);
      corridors, lines, lastLine, consecutive, pending := map[], map[], map[], map[], map[];
      states, labels := [EmptyState(cfg)], [];
    }

    // The source's constructor throws on a bad configuration.
    static method Create(cfg: ManagerConfig) returns (manager: Option<DispatchManager>)
      ensures manager.Some? <==> ValidManagerConfig(cfg)
      ensures manager.Some? ==> manager.value.Valid() && manager.value.View() == EmptyState(cfg)
      ensures manager.Some? ==> fresh(manager.value) && fresh(manager.value.reservations) && manager.value.cfg == cfg
    {
      if cfg.defaultClearance == 0 || cfg.defaultCapacity == 0 ||
         cfg.policy.defaultMinimumHeadway == 0 || cfg.policy.maximumWait == 0 {
        return None;
      }
      var m := new DispatchManager(cfg);
      return Some(m);
    }

    // Appends the step just taken to the recorded run.
    ghost method Record(l: Label)
      requires ValidManagerConfig(cfg) && IsRun(cfg, states, labels)
      requires Structural(states[|labels|]) && Step(cfg, states[|labels|], l, View())
      requires reservations.Valid()
      modifies this`states, this`labels
      ensures Valid() && labels == old(labels) + [l]
    {
      StepKeepsStructural(cfg, states[|labels|], l, View());
      RunGrows(cfg, states, labels, View(), l);
      states := states + [View()];
      labels := labels + [l];
    }

    method RegisterIntersectionMovement(m: Movement) returns (ok: bool)
      requires Valid()
      modifies this, reservations
      ensures Valid() && labels == old(labels) + [RegisterMovement(m)]
      ensures View() == Next(cfg, old(View()), RegisterMovement(m)) && ok == WellNamed(m)
    {
      ok := reservations.RegisterMovement(m);
      Record(RegisterMovement(m));
    }

    method UpsertCorridor(corridor: Corridor)
      requires Valid()
      modifies this
      ensures Valid() && labels == old(labels) + [Upsert(corridor)]
      ensures View() == Upserted(cfg, old(View()), corridor)
    {
      if corridor.resourceId != "" {
        var updated := corridor;
        if corridor.resourceId in corridors {
          var existing := corridors[corridor.resourceId];
          updated := updated.(commandPending := existing.commandPending,
                              lastEntry := Max(updated.lastEntry, existing.lastEntry));
        }
        if updated.minimumHeadway == 0 {
          updated := updated.(minimumHeadway := cfg.policy.defaultMinimumHeadway);
        }
        if updated.capacity == 0 {
          updated := updated.(capacity := cfg.defaultCapacity);
        }
        corridors := corridors[corridor.resourceId := updated];
      }
      Record(Upsert(corridor));
    }

    method UpsertLineState(resource: string, line: string, lineState: LineState)
      requires Valid()
      modifies this
      ensures Valid() && labels == old(labels) + [SetLine(resource, line, lineState)]
      ensures View() == LineWasSet(old(View()), resource, line, lineState)
    {
      if resource != "" && line != "" && lineState.targetHeadway != 0 {
        var here := if resource in lines then lines[resource] else map[];
        lines := lines[resource := here[line := lineState]];
      }
      Record(SetLine(resource, line, lineState));
    }

    method ReplaceCandidates(resource: string, candidates: seq<Candidate>, wallNow: nat) returns (ok: bool)
      requires Valid()
      modifies this
      ensures Valid() && labels == old(labels) + [Replace(resource, candidates, wallNow)]
      ensures View() == Replaced(old(View()), resource, candidates, wallNow)
      ensures ok == (resource in old(corridors))
    {
      ok := resource in corridors;
      if ok {
        corridors := corridors[resource := corridors[resource].(candidates := candidates, receivedWall := wallNow)];
      }
      Record(Replace(resource, candidates, wallNow));
    }

    // Some other direction of the same corridor that is occupied or pending, if any.
    method FindOpposing(resource: string) returns (opposing: Option<string>)
      requires resource in corridors
      ensures opposing.Some? <==> Blocked(View(), resource)
      ensures opposing.Some? ==> Opposing(View(), resource, opposing.value)
    {
      var left := corridors.Keys;
      while left != {}
        invariant left <= corridors.Keys
        invariant forall o <- corridors :: o !in left ==> !Opposing(View(), resource, o)
      {
        var o :| o in left;
        left := left - {o};
        if o != resource && corridors[o].corridorId == corridors[resource].corridorId &&
           (corridors[o].occupancy > 0 || corridors[o].commandPending) {
          assert Opposing(View(), resource, o);
          return Some(o);
        }
      }
      return None;
    }

    // Accrues fairness credit for every line of the resource.
    method UpdateFairnessCredits(resource: string, now: nat)
      requires GoodLines(View())
      modifies this`lines
      ensures lines == if resource in old(lines)
        then old(lines)[resource := CreditAll(old(lines)[resource], now)] else old(lines)
    {
      if resource !in lines {
        return;
      }
      ghost var before := lines;
      var here := lines[resource];
      ghost var start := here;
      var left := here.Keys;
      while left != {}
        invariant left <= start.Keys && here.Keys == start.Keys && lines == before
        invariant PositiveTargets(start)
        invariant forall l <- start :: here[l] == if l in left then start[l] else CreditLine(start[l], now)
      {
        var l :| l in left;
        here := here[l := CreditLine(here[l], now)];
        left := left - {l};
      }
      assert here == CreditAll(start, now);
      lines := lines[resource := here];
    }

    // The candidates whose movements can all be reserved, and the last refusal seen.
    method FilterCandidates(cs: seq<Candidate>, now: nat) returns (kept: seq<Candidate>, refusal: Refusal)
      requires reservations.Valid()
      ensures kept == Admitted(reservations.View(), cs, now)
      ensures cs != [] && kept == [] ==>
        Explains(reservations.View(), cs[|cs| - 1].movementIds, now, refusal)
    {
      kept, refusal := [], NoRefusal;
      for i := 0 to |cs|
        invariant kept == Admitted(reservations.View(), cs[..i], now)
        invariant i > 0 && kept == [] ==>
          Explains(reservations.View(), cs[i - 1].movementIds, now, refusal)
      {
        assert cs[..i + 1][..i] == cs[..i];
        var why := reservations.CanReserve(cs[i].movementIds, now);
        if why.NoRefusal? {
          kept := kept + [cs[i]];
        } else {
          refusal := why;
        }
      }
      assert cs[..|cs|] == cs;
    }

    method PlanNext(resource: string, simulationNow: nat, wallNow: nat) returns (decision: Decision)
      requires Valid()
      modifies this, reservations
      ensures Valid() && labels == old(labels) + [Plan(resource, simulationNow, wallNow, decision)]
      ensures PlanResult(cfg, old(View()), resource, simulationNow, wallNow, decision)
      ensures View() == Planned(old(View()), resource, simulationNow, decision)
    {
      ghost var s := View();
      decision := Choose(resource, simulationNow, wallNow);
      if decision.action == Release {
        PlannedReleaseIsReservable(cfg, s, resource, simulationNow, wallNow, decision);
        Commit(resource, simulationNow, decision);
      }
      assert View() == Planned(s, resource, simulationNow, decision);
      Record(Plan(resource, simulationNow, wallNow, decision));
    }

    // Reserves the released train's movements and marks the command pending.
    method Commit(resource: string, now: nat, decision: Decision)
      requires reservations.Valid() && resource in corridors
      requires decision.trainId != "" && Reservable(View().book, decision.movementIds, now)
      modifies this`corridors, this`pending, reservations
      ensures reservations.Valid()
      ensures View() == var t := old(View());
        t.(corridors := t.corridors[resource := t.corridors[resource].(commandPending := true)],
           pending := t.pending[resource := decision],
           book := Reserved(t.book, decision.trainId, decision.movementIds, now))
    {
      var why := reservations.TryReserveAtomically(decision.trainId, decision.movementIds, now);
      if !why.NoRefusal? {
        // The source's reservation-failed result: the check just made still holds.
        assert false;
      }
      corridors := corridors[resource := corridors[resource].(commandPending := true)];
      pending := pending[resource := decision];
    }

    // Accrues credits and creates the history entries that indexing creates.
    method Touch(resource: string, now: nat)
      requires GoodLines(View())
      modifies this`lines, this`lastLine, this`consecutive
      ensures View() == Touched(old(View()), resource, now)
    {
      UpdateFairnessCredits(resource, now);
      if resource !in lines {
        lines := lines[resource := map[]];
        assert CreditAll(map[], now) == map[];
      }
      if resource !in lastLine {
        lastLine := lastLine[resource := ""];
      }
      if resource !in consecutive {
        consecutive := consecutive[resource := 0];
      }
    }

    // The deciding half of PlanNext: accrues credits and picks a decision.
    method Choose(resource: string, simulationNow: nat, wallNow: nat) returns (decision: Decision)
      requires Valid()
      modifies this`lines, this`lastLine, this`consecutive
      ensures PlanResult(cfg, old(View()), resource, simulationNow, wallNow, decision)
      ensures View() == if resource in corridors then Touched(old(View()), resource, simulationNow) else old(View())
    {
      ghost var s := View();
      if resource !in corridors {
        return UnknownDecision;
      }
      Touch(resource, simulationNow);
      var c := corridors[resource];
      var opposing := FindOpposing(resource);
      SameOpposing(s, View(), resource);
      if opposing.Some? {
        var o := corridors[opposing.value];
        decision := MakeDecision(if c.candidates == [] then NoAction else HoldAll, c,
                                 if o.occupancy > 0 then OpposingDirectionOccupied else OpposingDirectionPending);
        assert Opposing(s, resource, opposing.value);
        return;
      }
      var kept, refusal := FilterCandidates(c.candidates, simulationNow);
      if c.candidates != [] && kept == [] {
        return MakeDecision(HoldAll, c, IntersectionRefused(refusal));
      }
      var ctx := Context(c.(candidates := kept), lines[resource], lastLine[resource], consecutive[resource],
                         simulationNow, wallNow);
      assert ctx == PlanContext(s, resource, simulationNow, wallNow);
      decision := Decide(cfg.policy, ctx);
    }

    // Charges one release to the line.
    method ChargeLine(resource: string, line: string, now: nat)
      modifies this`lines
      ensures var here := LinesAt(old(View()), resource);
        var l := if line in here then here[line] else DefaultLine;
        lines == old(lines)[resource := here[line :=
          l.(lastRelease := now, lastCreditUpdate := now, credit := MaxReal(0.0, l.credit - 1.0))]]
    {
      var here := if resource in lines then lines[resource] else map[];
      var l := if line in here then here[line] else DefaultLine;
      l := l.(lastRelease := now, lastCreditUpdate := now, credit := MaxReal(0.0, l.credit - 1.0));
      lines := lines[resource := here[line := l]];
    }

    method CountRelease(resource: string, line: string)
      modifies this`lastLine, this`consecutive
      ensures lastLine == old(lastLine)[resource := line]
      ensures consecutive == old(consecutive)[resource :=
        if LastLineAt(old(View()), resource) == line then ConsecutiveAt(old(View()), resource) + 1 else 1]
    {
      var last := if resource in lastLine then lastLine[resource] else "";
      if last == line {
        var count := if resource in consecutive then consecutive[resource] else 0;
        consecutive := consecutive[resource := count + 1];
      } else {
        consecutive := consecutive[resource := 1];
      }
      lastLine := lastLine[resource := line];
    }

    method EnterCorridor(resource: string, train: string, now: nat)
      requires resource in corridors
      modifies this`corridors
      ensures corridors == old(corridors)[resource := Entered(old(corridors)[resource], train, now)]
    {
      var c := corridors[resource];
      var entered := c.(commandPending := false, lastEntry := now);
      if entered.occupancy < entered.capacity {
        entered := entered.(occupancy := entered.occupancy + 1);
      }
      var kept := RemoveCandidate(entered.candidates, train);
      corridors := corridors[resource := entered.(candidates := kept)];
    }

    method ConfirmEntry(resource: string, train: string, now: nat) returns (ok: bool)
      requires Valid()
      modifies this
      ensures Valid() && labels == old(labels) + [Confirm(resource, train, now)]
      ensures ok == CanConfirm(old(View()), resource, train)
      ensures View() == Confirmed(old(View()), resource, train, now)
    {
      ok := resource in pending && resource in corridors && pending[resource].trainId == train;
      if ok {
        ConfirmPending(resource, train, now);
      }
      Record(Confirm(resource, train, now));
    }

    method ConfirmPending(resource: string, train: string, now: nat)
      requires CanConfirm(View(), resource, train)
      modifies this`corridors, this`lines, this`lastLine, this`consecutive, this`pending
      ensures View() == Confirmed(old(View()), resource, train, now)
    {
      var line := pending[resource].lineId;
      EnterCorridor(resource, train, now);
      ChargeLine(resource, line, now);
      CountRelease(resource, line);
      pending := pending - {resource};
    }

    method CancelPendingCommand(resource: string) returns (ok: bool)
      requires Valid()
      modifies this, reservations
      ensures Valid() && labels == old(labels) + [CancelPending(resource)]
      ensures ok == (resource in old(pending))
      ensures View() == PendingCancelled(old(View()), resource)
    {
      ok := resource in pending;
      if ok {
        reservations.CancelTrain(pending[resource].trainId);
        if resource in corridors {
          corridors := corridors[resource := corridors[resource].(commandPending := false)];
        }
        pending := pending - {resource};
      }
      Record(CancelPending(resource));
    }

    method RestorePendingCommand(d: Decision) returns (ok: bool)
      requires Valid()
      modifies this, reservations
      ensures Valid() && labels == old(labels) + [RestorePending(d)]
      ensures ok == CanRestorePending(old(View()), d)
      ensures View() == PendingRestored(old(View()), d)
    {
      ok := d.resourceId in corridors && !corridors[d.resourceId].commandPending;
      if ok {
        var opposing := FindOpposing(d.resourceId);
        ok := opposing.None?;
        if ok {
          var why := reservations.TryReserveAtomically(d.trainId, d.movementIds, d.issuedAt);
          ok := why.NoRefusal?;
          if ok {
            corridors := corridors[d.resourceId := corridors[d.resourceId].(commandPending := true)];
            pending := pending[d.resourceId := d];
          }
        }
      }
      Record(RestorePending(d));
    }

    method RestoreActiveCommand(d: Decision) returns (ok: bool)
      requires Valid()
      modifies this, reservations
      ensures Valid() && labels == old(labels) + [RestoreActive(d)]
      ensures ok == CanRestoreActive(old(View()), d)
      ensures View() == ActiveRestored(old(View()), d)
    {
      ok := d.resourceId in corridors;
      if ok {
        var opposing := FindOpposing(d.resourceId);
        ok := opposing.None?;
        if ok {
          var why := reservations.TryReserveAtomically(d.trainId, d.movementIds, d.issuedAt);
          ok := why.NoRefusal?;
          if ok {
            var c := corridors[d.resourceId];
            if c.occupancy < c.capacity {
              c := c.(occupancy := c.occupancy + 1);
            }
            corridors := corridors[d.resourceId := c.(lastEntry := Max(c.lastEntry, d.issuedAt))];
          }
        }
      }
      Record(RestoreActive(d));
    }

    method MarkCorridorExited(resource: string) returns (ok: bool)
      requires Valid()
      modifies this
      ensures Valid() && labels == old(labels) + [Exit(resource)]
      ensures ok == CanExit(old(View()), resource)
      ensures View() == Exited(old(View()), resource)
    {
      ok := resource in corridors && corridors[resource].occupancy > 0;
      if ok {
        corridors := corridors[resource := corridors[resource].(occupancy := corridors[resource].occupancy - 1)];
      }
      Record(Exit(resource));
    }

    method MarkIntersectionCleared(ix: string, train: string, now: nat) returns (cleared: bool)
      requires Valid()
      modifies this, reservations
      ensures Valid() && labels == old(labels) + [ClearIntersection(ix, train, now)]
      ensures cleared == HoldsAt(old(View()).book, ix, train)
      ensures View() == Next(cfg, old(View()), ClearIntersection(ix, train, now))
    {
      cleared := reservations.MarkCleared(ix, train, now);
      Record(ClearIntersection(ix, train, now));
    }
  }

  lemma SameOpposing(s: State, t: State, r: string)
    requires r in s.corridors && t.corridors == s.corridors
    ensures Blocked(t, r) == Blocked(s, r)
    ensures forall o :: Opposing(t, r, o) == Opposing(s, r, o)
  {
    assert forall o :: Opposing(t, r, o) == Opposing(s, r, o);
  }

  method RemoveCandidate(cs: seq<Candidate>, train: string) returns (kept: seq<Candidate>)
    ensures kept == WithoutCandidate(cs, train)
  {
    kept := [];
    for i := 0 to |cs|
      invariant kept == WithoutCandidate(cs[..i], train)
    {
      assert cs[..i + 1][..i] == cs[..i];
      if cs[i].trainId != train {
        kept := kept + [cs[i]];
      }
    }
    assert cs[..|cs|] == cs;
  }

  lemma {:induction false} AdmittedMember(b: Book, cs: seq<Candidate>, now: nat, c: Candidate)
    ensures c in Admitted(b, cs, now) <==> c in cs && Reservable(b, c.movementIds, now)
  {
    if cs != [] {
      AdmittedMember(b, cs[..|cs| - 1], now, c);
      assert cs == cs[..|cs| - 1] + [cs[|cs| - 1]];
    }
  }

  /** What planning releases is a waiting candidate of an unblocked, open resource, and
      all its movements can be reserved at that moment. */
  lemma PlannedReleaseIsReservable(
    cfg: ManagerConfig, s: State, r: string, simulationNow: nat, wallNow: nat, d: Decision)
    requires ValidManagerConfig(cfg) && Structural(s)
    requires PlanResult(cfg, s, r, simulationNow, wallNow, d) && d.action == Release
    ensures r in s.corridors && !Blocked(s, r)
    ensures var ctx := PlanContext(s, r, simulationNow, wallNow);
      Decides(cfg.policy, ctx, d) && Open(cfg.policy, ctx) && AnyFeasible(cfg.policy, ctx)
    ensures d.trainId != "" && d.lineId != "" && d.resourceId == r
    ensures Reservable(s.book, d.movementIds, simulationNow)
    ensures exists c :: c in s.corridors[r].candidates && c.trainId == d.trainId && c.lineId == d.lineId
                        && c.movementIds == d.movementIds && 0 < c.arrivedAt <= simulationNow
  {
    var ctx := PlanContext(s, r, simulationNow, wallNow);
    var c := ReleasedCandidate(cfg.policy, ctx, d);
    AdmittedMember(s.book, s.corridors[r].candidates, simulationNow, c);
  }
}
