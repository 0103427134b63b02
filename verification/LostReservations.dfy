/** A train that is inside a corridor reappears after a gap, is released on another corridor,
    and the cycle cannot be stored: withdrawing it takes the train's passage with it. */
module LostReservations {
  import opened Basics
  import opened Reservations
  import opened Policy
  import opened DispatchSpec
  import opened DispatchManagers
  import opened DispatchRuns
  import opened Restart
  import opened Lifecycle
  import opened Setup
  import opened Cycle
  import opened LiveRows
  import opened Lives
  import opened TwoCorridors
  import opened CrossingLife
  import opened ServiceLife
  import R = ReservationRuns

  const Four := [ResourceId("C", Forward), ResourceId("C", Reverse), ResourceId("D", Forward), ResourceId("D", Reverse)]

  lemma FourDiffer()
    ensures forall i, j | 0 <= i < j < 4 :: Four[i] != Four[j]
  {
    forall i, j | 0 <= i < j < 4 ensures Four[i] != Four[j] {
      var p, d := if i < 2 then "C" else "D", if i % 2 == 0 then Forward else Reverse;
      var q, e := if j < 2 then "C" else "D", if j % 2 == 0 then Forward else Reverse;
      if Four[i] == Four[j] {
        ResourceIdDetermines(p, d, q, e);
      }
    }
  }

  lemma FourResources()
    ensures Resources(Crossing().shared) == Four
  {
    var shared := Crossing().shared;
    assert shared[..1] == [Shared("C", ["L"])] && shared[..1][..0] == [];
    assert Resources(shared[..1]) == Four[..2];
  }

  lemma FourBuilt(cfg: ManagerConfig)
    requires ValidManagerConfig(cfg)
    ensures forall i | 0 <= i < 4 :: Four[i] in Built(cfg, Crossing(), 1).corridors
  {
    BuiltFromTopology(cfg, Crossing(), 1);
    var shared := Crossing().shared;
    assert shared[..1] == [Shared("C", ["L"])];
    assert Setup.Pairs(shared[..1]) == {("C", Forward), ("C", Reverse)};
    assert ("C", Forward) in Setup.Pairs(shared) && ("C", Reverse) in Setup.Pairs(shared);
    assert ("D", Forward) in Setup.Pairs(shared) && ("D", Reverse) in Setup.Pairs(shared);
  }

  // Only the forward direction of D has a candidate.
  function Reappeared(): map<string, seq<Candidate>> {
    map[On("D") := [WaitingTrain("D", "A", [])]]
  }

  // Four resources of which the third is the forward direction of D.
  ghost predicate ThirdIsD(rs: seq<string>) {
    && |rs| == 4 && rs[2] == On("D")
    && forall i, j | 0 <= i < j < 4 :: rs[i] != rs[j]
  }

  // The train is the only candidate anywhere.
  ghost predicate OnlyAtD(s: State, rs: seq<string>) {
    && |rs| == 4 && (forall i | 0 <= i < 4 :: rs[i] in s.corridors)
    && (forall i | 0 <= i < 4 && i != 2 :: s.corridors[rs[i]].candidates == [])
    && Ready(s, "D") && Waits(s, "D", "A", [])
  }

  lemma ReplacedKeepsReady(s: State, r: string, cs: seq<Candidate>)
    requires Ready(s, "D")
    ensures Ready(Replaced(s, r, cs, 1), "D")
  {
    forall o | Opposing(Replaced(s, r, cs, 1), On("D"), o) ensures Opposing(s, On("D"), o) {
    }
  }

  // What offering the first `n` resources leaves at each.
  lemma {:induction false} OfferedUpTo(s: State, rs: seq<string>, n: nat)
    requires ThirdIsD(rs) && Ready(s, "D") && n <= 4 && forall i | 0 <= i < 4 :: rs[i] in s.corridors
    ensures var t := Cycle.Offered(s, rs[..n], Reappeared(), 1);
      && Ready(t, "D") && t.book == s.book && t.corridors.Keys == s.corridors.Keys
      && forall i | 0 <= i < n :: OffersAt(t, rs[i])
  {
    if n > 0 {
      OfferedUpTo(s, rs, n - 1);
      assert rs[..n][..n - 1] == rs[..n - 1];
      var t := Cycle.Offered(s, rs[..n - 1], Reappeared(), 1);
      ReplacedKeepsReady(t, rs[n - 1], ListFor(Reappeared(), rs[n - 1]));
      assert forall i | 0 <= i < n - 1 :: rs[i] != rs[n - 1];
    }
  }

  predicate OffersAt(t: State, r: string) {
    r in t.corridors && t.corridors[r].candidates == ListFor(Reappeared(), r) && t.corridors[r].receivedWall == 1
  }

  lemma OfferedAtD(s: State, rs: seq<string>)
    requires ThirdIsD(rs) && Ready(s, "D") && forall i | 0 <= i < 4 :: rs[i] in s.corridors
    ensures OnlyAtD(Cycle.Offered(s, rs, Reappeared(), 1), rs) && Cycle.Offered(s, rs, Reappeared(), 1).book == s.book
  {
    OfferedUpTo(s, rs, 4);
    assert rs[..4] == rs;
    var t := Cycle.Offered(s, rs, Reappeared(), 1);
    forall i | 0 <= i < 4 && i != 2 ensures t.corridors[rs[i]].candidates == [] {
      assert OffersAt(t, rs[i]) && rs[i] != rs[2];
    }
    assert OffersAt(t, rs[2]);
  }

  // Planning a resource without candidates changes nothing that matters to D.
  lemma QuietPlan(cfg: ManagerConfig, s: State, r: string) returns (d: Decision)
    requires ValidManagerConfig(cfg) && r != On("D") && GoodLines(s) && r in s.corridors
    requires s.corridors[r].candidates == []
    ensures PlanResult(cfg, s, r, 1, 1, d) && d.action != Release
    ensures var t := Planned(s, r, 1, d); t.corridors == s.corridors && t.book == s.book && GoodLines(t)
    ensures Ready(s, "D") ==> Ready(Planned(s, r, 1, d), "D")
  {
    d := NobodyToRelease(cfg, s, r);
    PlannedKeepsLines(s, r, 1, d);
    if Ready(s, "D") {
      QuietKeepsReady(s, r, d);
    }
  }

  lemma QuietKeepsReady(s: State, r: string, d: Decision)
    requires Ready(s, "D") && r != On("D") && r in s.corridors && d.action != Release
    requires GoodLines(Planned(s, r, 1, d))
    ensures Ready(Planned(s, r, 1, d), "D")
  {
    var t := Planned(s, r, 1, d);
    assert LinesAt(t, On("D")) == LinesAt(s, On("D"));
    forall o | Opposing(t, On("D"), o) ensures Opposing(s, On("D"), o) {
    }
  }

  // `es` are decisions for the first `n` resources, which lead from `s` to `u`.
  ghost predicate PlannedFirst(cfg: ManagerConfig, s: State, rs: seq<string>, n: nat, es: seq<Decision>, u: State)
    requires ValidManagerConfig(cfg)
  {
    && GoodLines(s) && GoodLines(u) && n <= |rs| && |es| == n
    && AllPlanned(cfg, s, rs[..n], 1, 1, es) && u == PlannedAll(s, rs[..n], 1, es)
  }

  lemma PlannedOneMore(
    cfg: ManagerConfig, s: State, rs: seq<string>, n: nat, es: seq<Decision>, u: State, d: Decision)
    requires ValidManagerConfig(cfg) && PlannedFirst(cfg, s, rs, n, es, u) && n < |rs|
    requires PlanResult(cfg, u, rs[n], 1, 1, d)
    ensures PlannedFirst(cfg, s, rs, n + 1, es + [d], Planned(u, rs[n], 1, d))
  {
    PlannedKeepsLines(u, rs[n], 1, d);
    PlannedNext(cfg, s, rs[..n], 1, 1, es, rs[n], d);
    assert rs[..n + 1] == rs[..n] + [rs[n]];
  }

  lemma PlannedNone(cfg: ManagerConfig, s: State, rs: seq<string>)
    requires ValidManagerConfig(cfg) && GoodLines(s)
    ensures PlannedFirst(cfg, s, rs, 0, [], s)
  {
  }

  // Nothing is released at the two resources before D.
  lemma TwoPlanned(cfg: ManagerConfig, s: State, rs: seq<string>) returns (es: seq<Decision>, u: State)
    requires ValidManagerConfig(cfg) && ThirdIsD(rs) && OnlyAtD(s, rs)
    ensures PlannedFirst(cfg, s, rs, 2, es, u) && OnlyAtD(u, rs)
    ensures es[0].action != Release && es[1].action != Release
  {
    var a := QuietPlan(cfg, s, rs[0]);
    var t := Planned(s, rs[0], 1, a);
    var b := QuietPlan(cfg, t, rs[1]);
    u := Planned(t, rs[1], 1, b);
    PlannedNone(cfg, s, rs);
    PlannedOneMore(cfg, s, rs, 0, [], s, a);
    PlannedOneMore(cfg, s, rs, 1, [] + [a], t, b);
    es := [] + [a] + [b];
  }

  lemma ReservableNothing(b: Book)
    ensures Reservable(b, [], 1)
  {
  }

  // Then the train is released at D.
  lemma ThreePlanned(cfg: ManagerConfig, s: State, rs: seq<string>) returns (es: seq<Decision>, v: State)
    requires ValidManagerConfig(cfg) && ThirdIsD(rs) && OnlyAtD(s, rs)
    ensures PlannedFirst(cfg, s, rs, 3, es, v) && rs[3] in v.corridors && v.corridors[rs[3]].candidates == []
    ensures es[0].action != Release && es[1].action != Release && es[2].action == Release && es[2].trainId == "A"
  {
    var front, u := TwoPlanned(cfg, s, rs);
    var c := ReleasedAtD(cfg, u, rs);
    PlannedOneMore(cfg, s, rs, 2, front, u, c);
    es, v := front + [c], Planned(u, rs[2], 1, c);
  }

  lemma ReleasedAtD(cfg: ManagerConfig, u: State, rs: seq<string>) returns (c: Decision)
    requires ValidManagerConfig(cfg) && ThirdIsD(rs) && OnlyAtD(u, rs)
    ensures PlanResult(cfg, u, rs[2], 1, 1, c) && c.action == Release && c.trainId == "A"
    ensures var v := Planned(u, rs[2], 1, c); rs[3] in v.corridors && v.corridors[rs[3]].candidates == []
  {
    ReservableNothing(u.book);
    c := ReleaseTheTrain(cfg, u, "D", "A", []);
    ReleaseParts(u, rs[2], 1, c);
    assert rs[3] != rs[2];
  }

  // The cycle's decisions: only the train at D is released.
  lemma FourPlanned(cfg: ManagerConfig, s: State, rs: seq<string>) returns (ds: seq<Decision>)
    requires ValidManagerConfig(cfg) && ThirdIsD(rs) && OnlyAtD(s, rs)
    ensures |ds| == 4 && AllPlanned(cfg, s, rs, 1, 1, ds)
    ensures ds[0].action != Release && ds[1].action != Release && ds[3].action != Release
    ensures ds[2].action == Release && ds[2].trainId == "A"
  {
    var front, v := ThreePlanned(cfg, s, rs);
    assert rs[3] != rs[2];
    var d := LastPlanned(cfg, s, rs, front, v);
    ds := front + [d];
  }

  lemma LastPlanned(cfg: ManagerConfig, s: State, rs: seq<string>, front: seq<Decision>, v: State)
    returns (d: Decision)
    requires ValidManagerConfig(cfg) && |rs| == 4 && rs[3] != On("D") && PlannedFirst(cfg, s, rs, 3, front, v)
    requires rs[3] in v.corridors && v.corridors[rs[3]].candidates == []
    ensures AllPlanned(cfg, s, rs, 1, 1, front + [d]) && d.action != Release
  {
    d := QuietPlan(cfg, v, rs[3]);
    PlannedOneMore(cfg, s, rs, 3, front, v, d);
    PlannedWhole(cfg, s, rs, front + [d], Planned(v, rs[3], 1, d));
  }

  lemma PlannedWhole(cfg: ManagerConfig, s: State, rs: seq<string>, es: seq<Decision>, u: State)
    requires ValidManagerConfig(cfg) && PlannedFirst(cfg, s, rs, |rs|, es, u)
    ensures AllPlanned(cfg, s, rs, 1, 1, es)
  {
    assert rs[..|rs|] == rs;
  }

  /** Train A is inside C and holds the crossing.  It has no command any more, so its release
      on D gets one; when that cycle cannot be stored, everything it holds is freed, although
      every release had got its command and the row of its passage stays accepted. */
  lemma FailedStoreDropsPassage(cfg: ManagerConfig, first: nat)
    returns (moments: seq<Moment>, deeds: seq<Deed>, ds: seq<Decision>)
    requires ValidManagerConfig(cfg)
    ensures Life(cfg, Crossing(), 1, moments, deeds)
    ensures var m, rs := moments[|deeds|], Resources(Crossing().shared);
      && |m.live| == 1 && m.live[0].accepted && m.live[0].decision.trainId == "A" && m.live[0].decision.movementIds == ["M"]
      && HoldsAt(m.state.book, "I", "A")
      && GoodLines(m.state) && |ds| == |rs| && AllPlanned(cfg, m.state, rs, 1, 1, ds) && EachIssued(map[], ds)
      && var after := CancelledAll(PlannedAll(m.state, rs, 1, ds), Issued(map[], ds, first, 1, 1));
         R.HoldsNothing(after.book, "A") && !Restored(m.state, after)
  {
    FourResources();
    moments, deeds := BeforeCycle(cfg);
    ds := FourPlanned(cfg, moments[|deeds|].state, Four);
    OneReleaseLost(cfg, moments[|deeds|].state, Four, ds, first);
  }

  lemma OneReleaseLost(cfg: ManagerConfig, s: State, rs: seq<string>, ds: seq<Decision>, first: nat)
    requires ValidManagerConfig(cfg) && Safe(s) && |ds| == |rs| == 4 && AllPlanned(cfg, s, rs, 1, 1, ds)
    requires ds[0].action != Release && ds[1].action != Release && ds[3].action != Release
    requires ds[2].action == Release && ds[2].trainId == "A" && !R.HoldsNothing(s.book, "A")
    ensures EachIssued(map[], ds)
    ensures var after := CancelledAll(PlannedAll(s, rs, 1, ds), Issued(map[], ds, first, 1, 1));
      R.HoldsNothing(after.book, "A") && !Restored(s, after)
  {
    OneReleaseIssued(ds);
    WithdrawalFrees(cfg, s, rs, 1, 1, ds, map[], first, 1, 2);
    WithdrawalUndoesPlanningIff(cfg, s, rs, 1, 1, ds, map[], first, 1);
    assert !ReleasesHoldNothing(s.book, ds);
  }

  lemma OneReleaseIssued(ds: seq<Decision>)
    requires |ds| == 4 && ds[0].action != Release && ds[1].action != Release && ds[3].action != Release
    ensures EachIssued(map[], ds)
  {
    assert forall i | 0 <= i < 4 && ds[i].action == Release :: i == 2;
  }

  lemma BeforeCycle(cfg: ManagerConfig) returns (moments: seq<Moment>, deeds: seq<Deed>)
    requires ValidManagerConfig(cfg)
    ensures Life(cfg, Crossing(), 1, moments, deeds) && Safe(moments[|deeds|].state)
    ensures var m := moments[|deeds|];
      && |m.live| == 1 && m.live[0].accepted && m.live[0].decision.trainId == "A" && m.live[0].decision.movementIds == ["M"]
      && HoldsAt(m.state.book, "I", "A") && !R.HoldsNothing(m.state.book, "A")
      && ThirdIsD(Four) && OnlyAtD(m.state, Four)
  {
    var front, past, d := FirstEntry(cfg);
    var was := front[3];
    InsideBeforeCycle(cfg, front, past);
    FourDiffer();
    OfferedAtD(was.state, Four);
    HeldByA(cfg.defaultClearance);
    moments, deeds := OffersAreDeeds(cfg, Crossing(), 1, front, past, Four, Reappeared(), 1);
    AlwaysFollowed(cfg, Crossing(), 1, moments, deeds, |deeds|, 1);
  }

  lemma InsideBeforeCycle(cfg: ManagerConfig, moments: seq<Moment>, deeds: seq<Deed>)
    requires ValidManagerConfig(cfg) && Life(cfg, Crossing(), 1, moments, deeds)
    ensures forall i | 0 <= i < 4 :: Four[i] in moments[|deeds|].state.corridors
  {
    AlwaysFollowed(cfg, Crossing(), 1, moments, deeds, |deeds|, 1);
    FourBuilt(cfg);
  }

  lemma HeldByA(clearance: nat)
    ensures HoldsAt(AtCrossing(clearance, Held), "I", "A") && !R.HoldsNothing(AtCrossing(clearance, Held), "A")
  {
    assert "M" in HeldBy(Held.active, "A");
  }
}
