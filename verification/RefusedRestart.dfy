/** Lives that end in a restart which does not bring the live state back. */
module RefusedRestart {
  import opened Basics
  import opened Reservations
  import opened Policy
  import opened DispatchSpec
  import opened DispatchManagers
  import opened DispatchRuns
  import opened Restart
  import opened Lifecycle
  import opened Setup
  import opened LiveRows
  import opened Recovery
  import opened Lives
  import opened Restarts
  import opened TwoCorridors

  lemma FirstIsOrderly(moments: seq<Moment>, deeds: seq<Deed>)
    requires |moments| > |deeds| >= 3 && deeds[0].Refresh? && deeds[1].Issue? && deeds[2].Stale?
    requires moments[0].live == [] && moments[1].live == []
    ensures OrderlyTo(moments, deeds, 2) && OrderlyTo(moments, deeds, 3) && NothingRevoked(moments, deeds, 2)
  {
    assert forall k | 0 <= k < 3 :: OrderlyAt(moments, deeds, k);
  }

  /** A life in which a train is released, vanishes, and another is released on the same
      resource.  A restart right after the cleanup has the withdrawn command pending again;
      a restart at the end is refused, whatever the order of the rows. */
  lemma StaleCleanupRefusesRestart(cfg: ManagerConfig, now: nat, pending: seq<Decision>)
    returns (moments: seq<Moment>, deeds: seq<Deed>)
    requires ValidManagerConfig(cfg)
    ensures Life(cfg, Tracks([]), 1, moments, deeds) && |deeds| == 5
    ensures On("C") !in moments[3].state.pending && |moments[3].stray| == 1
    ensures multiset(RowsOf(pending, [])) == Stored(moments[3]) ==>
      && Recoverable(Built(cfg, Tracks([]), now), pending, [], 1)
      && On("C") in Replay(Built(cfg, Tracks([]), now), RowsOf(pending, [])).pending
    ensures multiset(RowsOf(pending, [])) == Stored(moments[5]) ==>
      !Recoverable(Built(cfg, Tracks([]), now), pending, [], 1)
  {
    var a, b;
    moments, deeds, a, b := VanishingLife(cfg);
    if multiset(RowsOf(pending, [])) == Stored(moments[3]) {
      FirstIsOrderly(moments, deeds);
      WithdrawnIsRevived(cfg, Tracks([]), 1, moments, deeds, 2, now, pending, []);
    }
    if multiset(RowsOf(pending, [])) == Stored(moments[5]) {
      RestartAcceptedIff(cfg, Tracks([]), 1, moments, deeds, 5, now, pending, []);
      var all := moments[5].live + moments[5].stray;
      assert !Together(Built(cfg, Tracks([]), now), all[0], all[1]);
    }
  }

  lemma VanishingLife(cfg: ManagerConfig) returns (moments: seq<Moment>, deeds: seq<Deed>, a: Decision, b: Decision)
    requires ValidManagerConfig(cfg)
    ensures Life(cfg, Tracks([]), 1, moments, deeds) && |deeds| == 5
    ensures deeds[0].Refresh? && deeds[1].Issue? && deeds[2] == Stale("A") && Revokes(moments[2], deeds[2])
    ensures moments[0].live == [] && moments[1].live == []
    ensures On("C") in moments[2].state.pending && On("C") !in moments[3].state.pending
    ensures moments[3].stray == [Row(a, false)] && moments[5].stray == [Row(a, false)]
    ensures moments[5].live == [Row(b, false)] && a.resourceId == On("C") && b.resourceId == On("C")
  {
    var front, past, d;
    front, past, a := FirstVanishes(cfg);
    moments, deeds, d := ReleaseInLife(cfg, Tracks([]), front, past, "C", "B", []);
    b := CommandOf(d);
  }

  lemma BothTracks(cfg: ManagerConfig, now: nat)
    requires ValidManagerConfig(cfg)
    ensures var f := Built(cfg, Tracks([]), now);
      && On("C") in f.corridors && On("D") in f.corridors && On("C") != On("D")
      && f.corridors[On("C")].corridorId == "C" && f.corridors[On("D")].corridorId == "D"
  {
    var f, shared := Built(cfg, Tracks([]), now), Tracks([]).shared;
    BuiltFromTopology(cfg, Tracks([]), now);
    BothShared(shared, "C");
    BothShared(shared, "D");
    assert f.corridors[On("C")] == IdleCorridor(cfg, "C", Forward, now);
    assert f.corridors[On("D")] == IdleCorridor(cfg, "D", Forward, now);
  }

  lemma MovedLife(cfg: ManagerConfig) returns (moments: seq<Moment>, deeds: seq<Deed>, a: Decision, b: Decision)
    requires ValidManagerConfig(cfg)
    ensures Life(cfg, Tracks([]), 1, moments, deeds) && |deeds| == 5
    ensures moments[5].stray == [Row(a, false)] && moments[5].live == [Row(b, false)]
    ensures a.resourceId == On("C") && a.trainId == "A" && a.movementIds == []
    ensures b.resourceId == On("D") && b.trainId == "A" && b.movementIds == []
  {
    var front, past, d;
    front, past, a := FirstVanishes(cfg);
    moments, deeds, d := ReleaseInLife(cfg, Tracks([]), front, past, "D", "A", []);
    b := CommandOf(d);
  }

  /** A life in which a train is released on one corridor, vanishes, reappears and is released
      on the other.  Recovery makes both commands pending, but files only one. */
  lemma RestartLosesCommand(cfg: ManagerConfig, now: nat, pending: seq<Decision>)
    returns (moments: seq<Moment>, deeds: seq<Deed>)
    requires ValidManagerConfig(cfg)
    ensures Life(cfg, Tracks([]), 1, moments, deeds) && |deeds| == 5
    ensures multiset(RowsOf(pending, [])) == Stored(moments[5]) ==>
      var f := Built(cfg, Tracks([]), now);
      var g := Replay(f, RowsOf(pending, []));
      && Recoverable(f, pending, [], 1) && On("C") in g.pending && On("D") in g.pending
      && !forall r <- g.pending :: HasItsCommand(ByTrain(pending), g, r)
  {
    var a, b;
    moments, deeds, a, b := MovedLife(cfg);
    if multiset(RowsOf(pending, [])) == Stored(moments[5]) {
      TwoOfOneTrain(cfg, moments, deeds, now, pending, a, b);
    }
  }

  lemma TwoOfOneTrain(
    cfg: ManagerConfig, moments: seq<Moment>, deeds: seq<Deed>, now: nat, pending: seq<Decision>, a: Decision,
    b: Decision)
    requires ValidManagerConfig(cfg) && Life(cfg, Tracks([]), 1, moments, deeds) && |deeds| == 5
    requires multiset(RowsOf(pending, [])) == Stored(moments[5])
    requires moments[5].stray == [Row(a, false)] && moments[5].live == [Row(b, false)]
    requires a.resourceId == On("C") && a.trainId == "A" && a.movementIds == []
    requires b.resourceId == On("D") && b.trainId == "A" && b.movementIds == []
    ensures var f := Built(cfg, Tracks([]), now);
      var g := Replay(f, RowsOf(pending, []));
      && Recoverable(f, pending, [], 1) && On("C") in g.pending && On("D") in g.pending
      && !forall r <- g.pending :: HasItsCommand(ByTrain(pending), g, r)
  {
    var f, rows := Built(cfg, Tracks([]), now), RowsOf(pending, []);
    BuiltIsUnstarted(cfg, Tracks([]), now);
    OnBothTracks(cfg, now, Row(b, false), Row(a, false));
    assert moments[5].live + moments[5].stray == [Row(b, false), Row(a, false)];
    RestartAcceptedIff(cfg, Tracks([]), 1, moments, deeds, 5, now, pending, []);
    RecoverableParts(f, rows, pending, [], 1);
    BothPending(f, moments[5], rows, a, b);
    CommandsRecoveredIff(f, pending, []);
    assert multiset([Row(b, false), Row(a, false)]) == Stored(moments[5]);
    SameTrainTwice(pending, [Row(b, false), Row(a, false)]);
  }

  lemma OnBothTracks(cfg: ManagerConfig, now: nat, p: Row, q: Row)
    requires ValidManagerConfig(cfg) && p.decision.resourceId == On("D") && q.decision.resourceId == On("C")
    requires p.decision.movementIds == [] && q.decision.movementIds == []
    ensures PairsTogether(Built(cfg, Tracks([]), now), [p, q])
  {
    BothTracks(cfg, now);
    assert Together(Built(cfg, Tracks([]), now), p, q);
  }

  lemma BothPending(f: State, m: Moment, rows: seq<Row>, a: Decision, b: Decision)
    requires Unstarted(f) && Accepted(f, rows) && multiset(rows) == Stored(m)
    requires m.stray == [Row(a, false)] && m.live == [Row(b, false)]
    ensures a.resourceId in Replay(f, rows).pending && b.resourceId in Replay(f, rows).pending
  {
    RebuiltDecisions(f, m, rows);
    assert IsPendingRow(m, Row(a, false)) && IsPendingRow(m, Row(b, false));
  }

  lemma SameTrainTwice(pending: seq<Decision>, all: seq<Row>)
    requires multiset(RowsOf(pending, [])) == multiset(all) && |all| == 2
    requires all[0].decision.trainId == all[1].decision.trainId
    ensures !DifferentTrains(pending)
  {
    RowsOfParts(pending, []);
    assert |multiset(RowsOf(pending, []))| == |multiset(all)|;
    var i, j := PairElsewhere(RowsOf(pending, []), all, 0, 1);
    assert pending[i].trainId == pending[j].trainId;
  }

  /** A life in which a train that has a pending command is released again elsewhere: the
      second decision locks its resource, no command answers it, and a restart forgets it. */
  lemma RestartForgetsUnfiled(cfg: ManagerConfig, now: nat, pending: seq<Decision>)
    returns (moments: seq<Moment>, deeds: seq<Deed>)
    requires ValidManagerConfig(cfg)
    ensures Life(cfg, Tracks([]), 1, moments, deeds) && |deeds| == 4
    ensures On("D") in moments[4].state.pending && moments[4].unfiled == {On("D")}
    ensures multiset(RowsOf(pending, [])) == Stored(moments[4]) ==>
      && Recoverable(Built(cfg, Tracks([]), now), pending, [], 1)
      && On("D") !in Replay(Built(cfg, Tracks([]), now), RowsOf(pending, [])).pending
  {
    var a;
    moments, deeds, a := AgainLife(cfg);
    if multiset(RowsOf(pending, [])) == Stored(moments[4]) {
      RestartAcceptedIff(cfg, Tracks([]), 1, moments, deeds, 4, now, pending, []);
      BuiltIsUnstarted(cfg, Tracks([]), now);
      RecoverableParts(Built(cfg, Tracks([]), now), RowsOf(pending, []), pending, [], 1);
      BothTracks(cfg, now);
      NotPending(Built(cfg, Tracks([]), now), moments[4], RowsOf(pending, []), a, On("D"));
    }
  }

  lemma NotPending(f: State, m: Moment, rows: seq<Row>, a: Decision, r: string)
    requires Unstarted(f) && Accepted(f, rows) && multiset(rows) == Stored(m)
    requires m.live == [Row(a, false)] && m.stray == [] && a.resourceId != r
    ensures r !in Replay(f, rows).pending
  {
    RebuiltDecisions(f, m, rows);
    assert !SomePendingRow(m, r);
  }

  lemma AgainLife(cfg: ManagerConfig) returns (moments: seq<Moment>, deeds: seq<Deed>, a: Decision)
    requires ValidManagerConfig(cfg)
    ensures Life(cfg, Tracks([]), 1, moments, deeds) && |deeds| == 4
    ensures moments[4].live == [Row(a, false)] && moments[4].stray == [] && moments[4].unfiled == {On("D")}
    ensures a.resourceId == On("C") && On("D") in moments[4].state.pending
  {
    var front, past, d := FirstRelease(cfg, [], []);
    ReleaseElsewhere(front[0].state, "C", "D", "A", [], d);
    a := CommandOf(d);
    var e;
    moments, deeds, e := ReleaseAgain(cfg, Tracks([]), front, past, "D", a);
  }

  lemma ReleaseAgain(
    cfg: ManagerConfig, topology: Topology, front: seq<Moment>, past: seq<Deed>, id: string, a: Decision)
    returns (moments: seq<Moment>, deeds: seq<Deed>, d: Decision)
    requires ValidManagerConfig(cfg) && topology.revision == 1 && Life(cfg, topology, 1, front, past)
    requires var m := front[|past|];
      Ready(m.state, id) && m == Moment(m.state, [Row(a, false)], [], {}) && a.trainId == "A"
    ensures Life(cfg, topology, 1, moments, deeds) && |deeds| == |past| + 2
    ensures var m, next := front[|past|], moments[|past| + 2];
      next.live == m.live && next.stray == [] && next.unfiled == {On(id)} && On(id) in next.state.pending
  {
    var offered, released;
    offered, released, d := OfferedAgain(cfg, front[|past|], id, a);
    moments, deeds := TwoDeeds(
      cfg, topology, front, past, Offering(id, "A", []), Releasing(id, d), offered, released);
  }

  lemma OfferedAgain(cfg: ManagerConfig, m: Moment, id: string, a: Decision)
    returns (offered: Moment, released: Moment, d: Decision)
    requires ValidManagerConfig(cfg) && Ready(m.state, id) && m == Moment(m.state, [Row(a, false)], [], {})
    requires a.trainId == "A"
    ensures DeedAt(cfg, 1, m, Offering(id, "A", []), offered) && DeedAt(cfg, 1, offered, Releasing(id, d), released)
    ensures released.live == m.live && released.stray == [] && released.unfiled == {On(id)}
    ensures On(id) in released.state.pending
  {
    OfferKeepsReady(m.state, id, "A", []);
    offered := Moment(Offer(m.state, id, "A", []), m.live, [], {});
    released, d := ReleasedAgain(cfg, offered, id);
    ReleasedState(m.state, id, "A", [], d);
  }

  lemma ReleasedAgain(cfg: ManagerConfig, m: Moment, id: string) returns (next: Moment, d: Decision)
    requires ValidManagerConfig(cfg) && Ready(m.state, id) && Waits(m.state, id, "A", []) && m.unfiled == {}
    requires |m.live| == 1 && !m.live[0].accepted && m.live[0].decision.trainId == "A"
    ensures DeedAt(cfg, 1, m, Releasing(id, d), next)
    ensures next == Moment(Planned(m.state, On(id), 1, d), m.live, m.stray, {On(id)})
    ensures d.action == Release && d.trainId == "A" && d.movementIds == []
  {
    d := ReleaseTheTrain(cfg, m.state, id, "A", []);
    ReleaseUnfiles(m, id, d);
    next := Moment(Planned(m.state, On(id), 1, d), m.live, m.stray, {On(id)});
  }

  lemma ReleaseUnfiles(m: Moment, id: string, d: Decision)
    requires |m.live| == 1 && !m.live[0].accepted && m.live[0].decision.trainId == d.trainId && d.action == Release
    ensures LiveAfter(m, Releasing(id, d)) == m.live && StrayAfter(m, Releasing(id, d)) == m.stray
    ensures UnfiledAfter(m, Releasing(id, d)) == m.unfiled + {On(id)}
  {
    assert HasCommand(m.live, d.trainId);
  }
}
