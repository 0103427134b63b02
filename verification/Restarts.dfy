/** Restart at any moment of any life of a service: which recoveries succeed, what they
    rebuild, and when that is the live state. */
module Restarts {
  import opened Basics
  import opened Reservations
  import opened Policy
  import opened DispatchSpec
  import opened DispatchManagers
  import opened DispatchRuns
  import opened Restart
  import opened Lifecycle
  import opened Setup
  import opened LiveRows
  import opened Recovery
  import opened Lives

  // ----- rows in another order -----

  lemma PairElsewhere(p: seq<Row>, q: seq<Row>, i: nat, j: nat) returns (a: nat, b: nat)
    requires multiset(p) == multiset(q) && i < j < |q|
    ensures a < |p| && b < |p| && a != b && p[a] == q[i] && p[b] == q[j]
  {
    assert q[i] in multiset(q) && q[i] in p;
    a :| a < |p| && p[a] == q[i];
    WithoutOne(p, a);
    WithoutOne(q, i);
    assert Without(q, i)[j - 1] == q[j];
    assert q[j] in multiset(Without(q, i)) && q[j] in Without(p, a);
    var c :| 0 <= c < |Without(p, a)| && Without(p, a)[c] == q[j];
    b := if c < a then c else c + 1;
  }

  lemma TogetherReordered(f: State, p: seq<Row>, q: seq<Row>)
    requires multiset(p) == multiset(q) && AllTogether(f, p)
    ensures AllTogether(f, q)
  {
    forall i | 0 <= i < |q| ensures Sensible(f, q[i].decision) {
      assert q[i] in multiset(q) && q[i] in p;
    }
    forall i, j | 0 <= i < j < |q| ensures Together(f, q[i], q[j]) {
      var a, b := PairElsewhere(p, q, i, j);
      TogetherEitherWay(f, q[i], q[j]);
    }
  }

  // ----- which restarts succeed -----

  ghost predicate PairsTogether(f: State, rows: seq<Row>) {
    forall i, j | 0 <= i < j < |rows| :: Together(f, rows[i], rows[j])
  }

  lemma StoredRevision(f: State, m: Moment, rows: seq<Row>, revision: nat)
    requires GoodRows(f, m, revision) && multiset(rows) == Stored(m)
    ensures AllOfRevision(rows, revision)
  {
    forall i | 0 <= i < |rows| ensures rows[i].decision.topologyRevision == revision {
      ReadIsStored(m, rows, i);
    }
  }

  lemma AcceptedFromMoment(f: State, m: Moment, revision: nat, pending: seq<Decision>, active: seq<Decision>)
    requires Unstarted(f) && GoodRows(f, m, revision) && multiset(RowsOf(pending, active)) == Stored(m)
    ensures Recoverable(f, pending, active, revision) <==> PairsTogether(f, m.live + m.stray)
  {
    var rows, all := RowsOf(pending, active), m.live + m.stray;
    StoredRevision(f, m, rows, revision);
    RecoverableParts(f, rows, pending, active, revision);
    AcceptedIff(f, rows);
    SensibleTogether(f, m);
    assert multiset(all) == Stored(m);
    if AllTogether(f, rows) {
      TogetherReordered(f, rows, all);
    }
    if AllTogether(f, all) {
      TogetherReordered(f, all, rows);
    }
  }

  lemma SensibleTogether(f: State, m: Moment)
    requires AllSensible(f, m.live) && AllSensible(f, m.stray)
    ensures AllTogether(f, m.live + m.stray) <==> PairsTogether(f, m.live + m.stray)
  {
  }

  /** Restart at any moment of any life: recovery of the stored rows, in any order, succeeds
      exactly when every two of them stand together. */
  lemma RestartAcceptedIff(
    cfg: ManagerConfig, topology: Topology, then_: nat, moments: seq<Moment>, deeds: seq<Deed>, n: nat, now: nat,
    pending: seq<Decision>, active: seq<Decision>)
    requires ValidManagerConfig(cfg) && Life(cfg, topology, then_, moments, deeds) && n <= |deeds|
    requires multiset(RowsOf(pending, active)) == Stored(moments[n])
    ensures var f, m := Built(cfg, topology, now), moments[n];
      Recoverable(f, pending, active, topology.revision) <==> PairsTogether(f, m.live + m.stray)
  {
    AlwaysFollowed(cfg, topology, then_, moments, deeds, n, now);
    BuiltIsUnstarted(cfg, topology, now);
    AcceptedFromMoment(Built(cfg, topology, now), moments[n], topology.revision, pending, active);
  }

  // ----- what they rebuild -----

  /** The same pending trains, flags and occupancy. */
  ghost predicate SameTrack(s: State, g: State) {
    && g.pending.Keys == s.pending.Keys
    && (forall r <- s.pending :: g.pending[r].trainId == s.pending[r].trainId)
    && g.corridors.Keys == s.corridors.Keys
    && (forall r <- s.corridors ::
          && g.corridors[r].occupancy == s.corridors[r].occupancy
          && g.corridors[r].commandPending == s.corridors[r].commandPending)
  }

  ghost predicate SameReservations(b: Book, c: Book) {
    && c.intersections.Keys == b.intersections.Keys
    && forall ix <- b.intersections :: c.intersections[ix].active == b.intersections[ix].active
  }

  // The pending row is that of an unfiled decision: of its resource and its train.
  predicate StandsInFor(m: Moment, row: Row) {
    && !row.accepted && row.decision.resourceId in m.unfiled && row.decision.resourceId in m.state.pending
    && m.state.pending[row.decision.resourceId].trainId == row.decision.trainId
  }

  ghost predicate HasStandIn(m: Moment, r: string) {
    exists j :: 0 <= j < |m.stray| && m.stray[j].decision.resourceId == r && StandsInFor(m, m.stray[j])
  }

  /** The withdrawn commands are exactly those that the unfiled decisions lack. */
  ghost predicate StandIns(m: Moment) {
    && (forall j | 0 <= j < |m.stray| && !m.stray[j].accepted :: StandsInFor(m, m.stray[j]))
    && forall r <- m.unfiled :: HasStandIn(m, r)
  }

  // What recovery makes pending.
  ghost predicate IsPendingRow(m: Moment, row: Row) {
    !row.accepted && (row in m.live || row in m.stray)
  }

  ghost predicate PendingFrom(m: Moment, g: State) {
    && (forall row: Row :: IsPendingRow(m, row) ==>
          row.decision.resourceId in g.pending && g.pending[row.decision.resourceId] == row.decision)
    && forall r <- g.pending :: SomePendingRow(m, r)
  }

  ghost predicate SomePendingRow(m: Moment, r: string) {
    exists row: Row :: IsPendingRow(m, row) && row.decision.resourceId == r
  }

  lemma RebuiltDecisions(f: State, m: Moment, rows: seq<Row>)
    requires Unstarted(f) && Accepted(f, rows) && multiset(rows) == Stored(m)
    ensures PendingFrom(m, Replay(f, rows))
  {
    var g := Replay(f, rows);
    RecoveredDecisions(f, rows, |rows|);
    assert rows[..|rows|] == rows;
    forall row: Row | IsPendingRow(m, row)
      ensures row.decision.resourceId in g.pending && g.pending[row.decision.resourceId] == row.decision
    {
      var i := StoredIsRead(m, rows, row);
      assert !rows[i].accepted;
    }
    forall r | r in g.pending ensures SomePendingRow(m, r) {
      var i :| 0 <= i < |rows| && !rows[i].accepted && rows[i].decision.resourceId == r;
      ReadIsStored(m, rows, i);
      assert IsPendingRow(m, rows[i]);
    }
  }

  lemma StoredIsRead(m: Moment, rows: seq<Row>, row: Row) returns (i: nat)
    requires multiset(rows) == Stored(m) && (row in m.live || row in m.stray)
    ensures i < |rows| && rows[i] == row
  {
    assert row in multiset(rows);
    i :| i < |rows| && rows[i] == row;
  }

  lemma ReadIsStored(m: Moment, rows: seq<Row>, i: nat)
    requires multiset(rows) == Stored(m) && i < |rows|
    ensures rows[i] in m.live || rows[i] in m.stray
  {
    assert rows[i] in multiset(rows);
  }

  // The pending rows in memory are the decisions that are filed.
  lemma FiledRow(m: Moment, row: Row)
    requires Tracked(m) && !row.accepted && row in m.live
    ensures row.decision.resourceId in m.state.pending && row.decision.resourceId !in m.unfiled
    ensures m.state.pending[row.decision.resourceId].trainId == row.decision.trainId
  {
    var i :| 0 <= i < |m.live| && m.live[i] == row;
    LivePendingRow(m, i);
  }

  lemma FiledDecision(m: Moment, r: string) returns (row: Row)
    requires Tracked(m) && r in m.state.pending && r !in m.unfiled
    ensures !row.accepted && row in m.live && row.decision.resourceId == r
  {
    assert r in m.state.pending - m.unfiled;
    var i :| 0 <= i < |m.live| && !m.live[i].accepted && m.live[i].decision.resourceId == r;
    row := m.live[i];
  }

  // Two rows of which one is in memory and one astray cannot both be pending for a resource.
  lemma StrayElsewhere(f: State, m: Moment, live: Row, stray: Row)
    requires PairsTogether(f, m.live + m.stray) && live in m.live && stray in m.stray && !live.accepted && !stray.accepted
    ensures live.decision.resourceId != stray.decision.resourceId
  {
    var i :| 0 <= i < |m.live| && m.live[i] == live;
    var j :| 0 <= j < |m.stray| && m.stray[j] == stray;
    var all := m.live + m.stray;
    assert Together(f, all[i], all[|m.live| + j]);
  }

  lemma StandInsRestore(f: State, m: Moment, g: State)
    requires Tracked(m) && PendingFrom(m, g) && StandIns(m)
    ensures g.pending.Keys == m.state.pending.Keys
    ensures forall r <- m.state.pending :: g.pending[r].trainId == m.state.pending[r].trainId
  {
    forall r | r in m.state.pending
      ensures r in g.pending && g.pending[r].trainId == m.state.pending[r].trainId
    {
      if r in m.unfiled {
        assert HasStandIn(m, r);
        var j :| 0 <= j < |m.stray| && m.stray[j].decision.resourceId == r && StandsInFor(m, m.stray[j]);
        assert IsPendingRow(m, m.stray[j]);
      } else {
        var row := FiledDecision(m, r);
        FiledRow(m, row);
        assert IsPendingRow(m, row);
      }
    }
    forall r | r in g.pending ensures r in m.state.pending {
      assert SomePendingRow(m, r);
      var row: Row :| IsPendingRow(m, row) && row.decision.resourceId == r;
      if row in m.live {
        FiledRow(m, row);
      } else {
        var j :| 0 <= j < |m.stray| && m.stray[j] == row;
        assert StandsInFor(m, m.stray[j]);
      }
    }
  }

  lemma RestoredNeedsStandIns(f: State, m: Moment, g: State)
    requires Tracked(m) && PendingFrom(m, g) && PairsTogether(f, m.live + m.stray)
    requires g.pending.Keys == m.state.pending.Keys
    requires forall r <- m.state.pending :: g.pending[r].trainId == m.state.pending[r].trainId
    ensures StandIns(m)
  {
    forall j | 0 <= j < |m.stray| && !m.stray[j].accepted ensures StandsInFor(m, m.stray[j]) {
      var row := m.stray[j];
      assert IsPendingRow(m, row);
      if row.decision.resourceId !in m.unfiled {
        var other := FiledDecision(m, row.decision.resourceId);
        StrayElsewhere(f, m, other, row);
      }
    }
    forall r | r in m.unfiled ensures HasStandIn(m, r) {
      assert SomePendingRow(m, r);
      var row: Row :| IsPendingRow(m, row) && row.decision.resourceId == r;
      if row in m.live {
        FiledRow(m, row);
      }
      var j :| 0 <= j < |m.stray| && m.stray[j] == row;
      assert StandsInFor(m, m.stray[j]);
    }
  }

  lemma OccupancyRestored(f: State, m: Moment, rows: seq<Row>)
    requires Unstarted(f) && Tracked(m) && Rebuilt(m.state, f) && Accepted(f, rows) && multiset(rows) == Stored(m)
    ensures SameOccupancy(m.state.corridors, Replay(f, rows).corridors)
  {
    var g := Replay(f, rows);
    RecoveredAll(f, rows);
    assert multiset(m.live + m.stray) == Stored(m);
    forall r | r in m.state.corridors ensures g.corridors[r].occupancy == m.state.corridors[r].occupancy {
      RowsAtSame(rows, m.live + m.stray, r);
      assert ResourceAfter(f.corridors[r], g.corridors[r], RowsAt(rows, r));
    }
  }

  lemma FlagsFollow(s: State, g: State)
    requires PendingAgrees(s) && PendingAgrees(g) && SameOccupancy(s.corridors, g.corridors)
    ensures SameTrack(s, g) <==>
      && g.pending.Keys == s.pending.Keys
      && forall r <- s.pending :: g.pending[r].trainId == s.pending[r].trainId
  {
  }

  lemma TrackRestoredIff(cfg: ManagerConfig, f: State, m: Moment, rows: seq<Row>)
    requires ValidManagerConfig(cfg) && Unstarted(f) && Tracked(m) && Rebuilt(m.state, f) && Accepted(f, rows)
    requires multiset(rows) == Stored(m) && PairsTogether(f, m.live + m.stray)
    ensures SameTrack(m.state, Replay(f, rows)) <==> StandIns(m)
  {
    var g := Replay(f, rows);
    OccupancyRestored(f, m, rows);
    AnyReplayIsSafe(cfg, f, rows);
    FlagsFollow(m.state, g);
    RebuiltDecisions(f, m, rows);
    if StandIns(m) {
      StandInsRestore(f, m, g);
    }
    if SameTrack(m.state, g) {
      RestoredNeedsStandIns(f, m, g);
    }
  }

  /** Restart at any moment of any life that recovery survives: every occupancy is restored,
      and pending trains and flags exactly when the commands that stale cleanups withdrew are
      those that unfiled releases lack. */
  lemma RestartFollowsIff(
    cfg: ManagerConfig, topology: Topology, then_: nat, moments: seq<Moment>, deeds: seq<Deed>, n: nat, now: nat,
    pending: seq<Decision>, active: seq<Decision>)
    requires ValidManagerConfig(cfg) && Life(cfg, topology, then_, moments, deeds) && n <= |deeds|
    requires multiset(RowsOf(pending, active)) == Stored(moments[n])
    requires Recoverable(Built(cfg, topology, now), pending, active, topology.revision)
    ensures var g := Replay(Built(cfg, topology, now), RowsOf(pending, active));
      && SameOccupancy(moments[n].state.corridors, g.corridors)
      && (SameTrack(moments[n].state, g) <==> StandIns(moments[n]))
  {
    var f, rows := Built(cfg, topology, now), RowsOf(pending, active);
    AlwaysFollowed(cfg, topology, then_, moments, deeds, n, now);
    BuiltIsUnstarted(cfg, topology, now);
    AcceptedFromMoment(f, moments[n], topology.revision, pending, active);
    RecoverableParts(f, rows, pending, active, topology.revision);
    OccupancyRestored(f, moments[n], rows);
    TrackRestoredIff(cfg, f, moments[n], rows);
  }

  lemma HeldReordered(b: Book, p: seq<Row>, q: seq<Row>, ix: string, k: string)
    requires multiset(p) == multiset(q) && HeldBySome(b, p, ix, k)
    ensures HeldBySome(b, q, ix, k)
  {
    var i :| 0 <= i < |p| && RowHolds(b, p[i], ix, k);
    assert p[i] in multiset(q);
    var j :| 0 <= j < |q| && q[j] == p[i];
    assert RowHolds(b, q[j], ix, k);
  }

  lemma ActiveReordered(b: Book, p: seq<Row>, q: seq<Row>)
    requires ActiveIsRows(b, p) && multiset(p) == multiset(q)
    ensures ActiveIsRows(b, q)
  {
    forall ix, k | ix in b.intersections ensures HeldBySome(b, q, ix, k) <==> HeldBySome(b, p, ix, k) {
      if HeldBySome(b, p, ix, k) {
        HeldReordered(b, p, q, ix, k);
      }
      if HeldBySome(b, q, ix, k) {
        HeldReordered(b, q, p, ix, k);
      }
    }
    forall ix, i, k | ix in b.intersections && 0 <= i < |q| && RowHolds(b, q[i], ix, k)
      ensures b.intersections[ix].active[k] == Reservation(ix, k, q[i].decision.trainId, q[i].decision.issuedAt)
    {
      assert q[i] in multiset(p);
      var j :| 0 <= j < |p| && p[j] == q[i];
      assert RowHolds(b, p[j], ix, k);
    }
  }

  lemma ReservationsRestoredIff(f: State, m: Moment, rows: seq<Row>)
    requires Unstarted(f) && Rebuilt(m.state, f) && Accepted(f, rows) && multiset(rows) == Stored(m)
    ensures SameReservations(m.state.book, Replay(f, rows).book) <==> ActiveIsRows(m.state.book, m.live + m.stray)
  {
    var all, b, c := m.live + m.stray, m.state.book, Replay(f, rows).book;
    RecoveredAll(f, rows);
    assert multiset(all) == Stored(m);
    ActiveReordered(c, rows, all);
    if ActiveIsRows(b, all) {
      forall ix | ix in b.intersections ensures c.intersections[ix].active == b.intersections[ix].active {
        SameRowsSameActive(b, c, all, ix);
      }
    }
    if SameReservations(b, c) {
      SameActiveSameRows(c, b, all);
    }
  }

  lemma LiveParts(s: State, g: State)
    ensures SameLive(s, g) <==> SameTrack(s, g) && SameReservations(s.book, g.book)
  {
  }

  lemma RestoresFromMoment(
    cfg: ManagerConfig, f: State, m: Moment, revision: nat, pending: seq<Decision>, active: seq<Decision>)
    requires ValidManagerConfig(cfg) && Unstarted(f) && Followed(f, m, revision)
    requires multiset(RowsOf(pending, active)) == Stored(m)
    ensures Recoverable(f, pending, active, revision) && SameLive(m.state, Replay(f, RowsOf(pending, active)))
            <==> PairsTogether(f, m.live + m.stray) && StandIns(m) && ActiveIsRows(m.state.book, m.live + m.stray)
  {
    var rows := RowsOf(pending, active);
    AcceptedFromMoment(f, m, revision, pending, active);
    RecoverableParts(f, rows, pending, active, revision);
    LiveParts(m.state, Replay(f, rows));
    if PairsTogether(f, m.live + m.stray) {
      TrackRestoredIff(cfg, f, m, rows);
      ReservationsRestoredIff(f, m, rows);
    }
  }

  /** Restart at any moment of any life: recovery succeeds and arrives at the live pending
      trains, occupancy, flags and reservations exactly when every two stored rows stand
      together, withdrawn commands stand in for unfiled ones, and what is reserved is what the
      stored rows name. */
  lemma RestartRestoresIff(
    cfg: ManagerConfig, topology: Topology, then_: nat, moments: seq<Moment>, deeds: seq<Deed>, n: nat, now: nat,
    pending: seq<Decision>, active: seq<Decision>)
    requires ValidManagerConfig(cfg) && Life(cfg, topology, then_, moments, deeds) && n <= |deeds|
    requires multiset(RowsOf(pending, active)) == Stored(moments[n])
    ensures var f, m := Built(cfg, topology, now), moments[n];
      Recoverable(f, pending, active, topology.revision) && SameLive(m.state, Replay(f, RowsOf(pending, active)))
      <==> PairsTogether(f, m.live + m.stray) && StandIns(m) && ActiveIsRows(m.state.book, m.live + m.stray)
  {
    AlwaysFollowed(cfg, topology, then_, moments, deeds, n, now);
    BuiltIsUnstarted(cfg, topology, now);
    RestoresFromMoment(cfg, Built(cfg, topology, now), moments[n], topology.revision, pending, active);
  }

  // ----- orderly lives -----

  ghost predicate OrderlyAt(moments: seq<Moment>, deeds: seq<Deed>, k: nat)
    requires k < |deeds| <= |moments|
  {
    Orderly(moments[k].state, moments[k].live, deeds[k]) || deeds[k].Stale?
  }

  /** So far releases were of trains without an unfinished command and clears of whole
      passages; any train may have become stale. */
  ghost predicate OrderlyTo(moments: seq<Moment>, deeds: seq<Deed>, n: nat)
    requires n <= |deeds| <= |moments|
  {
    forall k | 0 <= k < n :: OrderlyAt(moments, deeds, k)
  }

  /** The rows in memory describe the manager, and the stray rows are of withdrawn commands. */
  ghost predicate Accurate(m: Moment) {
    Described(m.state, m.live) && m.unfiled == {} && forall i | 0 <= i < |m.stray| :: !m.stray[i].accepted
  }

  lemma NothingReplaced(m: Moment, deed: Deed)
    requires OnePassagePerTrain(m.live) && (deed.Accept? ==> deed.row < |m.live| && !m.live[deed.row].accepted)
    ensures !Replaces(m, deed)
  {
    if deed.Accept? {
      var i := deed.row;
      assert forall j | 0 <= j < |m.live| && m.live[j].accepted :: j < i || i < j;
      assert forall j | 0 <= j < |m.live| && m.live[j].accepted ::
        m.live[j].decision.trainId != m.live[i].decision.trainId;
    }
  }

  lemma DeedKeepsAccurate(cfg: ManagerConfig, revision: nat, m: Moment, deed: Deed, next: Moment)
    requires ValidManagerConfig(cfg) && Accurate(m) && DeedAt(cfg, revision, m, deed, next)
    requires Orderly(m.state, m.live, deed) || deed.Stale?
    ensures Accurate(next)
  {
    NothingReplaced(m, deed);
    DeedKeepsDescribed(cfg, m, deed);
    OnlyCommandsStray(m, deed);
  }

  lemma OnlyCommandsStray(m: Moment, deed: Deed)
    requires !Replaces(m, deed) && m.unfiled == {} && (Orderly(m.state, m.live, deed) || deed.Stale?)
    requires forall i | 0 <= i < |m.stray| :: !m.stray[i].accepted
    ensures UnfiledAfter(m, deed) == {} && forall i | 0 <= i < |StrayAfter(m, deed)| :: !StrayAfter(m, deed)[i].accepted
  {
  }

  lemma DeedKeepsDescribed(cfg: ManagerConfig, m: Moment, deed: Deed)
    requires ValidManagerConfig(cfg) && Described(m.state, m.live) && Possible(cfg, m.state, m.live, deed)
    requires (Orderly(m.state, m.live, deed) || deed.Stale?) && !Replaces(m, deed)
    ensures Described(StateAfterDeed(cfg, m.state, m.live, deed), LiveAfter(m, deed))
  {
    if Revokes(m, deed) {
      DeedKeepsRowsIff(cfg, m.state, m.live, Reject(CommandRow(m.live, deed.train)));
    } else {
      DeedKeepsRowsIff(cfg, m.state, m.live, deed);
    }
  }

  lemma BuiltDescribed(cfg: ManagerConfig, topology: Topology, now: nat)
    requires ValidManagerConfig(cfg)
    ensures Described(Built(cfg, topology, now), [])
  {
    BuiltIsSafe(cfg, topology, now);
    BuiltFromTopology(cfg, topology, now);
  }

  /** As long as a life is orderly, stale cleanups included, the rows in memory describe the
      manager's state exactly. */
  lemma {:induction false} RowsAlwaysDescribe(
    cfg: ManagerConfig, topology: Topology, then_: nat, moments: seq<Moment>, deeds: seq<Deed>, n: nat)
    requires ValidManagerConfig(cfg) && Life(cfg, topology, then_, moments, deeds) && n <= |deeds|
    requires OrderlyTo(moments, deeds, n)
    ensures Accurate(moments[n])
  {
    if n == 0 {
      BuiltDescribed(cfg, topology, then_);
    } else {
      RowsAlwaysDescribe(cfg, topology, then_, moments, deeds, n - 1);
      assert LifeAt(cfg, topology.revision, moments, deeds, n - 1) && OrderlyAt(moments, deeds, n - 1);
      DeedKeepsAccurate(cfg, topology.revision, moments[n - 1], deeds[n - 1], moments[n]);
    }
  }

  lemma StrayGrows(m: Moment, deed: Deed)
    requires !Replaces(m, deed)
    ensures StrayAfter(m, deed) == [] <==> m.stray == [] && !Revokes(m, deed)
  {
  }

  ghost predicate NothingRevoked(moments: seq<Moment>, deeds: seq<Deed>, n: nat)
    requires n <= |deeds| <= |moments|
  {
    forall k | 0 <= k < n :: !Revokes(moments[k], deeds[k])
  }

  lemma RevokedNext(moments: seq<Moment>, deeds: seq<Deed>, n: nat)
    requires n < |deeds| <= |moments|
    ensures NothingRevoked(moments, deeds, n + 1) <==>
      NothingRevoked(moments, deeds, n) && !Revokes(moments[n], deeds[n])
  {
  }

  lemma StrayStep(
    cfg: ManagerConfig, topology: Topology, then_: nat, moments: seq<Moment>, deeds: seq<Deed>, n: nat)
    requires ValidManagerConfig(cfg) && Life(cfg, topology, then_, moments, deeds) && n < |deeds|
    requires OrderlyTo(moments, deeds, n)
    ensures moments[n + 1].stray == [] <==> moments[n].stray == [] && !Revokes(moments[n], deeds[n])
  {
    RowsAlwaysDescribe(cfg, topology, then_, moments, deeds, n);
    assert LifeAt(cfg, topology.revision, moments, deeds, n);
    NothingReplaced(moments[n], deeds[n]);
    StrayGrows(moments[n], deeds[n]);
  }

  lemma {:induction false} NothingStrayIff(
    cfg: ManagerConfig, topology: Topology, then_: nat, moments: seq<Moment>, deeds: seq<Deed>, n: nat)
    requires ValidManagerConfig(cfg) && Life(cfg, topology, then_, moments, deeds) && n <= |deeds|
    requires OrderlyTo(moments, deeds, n)
    ensures moments[n].stray == [] <==> NothingRevoked(moments, deeds, n)
  {
    if n > 0 {
      NothingStrayIff(cfg, topology, then_, moments, deeds, n - 1);
      StrayStep(cfg, topology, then_, moments, deeds, n - 1);
      RevokedNext(moments, deeds, n - 1);
    }
  }

  lemma LiveTogether(f: State, s: State, rows: seq<Row>)
    requires Unstarted(f) && Snapshot(s, rows) && Rebuilt(s, f)
    ensures AllTogether(f, rows)
  {
    RestartRoundTrip(s, f, rows);
    AcceptedIff(f, rows);
  }

  lemma AccurateRestores(f: State, m: Moment)
    requires Unstarted(f) && Accurate(m) && Rebuilt(m.state, f)
    ensures PairsTogether(f, m.live + m.stray) && StandIns(m) && ActiveIsRows(m.state.book, m.live + m.stray)
            <==> m.stray == []
  {
    if m.stray == [] {
      assert m.live + m.stray == m.live;
      LiveTogether(f, m.state, m.live);
    }
    if m.stray != [] {
      assert !StandsInFor(m, m.stray[0]);
    }
  }

  /** Restart at any moment of an orderly life: recovery accepts every stored row, in any
      order, and arrives at the live state, exactly when no stale cleanup so far withdrew a
      command. */
  lemma OrderlyRestartIff(
    cfg: ManagerConfig, topology: Topology, then_: nat, moments: seq<Moment>, deeds: seq<Deed>, n: nat, now: nat,
    pending: seq<Decision>, active: seq<Decision>)
    requires ValidManagerConfig(cfg) && Life(cfg, topology, then_, moments, deeds) && n <= |deeds|
    requires OrderlyTo(moments, deeds, n) && multiset(RowsOf(pending, active)) == Stored(moments[n])
    ensures var f := Built(cfg, topology, now);
      Recoverable(f, pending, active, topology.revision)
      && SameLive(moments[n].state, Replay(f, RowsOf(pending, active)))
      <==> NothingRevoked(moments, deeds, n)
  {
    RestartRestoresIff(cfg, topology, then_, moments, deeds, n, now, pending, active);
    RowsAlwaysDescribe(cfg, topology, then_, moments, deeds, n);
    AlwaysFollowed(cfg, topology, then_, moments, deeds, n, now);
    BuiltIsUnstarted(cfg, topology, now);
    AccurateRestores(Built(cfg, topology, now), moments[n]);
    NothingStrayIff(cfg, topology, then_, moments, deeds, n);
  }

  /** Right after the first cleanup that withdraws a command, a restart brings back the state
      before the cleanup: the command is pending again. */
  lemma WithdrawnIsRevived(
    cfg: ManagerConfig, topology: Topology, then_: nat, moments: seq<Moment>, deeds: seq<Deed>, n: nat, now: nat,
    pending: seq<Decision>, active: seq<Decision>)
    requires ValidManagerConfig(cfg) && Life(cfg, topology, then_, moments, deeds) && n < |deeds|
    requires OrderlyTo(moments, deeds, n) && NothingRevoked(moments, deeds, n) && Revokes(moments[n], deeds[n])
    requires multiset(RowsOf(pending, active)) == Stored(moments[n + 1])
    ensures var f := Built(cfg, topology, now);
      && Recoverable(f, pending, active, topology.revision)
      && SameLive(moments[n].state, Replay(f, RowsOf(pending, active)))
      && !SameLive(moments[n + 1].state, Replay(f, RowsOf(pending, active)))
  {
    assert LifeAt(cfg, topology.revision, moments, deeds, n);
    StoredAfter(moments[n], deeds[n]);
    assert Stored(moments[n + 1]) == Stored(moments[n]);
    OrderlyRestartIff(cfg, topology, then_, moments, deeds, n, now, pending, active);
    assert OrderlyAt(moments, deeds, n);
    OrderlyRestartIff(cfg, topology, then_, moments, deeds, n + 1, now, pending, active);
  }
}
