/** The life of a service from the moment its manager was built: the stored rows of commands
    in memory describe the manager throughout, and a stale cleanup leaves rows of commands
    that were withdrawn.  Which restarts succeed, and which bring the live state back. */
module Lives {
  import opened Basics
  import opened Reservations
  import opened Policy
  import opened DispatchSpec
  import opened DispatchManagers
  import opened DispatchRuns
  import opened Restart
  import opened Lifecycle
  import opened Setup
  import opened LiveRows
  import opened Recovery

  /** The manager; the rows of the commands and passages in memory; stray rows, which the
      table stores although their command was withdrawn or their passage replaced by a newer
      one of the train; and the resources whose pending decision has no command. */
  datatype Moment = Moment(state: State, live: seq<Row>, stray: seq<Row>, unfiled: set<string>)

  // A stale train loses its pending command.
  predicate Revokes(m: Moment, deed: Deed) {
    deed.Stale? && HasCommand(m.live, deed.train)
  }

  // An accepted command takes the place of the train's passage in memory.
  predicate Replaces(m: Moment, deed: Deed) {
    deed.Accept? && deed.row < |m.live| && HasPassage(m.live, m.live[deed.row].decision.trainId)
  }

  // A release is for a train that has a pending command already.
  predicate Unfiles(m: Moment, deed: Deed) {
    deed.Issue? && deed.decision.action == Release && HasCommand(m.live, deed.decision.trainId)
  }

  // The row that goes astray.
  function Lost(m: Moment, deed: Deed): (i: nat)
    requires Revokes(m, deed) || Replaces(m, deed)
    ensures i < |m.live|
  {
    if Revokes(m, deed) then CommandRow(m.live, deed.train)
    else PassageRow(m.live, m.live[deed.row].decision.trainId)
  }

  function LiveAfter(m: Moment, deed: Deed): seq<Row> {
    if Revokes(m, deed) || Replaces(m, deed) then Without(RowsAfterDeed(m.live, deed), Lost(m, deed))
    else RowsAfterDeed(m.live, deed)
  }

  function StrayAfter(m: Moment, deed: Deed): seq<Row> {
    if Revokes(m, deed) || Replaces(m, deed) then m.stray + [m.live[Lost(m, deed)]] else m.stray
  }

  function UnfiledAfter(m: Moment, deed: Deed): set<string> {
    if Unfiles(m, deed) then m.unfiled + {deed.resource} else m.unfiled
  }

  function Stored(m: Moment): multiset<Row> {
    multiset(m.live) + multiset(m.stray)
  }

  /** A row that goes astray stays in the table; otherwise a deed changes the table as it
      changes the rows in memory. */
  lemma StoredAfter(m: Moment, deed: Deed)
    ensures multiset(LiveAfter(m, deed)) + multiset(StrayAfter(m, deed))
         == multiset(RowsAfterDeed(m.live, deed)) + multiset(m.stray)
  {
    if Revokes(m, deed) || Replaces(m, deed) {
      WithoutOne(RowsAfterDeed(m.live, deed), Lost(m, deed));
    }
  }

  /** A clear takes a train off the resource of its passage, and off none without one. */
  predicate Traceable(s: State, live: seq<Row>, deed: Deed) {
    deed.Clear? ==>
      if HasPassage(live, deed.train)
      then deed.resource == live[PassageRow(live, deed.train)].decision.resourceId
      else !CanExit(s, deed.resource)
  }

  ghost predicate DeedAt(cfg: ManagerConfig, revision: nat, m: Moment, deed: Deed, next: Moment)
    requires ValidManagerConfig(cfg)
  {
    && GoodLines(m.state) && Possible(cfg, m.state, m.live, deed) && Traceable(m.state, m.live, deed)
    && (deed.Issue? ==> deed.command.topologyRevision == revision)
    && next == Moment(StateAfterDeed(cfg, m.state, m.live, deed),
                      LiveAfter(m, deed), StrayAfter(m, deed), UnfiledAfter(m, deed))
  }

  ghost predicate LifeAt(cfg: ManagerConfig, revision: nat, moments: seq<Moment>, deeds: seq<Deed>, n: nat)
    requires ValidManagerConfig(cfg) && n < |deeds| < |moments|
  {
    DeedAt(cfg, revision, moments[n], deeds[n], moments[n + 1])
  }

  /** A life: any planning, whoever is released, any answers and stale cleanups, and clears
      of passages, in any order. */
  ghost predicate Life(
    cfg: ManagerConfig, topology: Topology, wallNow: nat, moments: seq<Moment>, deeds: seq<Deed>)
    requires ValidManagerConfig(cfg)
  {
    && |moments| == |deeds| + 1 && moments[0] == Moment(Built(cfg, topology, wallNow), [], [], {})
    && forall n | 0 <= n < |deeds| :: LifeAt(cfg, topology.revision, moments, deeds, n)
  }

  lemma LifeGrows(
    cfg: ManagerConfig, topology: Topology, wallNow: nat, moments: seq<Moment>, deeds: seq<Deed>, deed: Deed, next: Moment)
    requires ValidManagerConfig(cfg) && Life(cfg, topology, wallNow, moments, deeds)
    requires DeedAt(cfg, topology.revision, moments[|deeds|], deed, next)
    ensures Life(cfg, topology, wallNow, moments + [next], deeds + [deed])
  {
    var ms, ds := moments + [next], deeds + [deed];
    forall n | 0 <= n < |ds| ensures LifeAt(cfg, topology.revision, ms, ds, n) {
      if n < |deeds| {
        assert LifeAt(cfg, topology.revision, moments, deeds, n);
        assert ms[n] == moments[n] && ms[n + 1] == moments[n + 1] && ds[n] == deeds[n];
      }
    }
  }

  // ----- what every life keeps -----

  // At most one pending and one accepted row for each train.
  ghost predicate OnePerKind(rows: seq<Row>) {
    forall i, j | 0 <= i < j < |rows| && rows[i].accepted == rows[j].accepted ::
      rows[i].decision.trainId != rows[j].decision.trainId
  }

  ghost predicate SafeState(s: State) {
    Safe(s) && SoundBook(s.book) && PendingHasRoom(s)
  }

  /** The manager is safe; each occupancy is the number of stored accepted rows; and the
      pending decisions are those of the rows in memory and of the unfiled resources. */
  ghost predicate Tracked(m: Moment) {
    && SafeState(m.state)
    && CountsRows(m.state.corridors, m.live + m.stray)
    && m.unfiled <= m.state.pending.Keys
    && PendsRows(m.state.corridors, m.state.pending - m.unfiled, m.live)
    && OnePerKind(m.live)
  }

  lemma DeedKeepsSafe(cfg: ManagerConfig, s: State, rows: seq<Row>, deed: Deed)
    requires ValidManagerConfig(cfg) && SafeState(s) && Possible(cfg, s, rows, deed)
    ensures SafeState(StateAfterDeed(cfg, s, rows, deed))
  {
    DeedKeepsRoom(cfg, s, rows, deed);
    match deed
    case Clear(train, r, ixs, now) => LeaveKeepsSafe(cfg, s, r, ixs, train, now);
    case Stale(train) =>
      if HasCommand(rows, train) {
        CancelKeepsSafe(cfg, s, rows[CommandRow(rows, train)].decision.resourceId);
      }
    case _ =>
      var l, t := LabelOf(rows, deed), StateAfterDeed(cfg, s, rows, deed);
      DeedIsStep(cfg, s, rows, deed);
      StepKeepsSafe(cfg, s, l, t);
      StepKeepsSoundBook(cfg, s, l, t);
  }

  lemma CountsSame(corridors: map<string, Corridor>, p: seq<Row>, q: seq<Row>)
    requires CountsRows(corridors, p) && multiset(p) == multiset(q)
    ensures CountsRows(corridors, q)
  {
    forall r | r in corridors ensures corridors[r].occupancy == RowsAt(q, r) {
      RowsAtSame(p, q, r);
    }
  }

  // A row of the first list is changed or removed.
  lemma ChangedFirst(live: seq<Row>, stray: seq<Row>, i: nat, row: Row)
    requires i < |live|
    ensures (live + stray)[i := row] == live[i := row] + stray
    ensures Without(live + stray, i) == Without(live, i) + stray
  {
  }

  // ----- each deed -----

  // Flags apart, nothing happens to the resources.
  ghost predicate SameOccupancy(p: map<string, Corridor>, q: map<string, Corridor>) {
    q.Keys == p.Keys && forall r <- p :: q[r].occupancy == p[r].occupancy
  }

  lemma QuietDeed(m: Moment, next: Moment)
    requires Tracked(m) && SafeState(next.state) && SameOccupancy(m.state.corridors, next.state.corridors)
    requires next.state.pending == m.state.pending
    requires next.live == m.live && next.stray == m.stray && next.unfiled == m.unfiled
    ensures Tracked(next)
  {
  }

  lemma ReleaseFiled(
    corridors: map<string, Corridor>, more: map<string, Corridor>, pending: map<string, Decision>, rows: seq<Row>,
    d: Decision, c: Decision)
    requires PendsRows(corridors, pending, rows) && more.Keys == corridors.Keys && c.resourceId in corridors
    requires c.resourceId !in pending && c.trainId == d.trainId
    ensures PendsRows(more, pending[c.resourceId := d], rows + [Row(c, false)])
  {
    var all, after := rows + [Row(c, false)], pending[c.resourceId := d];
    forall r | r in after ensures exists i :: 0 <= i < |all| && !all[i].accepted && all[i].decision.resourceId == r {
      if r == c.resourceId {
        assert all[|rows|] == Row(c, false);
      } else {
        var i :| 0 <= i < |rows| && !rows[i].accepted && rows[i].decision.resourceId == r;
        assert all[i] == rows[i];
      }
    }
  }

  lemma CountsPending(corridors: map<string, Corridor>, live: seq<Row>, stray: seq<Row>, row: Row)
    requires CountsRows(corridors, live + stray) && !row.accepted
    ensures CountsRows(corridors, live + [row] + stray)
  {
    CountsMore(corridors, live + stray, row);
    CountsSame(corridors, live + stray + [row], live + [row] + stray);
  }

  lemma CountsMore(corridors: map<string, Corridor>, rows: seq<Row>, row: Row)
    requires CountsRows(corridors, rows) && !row.accepted
    ensures CountsRows(corridors, rows + [row])
  {
    var all := rows + [row];
    assert all[..|rows|] == rows;
    forall r | r in corridors ensures corridors[r].occupancy == RowsAt(all, r) {
      assert RowsAt(all, r) == RowsAt(rows, r);
    }
  }

  lemma OneMoreOfKind(rows: seq<Row>, row: Row)
    requires OnePerKind(rows) && RowOf(rows, row.decision.trainId, row.accepted).None?
    ensures OnePerKind(rows + [row])
  {
  }

  lemma IssueTracked(cfg: ManagerConfig, m: Moment, deed: Deed, next: Moment)
    requires ValidManagerConfig(cfg) && Tracked(m) && SafeState(next.state) && deed.Issue?
    requires Possible(cfg, m.state, m.live, deed) && next.state == StateAfterDeed(cfg, m.state, m.live, deed)
    requires next.live == LiveAfter(m, deed) && next.stray == StrayAfter(m, deed) && next.unfiled == UnfiledAfter(m, deed)
    ensures Tracked(next)
  {
    var s, d, r := m.state, deed.decision, deed.resource;
    if d.action == Release {
      ReleaseIsNew(cfg, s, r, deed.simulationNow, deed.wallNow, d);
      ReleaseParts(s, r, deed.simulationNow, d);
      ReleaseTracked(m, d, deed.command, next);
    } else {
      QuietDeed(m, next);
    }
  }

  lemma ReleaseTracked(m: Moment, d: Decision, c: Decision, next: Moment)
    requires Tracked(m) && SafeState(next.state) && c.resourceId == d.resourceId && c.trainId == d.trainId
    requires var r := d.resourceId;
      && r in m.state.corridors && r !in m.state.pending
      && next.state.corridors == m.state.corridors[r := m.state.corridors[r].(commandPending := true)]
      && next.state.pending == m.state.pending[r := d]
    requires next.stray == m.stray
    requires if HasCommand(m.live, d.trainId) then next.live == m.live && next.unfiled == m.unfiled + {d.resourceId}
             else next.live == m.live + [Row(c, false)] && next.unfiled == m.unfiled
    ensures Tracked(next)
  {
    var p, q := m.state.corridors, next.state.corridors;
    SameCounts(p, q, m.live + m.stray);
    if HasCommand(m.live, d.trainId) {
      UnfiledPends(p, q, m.state.pending, m.unfiled, m.live, d);
    } else {
      FiledPends(p, q, m.state.pending, m.unfiled, m.live, d, c);
      CountsPending(q, m.live, m.stray, Row(c, false));
      OneMoreOfKind(m.live, Row(c, false));
    }
  }

  lemma UnfiledPends(
    p: map<string, Corridor>, q: map<string, Corridor>, pending: map<string, Decision>, unfiled: set<string>,
    live: seq<Row>, d: Decision)
    requires PendsRows(p, pending - unfiled, live) && q.Keys == p.Keys && d.resourceId !in pending
    ensures PendsRows(q, pending[d.resourceId := d] - (unfiled + {d.resourceId}), live)
  {
    assert pending[d.resourceId := d] - (unfiled + {d.resourceId}) == pending - unfiled;
  }

  lemma FiledPends(
    p: map<string, Corridor>, q: map<string, Corridor>, pending: map<string, Decision>, unfiled: set<string>,
    live: seq<Row>, d: Decision, c: Decision)
    requires PendsRows(p, pending - unfiled, live) && q.Keys == p.Keys && d.resourceId !in pending
    requires unfiled <= pending.Keys && d.resourceId in p && c.resourceId == d.resourceId && c.trainId == d.trainId
    ensures PendsRows(q, pending[d.resourceId := d] - unfiled, live + [Row(c, false)])
  {
    assert pending[d.resourceId := d] - unfiled == (pending - unfiled)[c.resourceId := d];
    ReleaseFiled(p, q, pending - unfiled, live, d, c);
  }

  lemma SameCounts(p: map<string, Corridor>, q: map<string, Corridor>, rows: seq<Row>)
    requires CountsRows(p, rows) && SameOccupancy(p, q)
    ensures CountsRows(q, rows)
  {
  }

  lemma LivePendingRow(m: Moment, i: nat)
    requires Tracked(m) && i < |m.live| && !m.live[i].accepted
    ensures var d := m.live[i].decision;
      && d.resourceId in m.state.corridors && d.resourceId in m.state.pending && d.resourceId !in m.unfiled
      && m.state.pending[d.resourceId].trainId == d.trainId
      && m.state.corridors[d.resourceId].occupancy < m.state.corridors[d.resourceId].capacity
  {
    var d := m.live[i].decision;
    assert d.resourceId in m.state.pending - m.unfiled;
    assert m.state.corridors[d.resourceId].commandPending;
  }

  lemma AcceptTracked(m: Moment, i: nat, now: nat, next: Moment)
    requires Tracked(m) && i < |m.live| && !m.live[i].accepted && SafeState(next.state)
    requires next.state == Confirmed(m.state, m.live[i].decision.resourceId, m.live[i].decision.trainId, now)
    requires next.live == LiveAfter(m, Accept(i, now)) && next.stray == StrayAfter(m, Accept(i, now))
    requires next.unfiled == m.unfiled
    ensures Tracked(next)
  {
    var d := m.live[i].decision;
    ConfirmedInMemory(m, i, now, next.state);
    var middle := Moment(next.state, m.live[i := Row(d, true)], m.stray, m.unfiled);
    if HasPassage(m.live, d.trainId) {
      ReplacedTracked(m, i, PassageRow(m.live, d.trainId), middle, next);
    } else {
      AcceptedKinds(m.live, i);
    }
  }

  // Everything but the second passage of the train, if there is one.
  ghost predicate NearlyTracked(m: Moment) {
    && SafeState(m.state) && CountsRows(m.state.corridors, m.live + m.stray)
    && m.unfiled <= m.state.pending.Keys
    && PendsRows(m.state.corridors, m.state.pending - m.unfiled, m.live)
  }

  lemma ConfirmedInMemory(m: Moment, i: nat, now: nat, t: State)
    requires Tracked(m) && i < |m.live| && !m.live[i].accepted && SafeState(t)
    requires t == Confirmed(m.state, m.live[i].decision.resourceId, m.live[i].decision.trainId, now)
    ensures NearlyTracked(Moment(t, m.live[i := Row(m.live[i].decision, true)], m.stray, m.unfiled))
  {
    LivePendingRow(m, i);
    ConfirmedTrack(m.state, m.live[i].decision.resourceId, m.live[i].decision.trainId, now);
    AcceptedInMemory(m, i, t);
  }

  lemma AcceptedInMemory(m: Moment, i: nat, t: State)
    requires Tracked(m) && i < |m.live| && !m.live[i].accepted && SafeState(t)
    requires t.corridors.Keys == m.state.corridors.Keys
    requires t.pending == m.state.pending - {m.live[i].decision.resourceId}
    requires forall p <- m.state.corridors ::
      t.corridors[p].occupancy == m.state.corridors[p].occupancy + (if p == m.live[i].decision.resourceId then 1 else 0)
    ensures NearlyTracked(Moment(t, m.live[i := Row(m.live[i].decision, true)], m.stray, m.unfiled))
  {
    LivePendingRow(m, i);
    AcceptedAndStray(m.state.corridors, t.corridors, m.live, m.stray, i);
    NextPends(m.state.corridors, t.corridors, m.state.pending, t.pending, m.unfiled, m.live, i);
  }

  lemma AcceptedAndStray(
    corridors: map<string, Corridor>, more: map<string, Corridor>, live: seq<Row>, stray: seq<Row>, i: nat)
    requires CountsRows(corridors, live + stray) && i < |live| && !live[i].accepted && more.Keys == corridors.Keys
    requires forall p <- corridors ::
      more[p].occupancy == corridors[p].occupancy + (if p == live[i].decision.resourceId then 1 else 0)
    ensures CountsRows(more, live[i := Row(live[i].decision, true)] + stray)
  {
    assert (live + stray)[i] == live[i];
    ChangedFirst(live, stray, i, Row(live[i].decision, true));
    AcceptedCounts(corridors, more, live + stray, i);
  }

  lemma NextPends(
    corridors: map<string, Corridor>, more: map<string, Corridor>, pending: map<string, Decision>,
    left: map<string, Decision>, unfiled: set<string>, live: seq<Row>, i: nat)
    requires PendsRows(corridors, pending - unfiled, live) && OneCommandPerTrain(live) && i < |live|
    requires more.Keys == corridors.Keys && !live[i].accepted && left == pending - {live[i].decision.resourceId}
    ensures PendsRows(more, left - unfiled, live[i := Row(live[i].decision, true)])
  {
    AcceptedPends(corridors, more, pending - unfiled, live, i);
    assert left - unfiled == pending - unfiled - {live[i].decision.resourceId};
  }

  lemma AcceptedKinds(rows: seq<Row>, i: nat)
    requires OnePerKind(rows) && i < |rows| && !rows[i].accepted && !HasPassage(rows, rows[i].decision.trainId)
    ensures OnePerKind(rows[i := Row(rows[i].decision, true)])
  {
  }

  lemma ReplacedKinds(rows: seq<Row>, i: nat, j: nat)
    requires OnePerKind(rows) && i < |rows| && j < |rows| && !rows[i].accepted && rows[j].accepted
    requires rows[j].decision.trainId == rows[i].decision.trainId
    ensures OnePerKind(Without(rows[i := Row(rows[i].decision, true)], j))
  {
    var all := rows[i := Row(rows[i].decision, true)];
    var rest := Without(all, j);
    forall a, b | 0 <= a < b < |rest| && rest[a].accepted == rest[b].accepted
      ensures rest[a].decision.trainId != rest[b].decision.trainId
    {
      KindsApart(rows, i, j, if a < j then a else a + 1, if b < j then b else b + 1);
    }
  }

  lemma KindsApart(rows: seq<Row>, i: nat, j: nat, a: nat, b: nat)
    requires OnePerKind(rows) && i < |rows| && j < |rows| && !rows[i].accepted && rows[j].accepted
    requires rows[j].decision.trainId == rows[i].decision.trainId && a < b < |rows| && a != j && b != j
    requires var all := rows[i := Row(rows[i].decision, true)]; all[a].accepted == all[b].accepted
    ensures rows[a].decision.trainId != rows[b].decision.trainId
  {
    if a == i || b == i {
      var c := if a == i then b else a;
      assert rows[c].accepted;
      assert c < j ==> rows[c].decision.trainId != rows[j].decision.trainId;
      assert j < c ==> rows[j].decision.trainId != rows[c].decision.trainId;
    }
  }

  lemma ReplacedTracked(m: Moment, i: nat, j: nat, middle: Moment, next: Moment)
    requires OnePerKind(m.live) && i < |m.live| && j < |m.live| && !m.live[i].accepted && m.live[j].accepted
    requires m.live[j].decision.trainId == m.live[i].decision.trainId
    requires NearlyTracked(middle) && middle.live == m.live[i := Row(m.live[i].decision, true)]
    requires next == Moment(middle.state, Without(middle.live, j), middle.stray + [m.live[j]], middle.unfiled)
    ensures Tracked(next)
  {
    var p := middle.state.pending - middle.unfiled;
    ReplacedKinds(m.live, i, j);
    WithoutOne(middle.live, j);
    CountsSame(middle.state.corridors, middle.live + middle.stray, next.live + next.stray);
    PassageGone(middle.state.corridors, p, middle.live, j);
  }

  lemma PassageGone(corridors: map<string, Corridor>, pending: map<string, Decision>, rows: seq<Row>, j: nat)
    requires PendsRows(corridors, pending, rows) && j < |rows| && rows[j].accepted
    ensures PendsRows(corridors, pending, Without(rows, j))
  {
    var rest := Without(rows, j);
    forall r | r in pending
      ensures exists i :: 0 <= i < |rest| && !rest[i].accepted && rest[i].decision.resourceId == r
    {
      var i :| 0 <= i < |rows| && !rows[i].accepted && rows[i].decision.resourceId == r;
      assert rest[if i < j then i else i - 1] == rows[i];
    }
  }

  lemma KindsWithout(rows: seq<Row>, i: nat)
    requires OnePerKind(rows) && i < |rows|
    ensures OnePerKind(Without(rows, i))
  {
  }

  // A pending row leaves memory, together with its pending decision; it may stay stored.
  lemma WithdrawnTracked(m: Moment, i: nat, next: Moment)
    requires Tracked(m) && i < |m.live| && !m.live[i].accepted && SafeState(next.state)
    requires next.state == PendingCancelled(m.state, m.live[i].decision.resourceId)
    requires next.live == Without(m.live, i) && next.unfiled == m.unfiled
    requires next.stray == m.stray || next.stray == m.stray + [m.live[i]]
    ensures Tracked(next)
  {
    LivePendingRow(m, i);
    CancelledTrack(m.state, m.live[i].decision.resourceId);
    WithdrawnCounts(m.state.corridors, next.state.corridors, m.live, m.stray, i, next.stray);
    WithdrawnPends(m.state.corridors, next.state.corridors, m.state.pending, next.state.pending, m.unfiled, m.live, i);
    KindsWithout(m.live, i);
  }

  lemma WithdrawnCounts(
    corridors: map<string, Corridor>, less: map<string, Corridor>, live: seq<Row>, stray: seq<Row>, i: nat,
    more: seq<Row>)
    requires CountsRows(corridors, live + stray) && i < |live| && !live[i].accepted && SameOccupancy(corridors, less)
    requires more == stray || more == stray + [live[i]]
    ensures CountsRows(less, Without(live, i) + more)
  {
    assert (live + stray)[i] == live[i];
    RemovedCounts(corridors, less, live + stray, i);
    ChangedFirst(live, stray, i, live[i]);
    if more != stray {
      CountsMore(less, Without(live, i) + stray, live[i]);
      assert Without(live, i) + more == Without(live, i) + stray + [live[i]];
    }
  }

  lemma WithdrawnPends(
    corridors: map<string, Corridor>, less: map<string, Corridor>, pending: map<string, Decision>,
    left: map<string, Decision>, unfiled: set<string>, live: seq<Row>, i: nat)
    requires PendsRows(corridors, pending - unfiled, live) && OneCommandPerTrain(live) && i < |live|
    requires less.Keys == corridors.Keys && !live[i].accepted && left == pending - {live[i].decision.resourceId}
    ensures PendsRows(less, left - unfiled, Without(live, i))
  {
    RemovedPends(corridors, less, pending - unfiled, live, i);
    assert left - unfiled == pending - unfiled - {live[i].decision.resourceId};
  }

  lemma CancelledTrack(s: State, r: string)
    requires r in s.pending && r in s.corridors
    ensures var t := PendingCancelled(s, r);
      SameOccupancy(s.corridors, t.corridors) && t.pending == s.pending - {r}
  {
  }

  lemma ClearTracked(m: Moment, train: string, ixs: seq<string>, now: nat, i: nat, next: Moment)
    requires Tracked(m) && i < |m.live| && m.live[i].accepted && SafeState(next.state)
    requires next.state == LeftState(m.state, m.live[i].decision.resourceId, ixs, train, now)
    requires next.live == Without(m.live, i) && next.stray == m.stray && next.unfiled == m.unfiled
    ensures Tracked(next)
  {
    var s, t, r := m.state, next.state, m.live[i].decision.resourceId;
    assert (m.live + m.stray)[i] == m.live[i];
    AcceptedRowCounts(m.live + m.stray, i);
    ExitedTrack(s, r, t);
    RemovedCounts(s.corridors, t.corridors, m.live + m.stray, i);
    ChangedFirst(m.live, m.stray, i, m.live[i]);
    RemovedPends(s.corridors, t.corridors, s.pending - m.unfiled, m.live, i);
    KindsWithout(m.live, i);
  }

  lemma ExitedTrack(s: State, r: string, t: State)
    requires GoodCorridors(s) && r in s.corridors && s.corridors[r].occupancy > 0
    requires t.corridors == (if r == "" then s else Exited(s, r)).corridors
    ensures t.corridors.Keys == s.corridors.Keys
    ensures forall p <- s.corridors ::
      t.corridors[p].occupancy == s.corridors[p].occupancy - (if p == r then 1 else 0)
  {
  }

  lemma DeedKeepsTracked(cfg: ManagerConfig, revision: nat, m: Moment, deed: Deed, next: Moment)
    requires ValidManagerConfig(cfg) && Tracked(m) && DeedAt(cfg, revision, m, deed, next)
    ensures Tracked(next)
  {
    DeedKeepsSafe(cfg, m.state, m.live, deed);
    match deed
    case Refresh(_, _, _) => AnswerTracked(cfg, revision, m, deed, next);
    case Issue(_, _, _, _, _) => IssueTracked(cfg, m, deed, next);
    case Accept(_, _) => AcceptanceTracked(cfg, revision, m, deed, next);
    case Reject(_) => AnswerTracked(cfg, revision, m, deed, next);
    case Clear(_, _, _, _) => LeavingTracked(cfg, revision, m, deed, next);
    case Stale(_) => LeavingTracked(cfg, revision, m, deed, next);
  }

  lemma AnswerTracked(cfg: ManagerConfig, revision: nat, m: Moment, deed: Deed, next: Moment)
    requires ValidManagerConfig(cfg) && Tracked(m) && DeedAt(cfg, revision, m, deed, next) && SafeState(next.state)
    requires deed.Refresh? || deed.Reject?
    ensures Tracked(next)
  {
    match deed
    case Refresh(_, _, _) => QuietDeed(m, next);
    case Reject(i) => WithdrawnTracked(m, i, next);
    case _ =>
  }

  lemma AcceptanceTracked(cfg: ManagerConfig, revision: nat, m: Moment, deed: Deed, next: Moment)
    requires ValidManagerConfig(cfg) && Tracked(m) && DeedAt(cfg, revision, m, deed, next) && SafeState(next.state)
    requires deed.Accept?
    ensures Tracked(next)
  {
    AcceptTracked(m, deed.row, deed.now, next);
  }

  lemma LeavingTracked(cfg: ManagerConfig, revision: nat, m: Moment, deed: Deed, next: Moment)
    requires ValidManagerConfig(cfg) && Tracked(m) && DeedAt(cfg, revision, m, deed, next) && SafeState(next.state)
    requires deed.Clear? || deed.Stale?
    ensures Tracked(next)
  {
    match deed
    case Clear(train, r, ixs, now) =>
      if HasPassage(m.live, train) {
        ClearTracked(m, train, ixs, now, PassageRow(m.live, train), next);
      } else {
        QuietDeed(m, next);
      }
    case Stale(train) =>
      if HasCommand(m.live, train) {
        WithdrawnTracked(m, CommandRow(m.live, train), next);
      }
    case _ =>
  }

  // ----- what holds at every moment -----

  ghost predicate AllOfRevision(rows: seq<Row>, revision: nat) {
    forall i | 0 <= i < |rows| :: rows[i].decision.topologyRevision == revision
  }

  lemma BuiltTracked(cfg: ManagerConfig, topology: Topology, now: nat)
    requires ValidManagerConfig(cfg)
    ensures Tracked(Moment(Built(cfg, topology, now), [], [], {}))
  {
    BuiltIsSafe(cfg, topology, now);
    BuiltFromTopology(cfg, topology, now);
  }

  lemma DeedKeepsRevision(m: Moment, deed: Deed, revision: nat)
    requires AllOfRevision(m.live, revision) && AllOfRevision(m.stray, revision)
    requires deed.Issue? ==> deed.command.topologyRevision == revision
    ensures AllOfRevision(LiveAfter(m, deed), revision) && AllOfRevision(StrayAfter(m, deed), revision)
  {
  }

  lemma DeedKeepsRebuilt(cfg: ManagerConfig, revision: nat, f: State, m: Moment, deed: Deed, next: Moment)
    requires ValidManagerConfig(cfg) && Rebuilt(m.state, f) && DeedAt(cfg, revision, m, deed, next)
    ensures Rebuilt(next.state, f)
  {
    DeedKeepsTopology(cfg, m.state, m.live, deed);
  }

  ghost predicate AllSensible(f: State, rows: seq<Row>) {
    forall i | 0 <= i < |rows| :: Sensible(f, rows[i].decision)
  }

  // The stored rows are of the revision and name known trains, resources and movements.
  ghost predicate GoodRows(f: State, m: Moment, revision: nat) {
    && AllOfRevision(m.live, revision) && AllOfRevision(m.stray, revision)
    && AllSensible(f, m.live) && AllSensible(f, m.stray)
  }

  ghost predicate Followed(f: State, m: Moment, revision: nat) {
    Tracked(m) && GoodRows(f, m, revision) && Rebuilt(m.state, f)
  }

  lemma ReleaseIsSensible(
    cfg: ManagerConfig, f: State, s: State, r: string, now: nat, wallNow: nat, d: Decision, c: Decision)
    requires ValidManagerConfig(cfg) && Safe(s) && Rebuilt(s, f) && PlanResult(cfg, s, r, now, wallNow, d)
    requires d.action == Release && CommandFor(c, d, now)
    ensures Sensible(f, c)
  {
    ReleaseIsNew(cfg, s, r, now, wallNow, d);
    PlannedReleaseIsReservable(cfg, s, r, now, wallNow, d);
  }

  lemma DeedKeepsSensible(cfg: ManagerConfig, f: State, m: Moment, deed: Deed)
    requires ValidManagerConfig(cfg) && Safe(m.state) && Rebuilt(m.state, f) && Possible(cfg, m.state, m.live, deed)
    requires AllSensible(f, m.live) && AllSensible(f, m.stray)
    ensures AllSensible(f, LiveAfter(m, deed)) && AllSensible(f, StrayAfter(m, deed))
  {
    if deed.Issue? && deed.decision.action == Release {
      ReleaseIsSensible(
        cfg, f, m.state, deed.resource, deed.simulationNow, deed.wallNow, deed.decision, deed.command);
    }
    StrayIsKept(m, deed);
    forall i | 0 <= i < |LiveAfter(m, deed)| ensures Sensible(f, LiveAfter(m, deed)[i].decision) {
      LiveIsOldOrNew(m, deed, i);
    }
  }

  lemma StrayIsKept(m: Moment, deed: Deed)
    ensures forall i | 0 <= i < |StrayAfter(m, deed)| ::
      StrayAfter(m, deed)[i] in m.stray || StrayAfter(m, deed)[i] in m.live
  {
  }

  lemma LiveIsOldOrNew(m: Moment, deed: Deed, i: nat)
    requires i < |LiveAfter(m, deed)|
    ensures (exists j :: 0 <= j < |m.live| && m.live[j].decision == LiveAfter(m, deed)[i].decision)
            || (deed.Issue? && deed.decision.action == Release && LiveAfter(m, deed)[i].decision == deed.command)
  {
    var rows := RowsAfterDeed(m.live, deed);
    var k := if (Revokes(m, deed) || Replaces(m, deed)) && i >= Lost(m, deed) then i + 1 else i;
    assert LiveAfter(m, deed)[i] == rows[k];
  }

  /** At every moment of every life, whoever is released and whatever becomes stale: the
      manager is safe, occupancies count the stored accepted rows, pending decisions are those
      of the commands in memory and of the unfiled resources, and resources and movements are
      the topology's. */
  lemma {:induction false} AlwaysFollowed(
    cfg: ManagerConfig, topology: Topology, then_: nat, moments: seq<Moment>, deeds: seq<Deed>, n: nat, now: nat)
    requires ValidManagerConfig(cfg) && Life(cfg, topology, then_, moments, deeds) && n <= |deeds|
    ensures Followed(Built(cfg, topology, now), moments[n], topology.revision)
  {
    if n == 0 {
      BuiltTracked(cfg, topology, then_);
      BuiltAgain(cfg, topology, then_, now);
    } else {
      AlwaysFollowed(cfg, topology, then_, moments, deeds, n - 1, now);
      assert LifeAt(cfg, topology.revision, moments, deeds, n - 1);
      DeedKeepsFollowed(cfg, Built(cfg, topology, now), topology.revision, moments[n - 1], deeds[n - 1], moments[n]);
    }
  }

  lemma DeedKeepsFollowed(cfg: ManagerConfig, f: State, revision: nat, m: Moment, deed: Deed, next: Moment)
    requires ValidManagerConfig(cfg) && Followed(f, m, revision) && DeedAt(cfg, revision, m, deed, next)
    ensures Followed(f, next, revision)
  {
    DeedKeepsTracked(cfg, revision, m, deed, next);
    DeedKeepsRevision(m, deed, revision);
    DeedKeepsSensible(cfg, f, m, deed);
    DeedKeepsRebuilt(cfg, revision, f, m, deed, next);
  }
}
