/** The stored rows of unfinished commands against the manager's state: exactly which deeds
    of the service keep them a description of it. */
module LiveRows {
  import opened Basics
  import opened Reservations
  import opened Policy
  import opened DispatchSpec
  import opened DispatchManagers
  import opened DispatchRuns
  import opened Restart
  import opened Lifecycle
  import opened Setup

  function Without(rows: seq<Row>, i: nat): (rest: seq<Row>)
    requires i < |rows|
    ensures |rest| == |rows| - 1
    ensures forall j | 0 <= j < |rest| :: rest[j] == rows[if j < i then j else j + 1]
  {
    rows[..i] + rows[i + 1..]
  }

  // ----- the book without one train -----

  // `c` is `b` without the reservations of `train`.
  ghost predicate TrainRemoved(b: Book, c: Book, train: string) {
    && c.movements == b.movements && c.intersections.Keys == b.intersections.Keys
    && forall ix <- b.intersections ::
         c.intersections[ix].active == b.intersections[ix].active - HeldBy(b.intersections[ix].active, train)
  }

  // Whether the row's movement is still held once the train of row `i` is removed.
  lemma RemovedHolds(b: Book, c: Book, rows: seq<Row>, i: nat, ix: string, k: string)
    requires ActiveIsRows(b, rows) && OnePassagePerTrain(rows) && i < |rows| && ix in b.intersections
    requires TrainRemoved(b, c, rows[i].decision.trainId)
    ensures k in c.intersections[ix].active <==> HeldBySome(c, Without(rows, i), ix, k)
  {
    var rest, train := Without(rows, i), rows[i].decision.trainId;
    var was := b.intersections[ix].active;
    if k in c.intersections[ix].active {
      assert k in was && was[k].trainId != train;
      var j :| 0 <= j < |rows| && RowHolds(b, rows[j], ix, k);
      assert was[k].trainId == rows[j].decision.trainId;
      assert RowHolds(c, rest[if j < i then j else j - 1], ix, k);
    }
    if HeldBySome(c, rest, ix, k) {
      var j :| 0 <= j < |rest| && RowHolds(c, rest[j], ix, k);
      var m := if j < i then j else j + 1;
      assert RowHolds(b, rows[m], ix, k) && was[k].trainId == rows[m].decision.trainId;
    }
  }

  lemma RemovedBook(b: Book, c: Book, rows: seq<Row>, i: nat)
    requires BookIsRows(b, rows) && i < |rows| && SoundBook(c)
    requires TrainRemoved(b, c, rows[i].decision.trainId)
    ensures BookIsRows(c, Without(rows, i))
  {
    var rest := Without(rows, i);
    forall ix, k | ix in c.intersections ensures k in c.intersections[ix].active <==> HeldBySome(c, rest, ix, k) {
      RemovedHolds(b, c, rows, i, ix, k);
    }
    forall ix, j, k | ix in c.intersections && 0 <= j < |rest| && RowHolds(c, rest[j], ix, k)
      ensures c.intersections[ix].active[k] == Reservation(ix, k, rest[j].decision.trainId, rest[j].decision.issuedAt)
    {
      RemovedHolds(b, c, rows, i, ix, k);
      assert RowHolds(b, rows[if j < i then j else j + 1], ix, k);
    }
  }

  lemma CancelRemoves(b: Book, train: string)
    ensures TrainRemoved(b, Cancelled(b, train), train)
  {
  }

  lemma {:induction false} ClearedAllEffect(b: Book, ixs: seq<string>, train: string, now: nat)
    ensures var c := ClearedAll(b, ixs, train, now);
      && c.movements == b.movements && c.intersections.Keys == b.intersections.Keys
      && forall ix <- b.intersections ::
           c.intersections[ix].active ==
             if ix in ixs then b.intersections[ix].active - HeldBy(b.intersections[ix].active, train)
             else b.intersections[ix].active
  {
    if ixs != [] {
      var front, last := ixs[..|ixs| - 1], ixs[|ixs| - 1];
      ClearedAllEffect(b, front, train, now);
      assert ixs == front + [last];
      forall ix | ix in b.intersections
        ensures ClearedAll(b, ixs, train, now).intersections[ix].active ==
          if ix in ixs then b.intersections[ix].active - HeldBy(b.intersections[ix].active, train)
          else b.intersections[ix].active
      {
        RemovedTwice(b.intersections[ix].active, train);
      }
    }
  }

  lemma RemovedTwice(active: map<string, Reservation>, train: string)
    ensures var once := active - HeldBy(active, train); once - HeldBy(once, train) == once
  {
    var once := active - HeldBy(active, train);
    assert HeldBy(once, train) == {};
  }

  // Clearing all intersections of a train's one passage removes the train.
  lemma ClearRemoves(b: Book, rows: seq<Row>, i: nat, ixs: seq<string>, now: nat)
    requires BookIsRows(b, rows) && i < |rows| && CoversPassage(b, rows[i], ixs)
    ensures TrainRemoved(b, ClearedAll(b, ixs, rows[i].decision.trainId, now), rows[i].decision.trainId)
  {
    var train := rows[i].decision.trainId;
    ClearedAllEffect(b, ixs, train, now);
    forall ix | ix in b.intersections && ix !in ixs ensures HeldBy(b.intersections[ix].active, train) == {} {
      HeldOnlyOnPassage(b, rows, i, ixs, ix);
    }
  }

  lemma HeldOnlyOnPassage(b: Book, rows: seq<Row>, i: nat, ixs: seq<string>, ix: string)
    requires ActiveIsRows(b, rows) && OnePassagePerTrain(rows) && i < |rows| && CoversPassage(b, rows[i], ixs)
    requires ix in b.intersections && ix !in ixs
    ensures HeldBy(b.intersections[ix].active, rows[i].decision.trainId) == {}
  {
    forall k | k in b.intersections[ix].active
      ensures b.intersections[ix].active[k].trainId != rows[i].decision.trainId
    {
      var j :| 0 <= j < |rows| && RowHolds(b, rows[j], ix, k);
      assert b.intersections[ix].active[k].trainId == rows[j].decision.trainId;
    }
  }

  /** The cleared intersections are all those of the passage. */
  predicate CoversPassage(b: Book, row: Row, ixs: seq<string>) {
    forall k <- row.decision.movementIds :: k in b.movements ==> b.movements[k].intersectionId in ixs
  }

  // ----- the track without one row -----

  lemma {:induction false} RowsAtWithout(rows: seq<Row>, i: nat, r: string)
    requires i < |rows|
    ensures RowsAt(rows, r)
         == RowsAt(Without(rows, i), r) + (if rows[i].accepted && rows[i].decision.resourceId == r then 1 else 0)
  {
    if i == |rows| - 1 {
      assert Without(rows, i) == rows[..i];
    } else {
      var front := rows[..|rows| - 1];
      RowsAtWithout(front, i, r);
      assert Without(rows, i)[..|rows| - 2] == Without(front, i);
    }
  }

  lemma {:induction false} RowsAtAccepted(rows: seq<Row>, i: nat, r: string)
    requires i < |rows| && !rows[i].accepted
    ensures RowsAt(rows[i := Row(rows[i].decision, true)], r)
         == RowsAt(rows, r) + (if rows[i].decision.resourceId == r then 1 else 0)
  {
    var next := rows[i := Row(rows[i].decision, true)];
    if i == |rows| - 1 {
      assert next[..i] == rows[..i];
    } else {
      var front := rows[..|rows| - 1];
      RowsAtAccepted(front, i, r);
      assert next[..|rows| - 1] == front[i := Row(rows[i].decision, true)];
    }
  }

  // ----- what the service does -----

  // A clear names the train, the resource and the intersections that were worked out for it.
  datatype Deed =
    | Refresh(resource: string, candidates: seq<Candidate>, wallNow: nat)
    | Issue(resource: string, simulationNow: nat, wallNow: nat, decision: Decision, command: Decision)
    | Accept(row: nat, now: nat)
    | Reject(row: nat)
    | Clear(train: string, resource: string, intersections: seq<string>, now: nat)
    | Stale(train: string)

  // Where the train's pending or accepted row is.
  function RowOf(rows: seq<Row>, train: string, accepted: bool): (i: Option<nat>)
    ensures i.Some? ==>
      i.value < |rows| && rows[i.value].decision.trainId == train && rows[i.value].accepted == accepted
    ensures i.None? ==> forall j | 0 <= j < |rows| && rows[j].accepted == accepted :: rows[j].decision.trainId != train
  {
    if rows == [] then None
    else if rows[|rows| - 1].decision.trainId == train && rows[|rows| - 1].accepted == accepted then Some(|rows| - 1)
    else RowOf(rows[..|rows| - 1], train, accepted)
  }

  predicate HasCommand(rows: seq<Row>, train: string) {
    RowOf(rows, train, false).Some?
  }

  predicate HasPassage(rows: seq<Row>, train: string) {
    RowOf(rows, train, true).Some?
  }

  function CommandRow(rows: seq<Row>, train: string): (i: nat)
    requires HasCommand(rows, train)
    ensures i < |rows| && rows[i].decision.trainId == train && !rows[i].accepted
  {
    RowOf(rows, train, false).value
  }

  function PassageRow(rows: seq<Row>, train: string): (i: nat)
    requires HasPassage(rows, train)
    ensures i < |rows| && rows[i].decision.trainId == train && rows[i].accepted
  {
    RowOf(rows, train, true).value
  }

  predicate Unengaged(rows: seq<Row>, train: string) {
    !HasCommand(rows, train) && !HasPassage(rows, train)
  }

  // The command issued for the release.
  predicate CommandFor(c: Decision, d: Decision, now: nat) {
    && c.resourceId == d.resourceId && c.trainId == d.trainId && c.movementIds == d.movementIds
    && c.issuedAt == now
  }

  /** What the service may do: plan with any result, answer a pending row, clear any train
      anywhere, and drop any train as stale. */
  ghost predicate Possible(cfg: ManagerConfig, s: State, rows: seq<Row>, deed: Deed)
    requires ValidManagerConfig(cfg) && GoodLines(s)
  {
    match deed
    case Refresh(_, _, _) => true
    case Issue(r, now, wallNow, d, c) =>
      PlanResult(cfg, s, r, now, wallNow, d) && (d.action == Release ==> CommandFor(c, d, now))
    case Accept(i, _) => i < |rows| && !rows[i].accepted
    case Reject(i) => i < |rows| && !rows[i].accepted
    case Clear(_, _, _, _) => true
    case Stale(_) => true
  }

  ghost function StateAfterDeed(cfg: ManagerConfig, s: State, rows: seq<Row>, deed: Deed): State
    requires ValidManagerConfig(cfg) && GoodLines(s) && Possible(cfg, s, rows, deed)
  {
    match deed
    case Refresh(r, cs, wallNow) => Replaced(s, r, cs, wallNow)
    case Issue(r, now, _, d, _) => Planned(s, r, now, d)
    case Accept(i, now) => Confirmed(s, rows[i].decision.resourceId, rows[i].decision.trainId, now)
    case Reject(i) => PendingCancelled(s, rows[i].decision.resourceId)
    case Clear(train, r, ixs, now) => LeftState(s, r, ixs, train, now)
    case Stale(train) =>
      if HasCommand(rows, train) then PendingCancelled(s, rows[CommandRow(rows, train)].decision.resourceId) else s
  }

  /** The unfinished rows that stay stored.  A release becomes a row unless its train has a
      pending one, a clear closes the row of the train's passage whatever it freed, and
      nothing is stored when a train is dropped as stale. */
  function RowsAfterDeed(rows: seq<Row>, deed: Deed): seq<Row> {
    match deed
    case Refresh(_, _, _) => rows
    case Issue(_, _, _, d, c) =>
      if d.action == Release && !HasCommand(rows, d.trainId) then rows + [Row(c, false)] else rows
    case Accept(i, _) => if i < |rows| then rows[i := Row(rows[i].decision, true)] else rows
    case Reject(i) => if i < |rows| then Without(rows, i) else rows
    case Clear(train, _, _, _) => if HasPassage(rows, train) then Without(rows, PassageRow(rows, train)) else rows
    case Stale(_) => rows
  }

  /** A release is for a train without an unfinished command, a clear is for a whole passage
      or else frees nothing, and a train dropped as stale has no pending command. */
  ghost predicate Orderly(s: State, rows: seq<Row>, deed: Deed) {
    match deed
    case Refresh(_, _, _) => true
    case Issue(_, _, _, d, _) => d.action == Release ==> Unengaged(rows, d.trainId)
    case Accept(_, _) => true
    case Reject(_) => true
    case Clear(train, r, ixs, now) =>
      if HasPassage(rows, train) then
        var row := rows[PassageRow(rows, train)];
        r == row.decision.resourceId && CoversPassage(s.book, row, ixs)
      else !CanLeave(s, r, ixs, train, now)
    case Stale(train) => !HasCommand(rows, train)
  }

  /** The rows describe the live state, and every pending command has room for its train. */
  ghost predicate Described(s: State, rows: seq<Row>) {
    Snapshot(s, rows) && PendingHasRoom(s)
  }

  // ----- each deed keeps the rows exact -----

  lemma RefreshKeepsSnapshot(cfg: ManagerConfig, s: State, rows: seq<Row>, r: string, cs: seq<Candidate>, wallNow: nat)
    requires ValidManagerConfig(cfg) && Snapshot(s, rows)
    ensures Snapshot(Replaced(s, r, cs, wallNow), rows)
  {
    var l := Replace(r, cs, wallNow);
    assert Step(cfg, s, l, Next(cfg, s, l));
    StepKeepsSafe(cfg, s, l, Next(cfg, s, l));
  }

  lemma IssuedTrack(s: State, rows: seq<Row>, r: string, d: Decision, c: Decision, t: State)
    requires TrackIsRows(s, rows) && r in s.corridors && r !in s.pending && c.resourceId == r && c.trainId == d.trainId
    requires t.corridors == s.corridors[r := s.corridors[r].(commandPending := true)] && t.pending == s.pending[r := d]
    ensures TrackIsRows(t, rows + [Row(c, false)])
  {
    var more := rows + [Row(c, false)];
    forall p | p in t.corridors ensures t.corridors[p].occupancy == RowsAt(more, p) {
      assert more[..|rows|] == rows;
    }
    forall p | p in t.pending
      ensures exists i :: 0 <= i < |more| && !more[i].accepted && more[i].decision.resourceId == p
    {
      if p == r {
        assert more[|rows|].decision.resourceId == p;
      } else {
        var i :| 0 <= i < |rows| && !rows[i].accepted && rows[i].decision.resourceId == p;
        assert more[i] == rows[i];
      }
    }
  }

  lemma IssuedBook(b: Book, rows: seq<Row>, c: Decision, t: Book)
    requires BookIsRows(b, rows) && c.trainId != "" && Reservable(b, c.movementIds, c.issuedAt)
    requires forall i | 0 <= i < |rows| :: rows[i].decision.trainId != c.trainId
    requires t == Reserved(b, c.trainId, c.movementIds, c.issuedAt) && SoundBook(t)
    ensures BookIsRows(t, rows + [Row(c, false)])
  {
    ReserveRow(b, rows, Row(c, false));
    var more := rows + [Row(c, false)];
    forall i, k | 0 <= i < |more| && k in more[i].decision.movementIds ensures k in t.movements {
      if i < |rows| {
        assert more[i] == rows[i];
      }
    }
  }

  lemma PlanKeepsSafe(cfg: ManagerConfig, s: State, r: string, now: nat, wallNow: nat, d: Decision, t: State)
    requires ValidManagerConfig(cfg) && Safe(s) && SoundBook(s.book)
    requires PlanResult(cfg, s, r, now, wallNow, d) && t == Planned(s, r, now, d)
    ensures Safe(t) && SoundBook(t.book)
  {
    var l := Plan(r, now, wallNow, d);
    assert Step(cfg, s, l, t);
    StepKeepsSafe(cfg, s, l, t);
    StepKeepsSoundBook(cfg, s, l, t);
  }

  lemma ReleaseKeepsSnapshot(
    cfg: ManagerConfig, s: State, rows: seq<Row>, r: string, now: nat, wallNow: nat, d: Decision, c: Decision, t: State)
    requires ValidManagerConfig(cfg) && Snapshot(s, rows) && Safe(t) && SoundBook(t.book)
    requires PlanResult(cfg, s, r, now, wallNow, d) && t == Planned(s, r, now, d)
    requires d.action == Release && CommandFor(c, d, now) && Unengaged(rows, d.trainId)
    ensures Snapshot(t, rows + [Row(c, false)])
  {
    ReleaseIsNew(cfg, s, r, now, wallNow, d);
    PlannedReleaseIsReservable(cfg, s, r, now, wallNow, d);
    ReleaseParts(s, r, now, d);
    IssuedTrack(s, rows, r, d, c, t);
    IssuedBook(s.book, rows, c, t.book);
  }

  lemma ReleaseParts(s: State, r: string, now: nat, d: Decision)
    requires GoodLines(s) && r in s.corridors && d.action == Release
    ensures var t := Planned(s, r, now, d);
      && t.corridors == s.corridors[r := s.corridors[r].(commandPending := true)] && t.pending == s.pending[r := d]
      && t.book == Reserved(s.book, d.trainId, d.movementIds, now)
  {
  }

  lemma IssueKeepsSnapshot(
    cfg: ManagerConfig, s: State, rows: seq<Row>, r: string, now: nat, wallNow: nat, d: Decision, c: Decision)
    requires ValidManagerConfig(cfg) && Snapshot(s, rows) && PlanResult(cfg, s, r, now, wallNow, d)
    requires d.action == Release ==> CommandFor(c, d, now) && Unengaged(rows, d.trainId)
    ensures Snapshot(Planned(s, r, now, d), RowsAfterDeed(rows, Issue(r, now, wallNow, d, c)))
  {
    var t := Planned(s, r, now, d);
    PlanKeepsSafe(cfg, s, r, now, wallNow, d, t);
    if d.action == Release {
      ReleaseKeepsSnapshot(cfg, s, rows, r, now, wallNow, d, c, t);
    }
  }

  // Each resource's occupancy is the number of its accepted rows.
  ghost predicate CountsRows(corridors: map<string, Corridor>, rows: seq<Row>) {
    forall r <- corridors :: corridors[r].occupancy == RowsAt(rows, r)
  }

  // Rows are for known resources, and pending rows match the pending decisions.
  ghost predicate PendsRows(corridors: map<string, Corridor>, pending: map<string, Decision>, rows: seq<Row>) {
    && (forall i | 0 <= i < |rows| :: rows[i].decision.resourceId in corridors)
    && (forall i | 0 <= i < |rows| && !rows[i].accepted ::
          && rows[i].decision.resourceId in pending
          && pending[rows[i].decision.resourceId].trainId == rows[i].decision.trainId)
    && forall r <- pending :: exists i :: 0 <= i < |rows| && !rows[i].accepted && rows[i].decision.resourceId == r
  }

  ghost predicate OneCommandPerTrain(rows: seq<Row>) {
    forall i, j | 0 <= i < j < |rows| && !rows[i].accepted && !rows[j].accepted ::
      rows[i].decision.trainId != rows[j].decision.trainId
  }

  lemma TrackParts(s: State, rows: seq<Row>)
    ensures TrackIsRows(s, rows) <==> CountsRows(s.corridors, rows) && PendsRows(s.corridors, s.pending, rows)
  {
  }

  lemma AcceptedCounts(corridors: map<string, Corridor>, more: map<string, Corridor>, rows: seq<Row>, i: nat)
    requires CountsRows(corridors, rows) && i < |rows| && !rows[i].accepted && more.Keys == corridors.Keys
    requires forall p <- corridors ::
      more[p].occupancy == corridors[p].occupancy + (if p == rows[i].decision.resourceId then 1 else 0)
    ensures CountsRows(more, rows[i := Row(rows[i].decision, true)])
  {
    forall p | p in more ensures more[p].occupancy == RowsAt(rows[i := Row(rows[i].decision, true)], p) {
      RowsAtAccepted(rows, i, p);
    }
  }

  lemma AcceptedPends(corridors: map<string, Corridor>, more: map<string, Corridor>, pending: map<string, Decision>,
                      rows: seq<Row>, i: nat)
    requires PendsRows(corridors, pending, rows) && OneCommandPerTrain(rows) && i < |rows| && !rows[i].accepted
    requires more.Keys == corridors.Keys
    ensures PendsRows(more, pending - {rows[i].decision.resourceId}, rows[i := Row(rows[i].decision, true)])
  {
    var next, left := rows[i := Row(rows[i].decision, true)], pending - {rows[i].decision.resourceId};
    forall j | 0 <= j < |next| && !next[j].accepted
      ensures next[j].decision.resourceId in left
      ensures left[next[j].decision.resourceId].trainId == next[j].decision.trainId
    {
      assert next[j] == rows[j] && rows[j].decision.trainId != rows[i].decision.trainId;
    }
    forall p | p in left
      ensures exists j :: 0 <= j < |next| && !next[j].accepted && next[j].decision.resourceId == p
    {
      var j :| 0 <= j < |rows| && !rows[j].accepted && rows[j].decision.resourceId == p;
      assert next[j] == rows[j];
    }
  }

  lemma SameDecisionsSameBook(b: Book, rows: seq<Row>, next: seq<Row>)
    requires BookIsRows(b, rows) && |next| == |rows|
    requires forall i | 0 <= i < |rows| :: next[i].decision == rows[i].decision
    ensures BookIsRows(b, next)
  {
    forall ix, k | ix in b.intersections ensures HeldBySome(b, next, ix, k) <==> HeldBySome(b, rows, ix, k) {
      if i :| 0 <= i < |rows| && RowHolds(b, rows[i], ix, k) {
        assert RowHolds(b, next[i], ix, k);
      }
      if i :| 0 <= i < |next| && RowHolds(b, next[i], ix, k) {
        assert RowHolds(b, rows[i], ix, k);
      }
    }
    forall ix, i, k | ix in b.intersections && 0 <= i < |next| && RowHolds(b, next[i], ix, k)
      ensures b.intersections[ix].active[k]
           == Reservation(ix, k, next[i].decision.trainId, next[i].decision.issuedAt)
    {
      assert RowHolds(b, rows[i], ix, k);
    }
  }

  lemma AcceptKeepsSnapshot(cfg: ManagerConfig, s: State, rows: seq<Row>, i: nat, now: nat)
    requires ValidManagerConfig(cfg) && Described(s, rows) && i < |rows| && !rows[i].accepted
    ensures Snapshot(Confirmed(s, rows[i].decision.resourceId, rows[i].decision.trainId, now),
                     rows[i := Row(rows[i].decision, true)])
  {
    var d := rows[i].decision;
    PendingRowHasRoom(s, rows, i);
    ConfirmKeepsSafe(cfg, s, d.resourceId, d.trainId, now);
    AcceptedTrack(s, rows, i, now);
    SameDecisionsSameBook(s.book, rows, rows[i := Row(d, true)]);
  }

  lemma PendingRowHasRoom(s: State, rows: seq<Row>, i: nat)
    requires Described(s, rows) && i < |rows| && !rows[i].accepted
    ensures var r := rows[i].decision.resourceId;
      r in s.corridors && s.corridors[r].occupancy < s.corridors[r].capacity
  {
    var r := rows[i].decision.resourceId;
    assert r in s.corridors && r in s.pending && s.corridors[r].commandPending;
  }

  lemma ConfirmKeepsSafe(cfg: ManagerConfig, s: State, r: string, train: string, now: nat)
    requires ValidManagerConfig(cfg) && Safe(s)
    ensures Safe(Confirmed(s, r, train, now)) && Confirmed(s, r, train, now).book == s.book
  {
    var l, t := Confirm(r, train, now), Confirmed(s, r, train, now);
    assert Step(cfg, s, l, t);
    StepKeepsSafe(cfg, s, l, t);
  }

  lemma AcceptedTrack(s: State, rows: seq<Row>, i: nat, now: nat)
    requires TrackIsRows(s, rows) && OnePassagePerTrain(rows) && i < |rows| && !rows[i].accepted
    requires var r := rows[i].decision.resourceId;
      r in s.corridors && s.corridors[r].occupancy < s.corridors[r].capacity
    ensures TrackIsRows(Confirmed(s, rows[i].decision.resourceId, rows[i].decision.trainId, now),
                        rows[i := Row(rows[i].decision, true)])
  {
    var d := rows[i].decision;
    var t := Confirmed(s, d.resourceId, d.trainId, now);
    TrackParts(s, rows);
    TrackParts(t, rows[i := Row(d, true)]);
    ConfirmedTrack(s, d.resourceId, d.trainId, now);
    AcceptedCounts(s.corridors, t.corridors, rows, i);
    AcceptedPends(s.corridors, t.corridors, s.pending, rows, i);
  }

  lemma ConfirmedTrack(s: State, r: string, train: string, now: nat)
    requires CanConfirm(s, r, train) && s.corridors[r].occupancy < s.corridors[r].capacity
    ensures var t := Confirmed(s, r, train, now);
      && t.corridors.Keys == s.corridors.Keys && t.pending == s.pending - {r} && t.book == s.book
      && forall p <- s.corridors ::
           t.corridors[p].occupancy == s.corridors[p].occupancy + (if p == r then 1 else 0)
  {
  }

  // A row goes; a pending one takes its pending decision along, an accepted one its place.
  lemma RemovedCounts(corridors: map<string, Corridor>, less: map<string, Corridor>, rows: seq<Row>, i: nat)
    requires CountsRows(corridors, rows) && i < |rows| && less.Keys == corridors.Keys
    requires forall p <- corridors ::
      less[p].occupancy ==
        corridors[p].occupancy - (if p == rows[i].decision.resourceId && rows[i].accepted then 1 else 0)
    ensures CountsRows(less, Without(rows, i))
  {
    forall p | p in less ensures less[p].occupancy == RowsAt(Without(rows, i), p) {
      RowsAtWithout(rows, i, p);
    }
  }

  // What is left of the pending decisions without row `i`.
  function Remaining(pending: map<string, Decision>, row: Row): map<string, Decision> {
    if row.accepted then pending else pending - {row.decision.resourceId}
  }

  lemma RemovedPends(corridors: map<string, Corridor>, less: map<string, Corridor>, pending: map<string, Decision>,
                     rows: seq<Row>, i: nat)
    requires PendsRows(corridors, pending, rows) && OneCommandPerTrain(rows) && i < |rows|
    requires less.Keys == corridors.Keys
    ensures PendsRows(less, Remaining(pending, rows[i]), Without(rows, i))
  {
    var rest, left := Without(rows, i), Remaining(pending, rows[i]);
    forall j | 0 <= j < |rest| && !rest[j].accepted
      ensures rest[j].decision.resourceId in left
      ensures left[rest[j].decision.resourceId].trainId == rest[j].decision.trainId
    {
      RemovedRowPends(corridors, pending, rows, i, if j < i then j else j + 1);
    }
    forall p | p in left
      ensures exists j :: 0 <= j < |rest| && !rest[j].accepted && rest[j].decision.resourceId == p
    {
      var _ := RemainingHasRow(corridors, pending, rows, i, p);
    }
  }

  lemma RemainingHasRow(
    corridors: map<string, Corridor>, pending: map<string, Decision>, rows: seq<Row>, i: nat, p: string)
    returns (j: nat)
    requires PendsRows(corridors, pending, rows) && i < |rows| && p in Remaining(pending, rows[i])
    ensures j < |rows| - 1 && !Without(rows, i)[j].accepted && Without(rows, i)[j].decision.resourceId == p
  {
    var k :| 0 <= k < |rows| && !rows[k].accepted && rows[k].decision.resourceId == p;
    j := if k < i then k else k - 1;
  }

  lemma RemovedRowPends(
    corridors: map<string, Corridor>, pending: map<string, Decision>, rows: seq<Row>, i: nat, j: nat)
    requires PendsRows(corridors, pending, rows) && OneCommandPerTrain(rows) && i < |rows| && j < |rows| && i != j
    requires !rows[j].accepted
    ensures var left, d := Remaining(pending, rows[i]), rows[j].decision;
      d.resourceId in left && left[d.resourceId].trainId == d.trainId
  {
    assert !rows[i].accepted ==> rows[j].decision.trainId != rows[i].decision.trainId;
  }

  lemma RejectKeepsSnapshot(cfg: ManagerConfig, s: State, rows: seq<Row>, i: nat)
    requires ValidManagerConfig(cfg) && Snapshot(s, rows) && i < |rows| && !rows[i].accepted
    ensures Snapshot(PendingCancelled(s, rows[i].decision.resourceId), Without(rows, i))
  {
    var r, train := rows[i].decision.resourceId, rows[i].decision.trainId;
    CancelKeepsSafe(cfg, s, r);
    RejectedTrack(s, rows, i);
    CancelRemoves(s.book, train);
    assert s.pending[r].trainId == train;
    RemovedBook(s.book, PendingCancelled(s, r).book, rows, i);
  }

  lemma CancelKeepsSafe(cfg: ManagerConfig, s: State, r: string)
    requires ValidManagerConfig(cfg) && Safe(s) && SoundBook(s.book)
    ensures Safe(PendingCancelled(s, r)) && SoundBook(PendingCancelled(s, r).book)
  {
    var l, t := CancelPending(r), PendingCancelled(s, r);
    assert Step(cfg, s, l, t);
    StepKeepsSafe(cfg, s, l, t);
    StepKeepsSoundBook(cfg, s, l, t);
  }

  lemma RejectedTrack(s: State, rows: seq<Row>, i: nat)
    requires TrackIsRows(s, rows) && OnePassagePerTrain(rows) && i < |rows| && !rows[i].accepted
    ensures TrackIsRows(PendingCancelled(s, rows[i].decision.resourceId), Without(rows, i))
  {
    var t := PendingCancelled(s, rows[i].decision.resourceId);
    TrackParts(s, rows);
    TrackParts(t, Without(rows, i));
    RemovedCounts(s.corridors, t.corridors, rows, i);
    RemovedPends(s.corridors, t.corridors, s.pending, rows, i);
  }

  lemma {:induction false} ClearsKeepSafe(cfg: ManagerConfig, s: State, ixs: seq<string>, train: string, now: nat)
    requires ValidManagerConfig(cfg) && Safe(s) && SoundBook(s.book)
    ensures var t := s.(book := ClearedAll(s.book, ixs, train, now)); Safe(t) && SoundBook(t.book)
  {
    if ixs != [] {
      var front, last := ixs[..|ixs| - 1], ixs[|ixs| - 1];
      ClearsKeepSafe(cfg, s, front, train, now);
      ClearKeepsSafe(cfg, s.(book := ClearedAll(s.book, front, train, now)), last, train, now);
    } else {
      assert s.(book := ClearedAll(s.book, ixs, train, now)) == s;
    }
  }

  lemma ClearKeepsSafe(cfg: ManagerConfig, s: State, ix: string, train: string, now: nat)
    requires ValidManagerConfig(cfg) && Safe(s) && SoundBook(s.book)
    ensures var t := s.(book := Cleared(s.book, ix, train, now)); Safe(t) && SoundBook(t.book)
  {
    var l, t := ClearIntersection(ix, train, now), s.(book := Cleared(s.book, ix, train, now));
    assert Step(cfg, s, l, t);
    StepKeepsSafe(cfg, s, l, t);
    StepKeepsSoundBook(cfg, s, l, t);
  }

  lemma {:induction false} AcceptedRowCounts(rows: seq<Row>, i: nat)
    requires i < |rows| && rows[i].accepted
    ensures RowsAt(rows, rows[i].decision.resourceId) > 0
  {
    RowsAtWithout(rows, i, rows[i].decision.resourceId);
  }

  lemma ClearKeepsSnapshot(cfg: ManagerConfig, s: State, rows: seq<Row>, i: nat, ixs: seq<string>, now: nat)
    requires ValidManagerConfig(cfg) && Snapshot(s, rows)
    requires i < |rows| && rows[i].accepted && CoversPassage(s.book, rows[i], ixs)
    ensures Snapshot(LeftState(s, rows[i].decision.resourceId, ixs, rows[i].decision.trainId, now), Without(rows, i))
  {
    var d := rows[i].decision;
    LeaveKeepsSafe(cfg, s, d.resourceId, ixs, d.trainId, now);
    assert d.resourceId in s.corridors && d.resourceId != "";
    ClearedTrack(s, rows, i, LeftState(s, d.resourceId, ixs, d.trainId, now));
    ClearRemoves(s.book, rows, i, ixs, now);
    RemovedBook(s.book, ClearedAll(s.book, ixs, d.trainId, now), rows, i);
  }

  lemma LeaveKeepsSafe(cfg: ManagerConfig, s: State, r: string, ixs: seq<string>, train: string, now: nat)
    requires ValidManagerConfig(cfg) && Safe(s) && SoundBook(s.book)
    ensures var t := LeftState(s, r, ixs, train, now); Safe(t) && SoundBook(t.book)
  {
    var e := if r == "" then s else Exited(s, r);
    if r != "" {
      assert Step(cfg, s, Exit(r), e);
      StepKeepsSafe(cfg, s, Exit(r), e);
    }
    ClearsKeepSafe(cfg, e, ixs, train, now);
  }

  lemma ClearedTrack(s: State, rows: seq<Row>, i: nat, t: State)
    requires TrackIsRows(s, rows) && OnePassagePerTrain(rows) && i < |rows| && rows[i].accepted
    requires t.corridors == Exited(s, rows[i].decision.resourceId).corridors && t.pending == s.pending
    ensures TrackIsRows(t, Without(rows, i))
  {
    AcceptedRowCounts(rows, i);
    TrackParts(s, rows);
    TrackParts(t, Without(rows, i));
    RemovedCounts(s.corridors, t.corridors, rows, i);
    RemovedPends(s.corridors, t.corridors, s.pending, rows, i);
  }

  // The manager call behind a deed other than a clear and a cleanup.
  ghost function LabelOf(rows: seq<Row>, deed: Deed): Label
    requires !deed.Clear? && !deed.Stale? && (deed.Accept? || deed.Reject? ==> deed.row < |rows|)
  {
    match deed
    case Refresh(r, cs, wallNow) => Replace(r, cs, wallNow)
    case Issue(r, now, wallNow, d, _) => Plan(r, now, wallNow, d)
    case Accept(i, now) => Confirm(rows[i].decision.resourceId, rows[i].decision.trainId, now)
    case Reject(i) => CancelPending(rows[i].decision.resourceId)
  }

  lemma DeedIsStep(cfg: ManagerConfig, s: State, rows: seq<Row>, deed: Deed)
    requires ValidManagerConfig(cfg) && GoodLines(s) && Possible(cfg, s, rows, deed)
    requires !deed.Clear? && !deed.Stale?
    ensures StateAfterDeed(cfg, s, rows, deed) == Next(cfg, s, LabelOf(rows, deed))
    ensures Step(cfg, s, LabelOf(rows, deed), StateAfterDeed(cfg, s, rows, deed))
  {
  }

  lemma StepGivesRoom(cfg: ManagerConfig, s: State, l: Label, t: State)
    requires ValidManagerConfig(cfg) && Safe(s) && PendingHasRoom(s) && Step(cfg, s, l, t)
    requires !l.Upsert? && !l.RestorePending? && !l.RestoreActive?
    ensures PendingHasRoom(t)
  {
    StepMoves(cfg, s, l, t);
    StepKeepsStructural(cfg, s, l, t);
    StepKeepsRoom(cfg, s, l, t);
  }

  lemma DeedKeepsRoom(cfg: ManagerConfig, s: State, rows: seq<Row>, deed: Deed)
    requires ValidManagerConfig(cfg) && Safe(s) && PendingHasRoom(s) && Possible(cfg, s, rows, deed)
    ensures PendingHasRoom(StateAfterDeed(cfg, s, rows, deed))
  {
    match deed
    case Clear(_, r, _, _) => StepGivesRoom(cfg, s, Exit(r), Exited(s, r));
    case Stale(train) =>
      if HasCommand(rows, train) {
        var r := rows[CommandRow(rows, train)].decision.resourceId;
        StepGivesRoom(cfg, s, CancelPending(r), PendingCancelled(s, r));
      }
    case _ =>
      DeedIsStep(cfg, s, rows, deed);
      StepGivesRoom(cfg, s, LabelOf(rows, deed), StateAfterDeed(cfg, s, rows, deed));
  }

  lemma OrderlyKeepsSnapshot(cfg: ManagerConfig, s: State, rows: seq<Row>, deed: Deed)
    requires ValidManagerConfig(cfg) && Described(s, rows)
    requires Possible(cfg, s, rows, deed) && Orderly(s, rows, deed)
    ensures Snapshot(StateAfterDeed(cfg, s, rows, deed), RowsAfterDeed(rows, deed))
  {
    match deed
    case Refresh(r, cs, wallNow) => RefreshKeepsSnapshot(cfg, s, rows, r, cs, wallNow);
    case Issue(r, now, wallNow, d, c) => IssueKeepsSnapshot(cfg, s, rows, r, now, wallNow, d, c);
    case Accept(i, now) => AcceptKeepsSnapshot(cfg, s, rows, i, now);
    case Reject(i) => RejectKeepsSnapshot(cfg, s, rows, i);
    case Clear(train, r, ixs, now) =>
      if HasPassage(rows, train) {
        ClearKeepsSnapshot(cfg, s, rows, PassageRow(rows, train), ixs, now);
      } else {
        IdleClearKeepsSnapshot(cfg, s, rows, r, ixs, train, now);
      }
    case Stale(_) =>
  }

  // ----- clears that find nothing -----

  lemma {:induction false} AnyHeldIff(b: Book, ixs: seq<string>, train: string, now: nat)
    ensures AnyHeld(b, ixs, train, now) <==> exists ix :: ix in ixs && HoldsAt(b, ix, train)
  {
    if ixs != [] {
      var front, last := ixs[..|ixs| - 1], ixs[|ixs| - 1];
      assert ixs == front + [last];
      AnyHeldIff(b, front, train, now);
      ClearedAllEffect(b, front, train, now);
      if last !in front {
        assert HoldsAt(ClearedAll(b, front, train, now), last, train) <==> HoldsAt(b, last, train);
      } else if last in b.intersections {
        RemovedTwice(b.intersections[last].active, train);
        NothingHeldTwice(b.intersections[last].active, train);
      }
    }
  }

  lemma NothingHeldTwice(active: map<string, Reservation>, train: string)
    ensures HeldBy(active - HeldBy(active, train), train) == {}
  {
  }

  lemma IdleClearKeepsActive(b: Book, ixs: seq<string>, train: string, now: nat, ix: string)
    requires !AnyHeld(b, ixs, train, now) && ix in b.intersections
    ensures ClearedAll(b, ixs, train, now).intersections.Keys == b.intersections.Keys
    ensures ClearedAll(b, ixs, train, now).intersections[ix].active == b.intersections[ix].active
  {
    AnyHeldIff(b, ixs, train, now);
    ClearedAllEffect(b, ixs, train, now);
    if ix in ixs {
      assert !HoldsAt(b, ix, train);
    }
  }

  // The same reservations are held by the same rows.
  lemma SameActiveSameRows(b: Book, c: Book, rows: seq<Row>)
    requires ActiveIsRows(b, rows) && c.movements == b.movements && c.intersections.Keys == b.intersections.Keys
    requires forall ix <- b.intersections :: c.intersections[ix].active == b.intersections[ix].active
    ensures ActiveIsRows(c, rows)
  {
    forall ix, k | ix in c.intersections ensures k in c.intersections[ix].active <==> HeldBySome(c, rows, ix, k) {
      HeldAlike(b, c, rows, ix, k);
    }
    forall ix, i, k | ix in c.intersections && 0 <= i < |rows| && RowHolds(c, rows[i], ix, k)
      ensures c.intersections[ix].active[k] == Reservation(ix, k, rows[i].decision.trainId, rows[i].decision.issuedAt)
    {
      assert RowHolds(b, rows[i], ix, k);
    }
  }

  lemma HeldAlike(b: Book, c: Book, rows: seq<Row>, ix: string, k: string)
    requires c.movements == b.movements
    ensures HeldBySome(c, rows, ix, k) <==> HeldBySome(b, rows, ix, k)
  {
    if i :| 0 <= i < |rows| && RowHolds(b, rows[i], ix, k) {
      assert RowHolds(c, rows[i], ix, k);
    }
    if i :| 0 <= i < |rows| && RowHolds(c, rows[i], ix, k) {
      assert RowHolds(b, rows[i], ix, k);
    }
  }

  lemma IdleClearKeepsSnapshot(
    cfg: ManagerConfig, s: State, rows: seq<Row>, r: string, ixs: seq<string>, train: string, now: nat)
    requires ValidManagerConfig(cfg) && Snapshot(s, rows) && !CanLeave(s, r, ixs, train, now)
    ensures Snapshot(LeftState(s, r, ixs, train, now), rows)
  {
    LeaveKeepsSafe(cfg, s, r, ixs, train, now);
    ClearedAllEffect(s.book, ixs, train, now);
    forall ix | ix in s.book.intersections {
      IdleClearKeepsActive(s.book, ixs, train, now, ix);
    }
    SameActiveSameRows(s.book, ClearedAll(s.book, ixs, train, now), rows);
  }

  // ----- deeds after which the rows are wrong -----

  lemma RereleaseBreaksRows(
    cfg: ManagerConfig, s: State, rows: seq<Row>, r: string, now: nat, wallNow: nat, d: Decision, c: Decision)
    requires ValidManagerConfig(cfg) && Snapshot(s, rows) && PlanResult(cfg, s, r, now, wallNow, d)
    requires d.action == Release && CommandFor(c, d, now) && !Unengaged(rows, d.trainId)
    ensures !Snapshot(Planned(s, r, now, d), RowsAfterDeed(rows, Issue(r, now, wallNow, d, c)))
  {
    if !HasCommand(rows, d.trainId) {
      SecondRow(rows, PassageRow(rows, d.trainId), Row(c, false));
    } else {
      SecondRelease(cfg, s, rows, r, now, wallNow, d);
    }
  }

  lemma SecondRelease(cfg: ManagerConfig, s: State, rows: seq<Row>, r: string, now: nat, wallNow: nat, d: Decision)
    requires ValidManagerConfig(cfg) && Safe(s) && TrackIsRows(s, rows)
    requires PlanResult(cfg, s, r, now, wallNow, d) && d.action == Release
    ensures !TrackIsRows(Planned(s, r, now, d), rows)
  {
    ReleaseIsNew(cfg, s, r, now, wallNow, d);
    ReleaseParts(s, r, now, d);
    UnfiledPending(s, Planned(s, r, now, d), rows, r);
  }

  lemma SecondRow(rows: seq<Row>, i: nat, row: Row)
    requires i < |rows| && rows[i].decision.trainId == row.decision.trainId
    ensures !OnePassagePerTrain(rows + [row])
  {
    assert (rows + [row])[i] == rows[i] && (rows + [row])[|rows|] == row;
  }

  lemma UnfiledPending(s: State, t: State, rows: seq<Row>, r: string)
    requires TrackIsRows(s, rows) && r !in s.pending && r in t.pending
    ensures !TrackIsRows(t, rows)
  {
    assert forall i | 0 <= i < |rows| && !rows[i].accepted :: rows[i].decision.resourceId != r;
  }

  lemma PartialClearBreaksRows(
    s: State, rows: seq<Row>, i: nat, r: string, ixs: seq<string>, now: nat)
    requires Snapshot(s, rows) && i < |rows| && rows[i].accepted
    requires r != rows[i].decision.resourceId || !CoversPassage(s.book, rows[i], ixs)
    ensures !Snapshot(LeftState(s, r, ixs, rows[i].decision.trainId, now), Without(rows, i))
  {
    var d := rows[i].decision;
    if r != d.resourceId {
      RowsAtWithout(rows, i, d.resourceId);
      assert d.resourceId in s.corridors;
    } else {
      var k :| k in d.movementIds && k in s.book.movements && s.book.movements[k].intersectionId !in ixs;
      LeftBehind(s.book, rows, i, ixs, now, k);
    }
  }

  // A movement of the passage at an intersection that is not cleared stays reserved.
  lemma LeftBehind(b: Book, rows: seq<Row>, i: nat, ixs: seq<string>, now: nat, k: string)
    requires BookIsRows(b, rows) && i < |rows|
    requires k in rows[i].decision.movementIds && k in b.movements && b.movements[k].intersectionId !in ixs
    ensures !ActiveIsRows(ClearedAll(b, ixs, rows[i].decision.trainId, now), Without(rows, i))
  {
    var ix, train := b.movements[k].intersectionId, rows[i].decision.trainId;
    var c, rest := ClearedAll(b, ixs, train, now), Without(rows, i);
    ClearedAllEffect(b, ixs, train, now);
    assert RowHolds(b, rows[i], ix, k) && HeldBySome(b, rows, ix, k);
    assert b.intersections[ix].active[k].trainId == train && k in c.intersections[ix].active;
    forall j | 0 <= j < |rest| ensures !RowHolds(c, rest[j], ix, k) {
      HeldByOneRow(b, rows, i, if j < i then j else j + 1, ix, k);
    }
  }

  lemma HeldByOneRow(b: Book, rows: seq<Row>, i: nat, j: nat, ix: string, k: string)
    requires ActiveIsRows(b, rows) && OnePassagePerTrain(rows) && i < |rows| && j < |rows| && i != j
    requires ix in b.intersections && RowHolds(b, rows[i], ix, k)
    ensures !RowHolds(b, rows[j], ix, k)
  {
    assert rows[i].decision.trainId != rows[j].decision.trainId;
    assert b.intersections[ix].active[k].trainId == rows[i].decision.trainId;
  }

  lemma StrayClearBreaksRows(s: State, rows: seq<Row>, r: string, ixs: seq<string>, train: string, now: nat)
    requires Snapshot(s, rows) && CanLeave(s, r, ixs, train, now)
    ensures !Snapshot(LeftState(s, r, ixs, train, now), rows)
  {
    var t := LeftState(s, r, ixs, train, now);
    if r != "" && CanExit(s, r) {
      assert t.corridors[r].occupancy != RowsAt(rows, r);
    } else {
      AnyHeldIff(s.book, ixs, train, now);
      var ix :| ix in ixs && HoldsAt(s.book, ix, train);
      ClearedAllEffect(s.book, ixs, train, now);
      var k :| k in HeldBy(s.book.intersections[ix].active, train);
      HeldAlike(s.book, t.book, rows, ix, k);
      assert HeldBySome(s.book, rows, ix, k);
    }
  }

  lemma StaleBreaksRows(s: State, rows: seq<Row>, train: string)
    requires Snapshot(s, rows) && HasCommand(rows, train)
    ensures !Snapshot(PendingCancelled(s, rows[CommandRow(rows, train)].decision.resourceId), rows)
  {
    var d := rows[CommandRow(rows, train)].decision;
    assert d.resourceId !in PendingCancelled(s, d.resourceId).pending;
  }

  /** Exactly when a deed keeps the stored rows a description of the manager. */
  lemma DeedKeepsRowsIff(cfg: ManagerConfig, s: State, rows: seq<Row>, deed: Deed)
    requires ValidManagerConfig(cfg) && Described(s, rows) && Possible(cfg, s, rows, deed)
    ensures Described(StateAfterDeed(cfg, s, rows, deed), RowsAfterDeed(rows, deed)) <==> Orderly(s, rows, deed)
  {
    DeedKeepsRoom(cfg, s, rows, deed);
    if Orderly(s, rows, deed) {
      OrderlyKeepsSnapshot(cfg, s, rows, deed);
    } else {
      match deed
      case Issue(r, now, wallNow, d, c) => RereleaseBreaksRows(cfg, s, rows, r, now, wallNow, d, c);
      case Clear(train, r, ixs, now) =>
        if HasPassage(rows, train) {
          PartialClearBreaksRows(s, rows, PassageRow(rows, train), r, ixs, now);
        } else {
          StrayClearBreaksRows(s, rows, r, ixs, train, now);
        }
      case Stale(train) => StaleBreaksRows(s, rows, train);
    }
  }

  /** A clear for a place where the train holds nothing closes its row and frees nothing:
      the train's passage is then in the manager and in no row. */
  lemma ClearOfNothingClosesRow(
    cfg: ManagerConfig, s: State, rows: seq<Row>, i: nat, r: string, ixs: seq<string>, now: nat)
    requires ValidManagerConfig(cfg) && Described(s, rows) && i < |rows| && rows[i].accepted
    requires r !in s.corridors && forall ix <- ixs :: ix !in s.book.intersections
    ensures var deed := Clear(rows[i].decision.trainId, r, ixs, now);
      && StateAfterDeed(cfg, s, rows, deed) == s && RowsAfterDeed(rows, deed) == Without(rows, i)
      && !Described(s, Without(rows, i))
  {
    var deed := Clear(rows[i].decision.trainId, r, ixs, now);
    var j := PassageRow(rows, rows[i].decision.trainId);
    assert j == i;
    NothingCleared(s.book, ixs, rows[i].decision.trainId, now);
    DeedKeepsRowsIff(cfg, s, rows, deed);
  }

  lemma {:induction false} NothingCleared(b: Book, ixs: seq<string>, train: string, now: nat)
    requires forall ix <- ixs :: ix !in b.intersections
    ensures ClearedAll(b, ixs, train, now) == b
  {
    if ixs != [] {
      NothingCleared(b, ixs[..|ixs| - 1], train, now);
      assert ixs[|ixs| - 1] in ixs;
    }
  }

  ghost predicate SameResources(p: map<string, Corridor>, q: map<string, Corridor>) {
    && q.Keys == p.Keys
    && forall r <- p :: q[r].corridorId == p[r].corridorId && q[r].capacity == p[r].capacity
  }

  predicate SameCrossings(b: Book, c: Book) {
    c.movements == b.movements && c.intersections.Keys == b.intersections.Keys
  }

  ghost predicate SameTopology(s: State, t: State) {
    SameResources(s.corridors, t.corridors) && SameCrossings(s.book, t.book)
  }

  // A call that is not part of setup leaves the topology alone.
  lemma StepKeepsResources(cfg: ManagerConfig, s: State, l: Label)
    requires GoodLines(s) && !l.Upsert?
    ensures SameResources(s.corridors, Next(cfg, s, l).corridors)
  {
  }

  lemma StepKeepsCrossings(cfg: ManagerConfig, s: State, l: Label)
    requires GoodLines(s) && !l.RegisterMovement?
    ensures SameCrossings(s.book, Next(cfg, s, l).book)
  {
  }

  lemma DeedKeepsTopology(cfg: ManagerConfig, s: State, rows: seq<Row>, deed: Deed)
    requires ValidManagerConfig(cfg) && GoodLines(s) && Possible(cfg, s, rows, deed)
    ensures SameTopology(s, StateAfterDeed(cfg, s, rows, deed))
  {
    match deed
    case Clear(train, r, ixs, now) => ClearKeepsTopology(s, r, ixs, train, now);
    case Stale(train) =>
      if HasCommand(rows, train) {
        CancelKeepsTopology(cfg, s, rows[CommandRow(rows, train)].decision.resourceId);
      }
    case _ =>
      DeedIsStep(cfg, s, rows, deed);
      StepKeepsResources(cfg, s, LabelOf(rows, deed));
      StepKeepsCrossings(cfg, s, LabelOf(rows, deed));
  }

  lemma CancelKeepsTopology(cfg: ManagerConfig, s: State, r: string)
    requires GoodLines(s)
    ensures SameTopology(s, PendingCancelled(s, r))
  {
    StepKeepsResources(cfg, s, CancelPending(r));
    StepKeepsCrossings(cfg, s, CancelPending(r));
  }

  lemma ClearKeepsTopology(s: State, r: string, ixs: seq<string>, train: string, now: nat)
    ensures SameTopology(s, LeftState(s, r, ixs, train, now))
  {
    ClearedAllEffect(s.book, ixs, train, now);
  }

  // ----- the order of the rows does not matter -----

  lemma {:induction false} RowsAtSame(p: seq<Row>, q: seq<Row>, r: string)
    requires multiset(p) == multiset(q)
    ensures RowsAt(p, r) == RowsAt(q, r)
  {
    if p == [] {
      assert |multiset(q)| == 0 && q == [];
    } else {
      var last := p[|p| - 1];
      assert last in multiset(p) && last in q;
      var j :| 0 <= j < |q| && q[j] == last;
      WithoutOne(q, j);
      WithoutOne(p, |p| - 1);
      assert Without(p, |p| - 1) == p[..|p| - 1];
      RowsAtSame(p[..|p| - 1], Without(q, j), r);
      RowsAtWithout(q, j, r);
    }
  }

  lemma WithoutOne(rows: seq<Row>, i: nat)
    requires i < |rows|
    ensures multiset(Without(rows, i)) == multiset(rows) - multiset{rows[i]}
  {
    assert rows == rows[..i] + [rows[i]] + rows[i + 1..];
  }

  lemma CountedOnce(rows: seq<Row>, i: nat)
    requires OnePassagePerTrain(rows) && i < |rows|
    ensures multiset(rows)[rows[i]] == 1
  {
    WithoutOne(rows, i);
    forall j | 0 <= j < |Without(rows, i)| ensures Without(rows, i)[j] != rows[i] {
      assert Without(rows, i)[j].decision.trainId != rows[i].decision.trainId;
    }
    assert rows[i] in multiset(rows) && rows[i] !in multiset(Without(rows, i));
  }

  lemma CountedTwice(rows: seq<Row>, i: nat, j: nat)
    requires i < j < |rows| && rows[i] == rows[j]
    ensures multiset(rows)[rows[i]] >= 2
  {
    WithoutOne(rows, i);
    assert Without(rows, i)[j - 1] == rows[i];
    assert rows[i] in multiset(Without(rows, i));
  }

  lemma OnceEach(rows: seq<Row>, other: seq<Row>, i: nat, j: nat)
    requires OnePassagePerTrain(rows) && multiset(rows) == multiset(other) && i < j < |other|
    ensures other[i].decision.trainId != other[j].decision.trainId
  {
    assert other[i] in multiset(other) && other[j] in multiset(other);
    var a :| 0 <= a < |rows| && rows[a] == other[i];
    var b :| 0 <= b < |rows| && rows[b] == other[j];
    assert a < b || b < a ==> rows[a].decision.trainId != rows[b].decision.trainId;
    CountedOnce(rows, a);
    if other[i] == other[j] {
      CountedTwice(other, i, j);
    }
  }

  lemma SameRows(rows: seq<Row>, other: seq<Row>)
    requires multiset(rows) == multiset(other)
    ensures forall row :: row in rows <==> row in other
  {
    forall row ensures row in rows <==> row in other {
      assert row in rows <==> row in multiset(rows);
    }
  }

  lemma ReorderedTrack(s: State, rows: seq<Row>, other: seq<Row>)
    requires TrackIsRows(s, rows) && multiset(rows) == multiset(other)
    ensures TrackIsRows(s, other)
  {
    SameRows(rows, other);
    forall i | 0 <= i < |other| ensures other[i] in rows {
    }
    forall r | r in s.pending
      ensures exists i :: 0 <= i < |other| && !other[i].accepted && other[i].decision.resourceId == r
    {
      var i :| 0 <= i < |rows| && !rows[i].accepted && rows[i].decision.resourceId == r;
      assert rows[i] in other;
    }
    forall r | r in s.corridors ensures s.corridors[r].occupancy == RowsAt(other, r) {
      RowsAtSame(rows, other, r);
    }
  }

  lemma ReorderedBook(b: Book, rows: seq<Row>, other: seq<Row>)
    requires BookIsRows(b, rows) && multiset(rows) == multiset(other)
    ensures BookIsRows(b, other)
  {
    SameRows(rows, other);
    forall i | 0 <= i < |other| ensures other[i] in rows {
    }
    forall i, j | 0 <= i < j < |other| ensures other[i].decision.trainId != other[j].decision.trainId {
      OnceEach(rows, other, i, j);
    }
    forall ix, k | ix in b.intersections ensures HeldBySome(b, other, ix, k) <==> HeldBySome(b, rows, ix, k) {
      if i :| 0 <= i < |rows| && RowHolds(b, rows[i], ix, k) {
        assert rows[i] in other;
        var j :| 0 <= j < |other| && other[j] == rows[i];
        assert RowHolds(b, other[j], ix, k);
      }
      if i :| 0 <= i < |other| && RowHolds(b, other[i], ix, k) {
        var j :| 0 <= j < |rows| && rows[j] == other[i];
        assert RowHolds(b, rows[j], ix, k);
      }
    }
    forall ix, i, k | ix in b.intersections && 0 <= i < |other| && RowHolds(b, other[i], ix, k)
      ensures b.intersections[ix].active[k]
           == Reservation(ix, k, other[i].decision.trainId, other[i].decision.issuedAt)
    {
      var j :| 0 <= j < |rows| && rows[j] == other[i];
      assert RowHolds(b, rows[j], ix, k);
    }
  }

  /** Whoever reads the rows may list them in any order. */
  lemma ReorderedSnapshot(s: State, rows: seq<Row>, other: seq<Row>)
    requires Snapshot(s, rows) && multiset(rows) == multiset(other)
    ensures Snapshot(s, other)
  {
    ReorderedTrack(s, rows, other);
    ReorderedBook(s.book, rows, other);
  }
}
