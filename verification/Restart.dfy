/** The reservation book inside the manager's runs, and restart: replaying the unfinished
    commands of a live state on a rebuilt manager. */
module Restart {
  import opened Basics
  import opened Reservations
  import opened Policy
  import opened DispatchSpec
  import opened DispatchManagers
  import opened DispatchRuns
  import R = ReservationRuns

  // ----- the manager drives the book through reservation runs -----

  // The reservation operations a manager step performs.
  function BookOps(l: Label, s: State): seq<R.Op> {
    match l
    case RegisterMovement(m) => [R.Register(m)]
    case Plan(r, now, _, d) => if r in s.corridors && d.action == Release then [R.Reserve(d.trainId, d.movementIds, now)] else []
    case CancelPending(r) => if r in s.pending then [R.Cancel(s.pending[r].trainId)] else []
    case ClearIntersection(ix, train, now) => [R.Clear(ix, train, now)]
    case _ => []
  }

  ghost function RestoreOps(l: Label, s: State): seq<R.Op> {
    match l
    case RestorePending(d) => if CanRestorePending(s, d) then [R.Reserve(d.trainId, d.movementIds, d.issuedAt)] else []
    case RestoreActive(d) => if CanRestoreActive(s, d) then [R.Reserve(d.trainId, d.movementIds, d.issuedAt)] else []
    case _ => BookOps(l, s)
  }

  ghost function RunOps(states: seq<State>, labels: seq<Label>, n: nat): seq<R.Op>
    requires n <= |labels| <= |states|
  {
    if n == 0 then [] else RunOps(states, labels, n - 1) + RestoreOps(labels[n - 1], states[n - 1])
  }

  lemma BookStep(cfg: ManagerConfig, s: State, l: Label, t: State)
    requires ValidManagerConfig(cfg) && Structural(s) && Step(cfg, s, l, t)
    ensures |RestoreOps(l, s)| <= 1
    ensures t.book == R.After(s.book, RestoreOps(l, s))
  {
    if l.Plan? && l.decision.action == Release {
      PlannedReleaseIsReservable(cfg, s, l.resource, l.simulationNow, l.wallNow, l.decision);
    }
    var ops := RestoreOps(l, s);
    if ops != [] {
      assert ops[..0] == [];
      assert R.After(s.book, ops) == R.Apply(s.book, ops[0]);
    }
  }

  /** The book after `n` steps is what the run's reservation operations make of `b`. */
  ghost predicate BookFollows(b: Book, states: seq<State>, labels: seq<Label>, n: nat)
    requires n <= |labels| < |states|
  {
    states[n].book == R.After(b, RunOps(states, labels, n))
  }

  /** The book of a running manager is the result of a reservation run, so everything
      proved about those runs holds of it. */
  lemma {:induction false} BookOfRun(cfg: ManagerConfig, states: seq<State>, labels: seq<Label>, n: nat)
    requires ValidManagerConfig(cfg) && IsRun(cfg, states, labels) && n <= |labels|
    ensures BookFollows(EmptyBook(cfg.defaultClearance), states, labels, n)
  {
    if n > 0 {
      BookOfRun(cfg, states, labels, n - 1);
      RunBookNext(cfg, EmptyBook(cfg.defaultClearance), states, labels, n - 1);
    }
  }

  lemma RunBookNext(cfg: ManagerConfig, b: Book, states: seq<State>, labels: seq<Label>, i: nat)
    requires ValidManagerConfig(cfg) && IsRun(cfg, states, labels) && i < |labels|
    requires BookFollows(b, states, labels, i)
    ensures BookFollows(b, states, labels, i + 1)
  {
    RunIsStructural(cfg, states, labels, i);
    assert StepAt(cfg, states, labels, i);
    BookNext(cfg, b, states, labels, i);
  }

  lemma BookNext(cfg: ManagerConfig, b: Book, states: seq<State>, labels: seq<Label>, i: nat)
    requires ValidManagerConfig(cfg) && i < |labels| < |states|
    requires Structural(states[i]) && StepAt(cfg, states, labels, i)
    requires BookFollows(b, states, labels, i)
    ensures BookFollows(b, states, labels, i + 1)
  {
    var front, ops := RunOps(states, labels, i), RestoreOps(labels[i], states[i]);
    BookStep(cfg, states[i], labels[i], states[i + 1]);
    AfterOneMore(b, front, ops, states[i].book, states[i + 1].book);
    assert RunOps(states, labels, i + 1) == front + ops;
  }

  lemma AfterOneMore(b: Book, front: seq<R.Op>, ops: seq<R.Op>, mid: Book, end: Book)
    requires |ops| <= 1 && mid == R.After(b, front) && end == R.After(mid, ops)
    ensures end == R.After(b, front + ops)
  {
    if ops == [] {
      assert front + ops == front;
    } else {
      assert ops[..0] == [];
      assert (front + ops)[..|front|] == front && (front + ops)[|front|] == ops[0];
    }
  }

  ghost predicate FreshRegistration(s: State, l: Label) {
    l.RegisterMovement? ==> R.Unused(s.book, l.movement.movementId)
  }

  ghost predicate SoundBook(b: Book) {
    R.WellFormed(b) && R.ConflictFree(b)
  }

  lemma StepKeepsSoundBook(cfg: ManagerConfig, s: State, l: Label, t: State)
    requires ValidManagerConfig(cfg) && Structural(s) && Step(cfg, s, l, t)
    requires SoundBook(s.book) && FreshRegistration(s, l)
    ensures SoundBook(t.book)
  {
    BookStep(cfg, s, l, t);
    var ops := RestoreOps(l, s);
    if ops != [] {
      assert ops[..0] == [];
      R.StepKeepsWellFormed(s.book, ops[0]);
      R.StepKeepsConflictFree(s.book, ops[0]);
    }
  }

  /** Conflicting movements never hold reservations together in any manager run,
      restores included. */
  lemma {:induction false} NeverConflicting(cfg: ManagerConfig, states: seq<State>, labels: seq<Label>, n: nat)
    requires ValidManagerConfig(cfg) && IsRun(cfg, states, labels) && n <= |labels|
    requires forall i | 0 <= i < |labels| :: FreshRegistration(states[i], labels[i])
    ensures SoundBook(states[n].book)
  {
    if n > 0 {
      NeverConflicting(cfg, states, labels, n - 1);
      RunIsStructural(cfg, states, labels, n - 1);
      assert StepAt(cfg, states, labels, n - 1);
      StepKeepsSoundBook(cfg, states[n - 1], labels[n - 1], states[n]);
    }
  }

  // ----- replaying unfinished commands -----

  // An unfinished command as stored: still pending, or accepted and not yet cleared.
  datatype Row = Row(decision: Decision, accepted: bool)

  function RowLabel(row: Row): Label {
    if row.accepted then RestoreActive(row.decision) else RestorePending(row.decision)
  }

  ghost predicate Accepts(s: State, row: Row) {
    if row.accepted then CanRestoreActive(s, row.decision) else CanRestorePending(s, row.decision)
  }

  ghost function ReplayStep(s: State, row: Row): State {
    if row.accepted then ActiveRestored(s, row.decision) else PendingRestored(s, row.decision)
  }

  // The state after replaying the rows in order.
  ghost function Replay(f: State, rows: seq<Row>): State {
    if rows == [] then f else ReplayStep(Replay(f, rows[..|rows| - 1]), rows[|rows| - 1])
  }

  ghost predicate Accepted(f: State, rows: seq<Row>) {
    forall i | 0 <= i < |rows| :: Accepts(Replay(f, rows[..i]), rows[i])
  }

  /** Whatever rows are replayed, the interlock and non-conflict survive. */
  lemma {:induction false} AnyReplayIsSafe(cfg: ManagerConfig, f: State, rows: seq<Row>)
    requires ValidManagerConfig(cfg) && Safe(f) && SoundBook(f.book)
    ensures Safe(Replay(f, rows)) && SoundBook(Replay(f, rows).book)
  {
    if rows != [] {
      AnyReplayIsSafe(cfg, f, rows[..|rows| - 1]);
      ReplayStepIsSafe(cfg, Replay(f, rows[..|rows| - 1]), rows[|rows| - 1]);
    }
  }

  lemma ReplayStepIsSafe(cfg: ManagerConfig, s: State, row: Row)
    requires ValidManagerConfig(cfg) && Safe(s) && SoundBook(s.book)
    ensures Safe(ReplayStep(s, row)) && SoundBook(ReplayStep(s, row).book)
  {
    var l, t := RowLabel(row), ReplayStep(s, row);
    assert Step(cfg, s, l, t);
    StepKeepsSafe(cfg, s, l, t);
    StepKeepsSoundBook(cfg, s, l, t);
  }

  // ----- the round trip -----

  // How many accepted rows are for resource `r`.
  function RowsAt(rows: seq<Row>, r: string): nat {
    if rows == [] then 0
    else
      var last := rows[|rows| - 1];
      RowsAt(rows[..|rows| - 1], r) + (if last.accepted && last.decision.resourceId == r then 1 else 0)
  }

  // The reservation of movement `k` at `ix` belongs to the row.
  predicate RowHolds(b: Book, row: Row, ix: string, k: string) {
    k in row.decision.movementIds && k in b.movements && b.movements[k].intersectionId == ix
  }

  ghost predicate HeldBySome(b: Book, rows: seq<Row>, ix: string, k: string) {
    exists i :: 0 <= i < |rows| && RowHolds(b, rows[i], ix, k)
  }

  // The active reservations are exactly those of the rows.
  ghost predicate ActiveIsRows(b: Book, rows: seq<Row>) {
    && (forall ix, k | ix in b.intersections :: k in b.intersections[ix].active <==> HeldBySome(b, rows, ix, k))
    && (forall ix, i, k | ix in b.intersections && 0 <= i < |rows| && RowHolds(b, rows[i], ix, k) ::
          b.intersections[ix].active[k]
          == Reservation(ix, k, rows[i].decision.trainId, rows[i].decision.issuedAt))
  }

  ghost predicate OnePassagePerTrain(rows: seq<Row>) {
    && (forall i | 0 <= i < |rows| :: rows[i].decision.trainId != "")
    && (forall i, j | 0 <= i < j < |rows| :: rows[i].decision.trainId != rows[j].decision.trainId)
  }

  // The rows account for every reservation of the book, one passage per train.
  ghost predicate BookIsRows(b: Book, rows: seq<Row>) {
    && SoundBook(b) && OnePassagePerTrain(rows) && ActiveIsRows(b, rows)
    && forall i, k | 0 <= i < |rows| && k in rows[i].decision.movementIds :: k in b.movements
  }

  // Pending rows match the pending decisions, one each; accepted rows the occupancy.
  ghost predicate TrackIsRows(s: State, rows: seq<Row>) {
    && (forall i | 0 <= i < |rows| :: rows[i].decision.resourceId in s.corridors)
    && (forall i | 0 <= i < |rows| && !rows[i].accepted ::
          && rows[i].decision.resourceId in s.pending
          && s.pending[rows[i].decision.resourceId].trainId == rows[i].decision.trainId)
    && (forall r <- s.pending ::
          exists i :: 0 <= i < |rows| && !rows[i].accepted && rows[i].decision.resourceId == r)
    && (forall r <- s.corridors :: s.corridors[r].occupancy == RowsAt(rows, r))
  }

  /** The rows describe the live state `s`: one passage per train, holding exactly that
      train's reservations; pending rows match pending decisions, accepted rows occupancy. */
  ghost predicate Snapshot(s: State, rows: seq<Row>) {
    Safe(s) && TrackIsRows(s, rows) && BookIsRows(s.book, rows)
  }

  /** `f` is `s` rebuilt from the topology: same resources and movements, all idle. */
  ghost predicate Rebuilt(s: State, f: State) {
    && f.corridors.Keys == s.corridors.Keys
    && (forall r <- s.corridors ::
          && f.corridors[r].corridorId == s.corridors[r].corridorId
          && f.corridors[r].capacity == s.corridors[r].capacity
          && f.corridors[r].occupancy == 0 && !f.corridors[r].commandPending)
    && f.pending == map[]
    && f.book.movements == s.book.movements
    && f.book.intersections.Keys == s.book.intersections.Keys
    && (forall ix <- f.book.intersections :: f.book.intersections[ix] == EmptyRuntime)
  }

  // The corridors `gc` and pending decisions `gp` after replaying the first `n` rows.
  ghost predicate TrackMidway(
    s: State, gc: map<string, Corridor>, gp: map<string, Decision>, rows: seq<Row>, n: nat)
    requires n <= |rows|
  {
    && gc.Keys == s.corridors.Keys
    && (forall r <- s.corridors ::
          && gc[r].corridorId == s.corridors[r].corridorId
          && gc[r].capacity == s.corridors[r].capacity
          && gc[r].occupancy == RowsAt(rows[..n], r)
          && (gc[r].commandPending <==> r in gp))
    && (forall i | 0 <= i < n && !rows[i].accepted ::
          rows[i].decision.resourceId in gp && gp[rows[i].decision.resourceId] == rows[i].decision)
    && (forall r <- gp :: exists i :: 0 <= i < n && !rows[i].accepted && rows[i].decision.resourceId == r)
  }

  // The book after replaying the first `n` rows.
  ghost predicate BookMidway(b: Book, c: Book, rows: seq<Row>, n: nat)
    requires n <= |rows|
  {
    && c.movements == b.movements && c.intersections.Keys == b.intersections.Keys
    && (forall ix <- c.intersections :: c.intersections[ix].lastClear == map[])
    && ActiveIsRows(c, rows[..n])
  }

  lemma {:induction false} RowsAtPrefix(rows: seq<Row>, m: nat, r: string)
    requires m <= |rows|
    ensures RowsAt(rows[..m], r) <= RowsAt(rows, r)
    decreases |rows| - m
  {
    if m < |rows| {
      RowsAtPrefix(rows, m + 1, r);
      assert rows[..m + 1][..m] == rows[..m];
    } else {
      assert rows[..m] == rows;
    }
  }

  lemma RowsAtNext(rows: seq<Row>, m: nat, r: string)
    requires m < |rows|
    ensures RowsAt(rows[..m + 1], r)
         == RowsAt(rows[..m], r) + (if rows[m].accepted && rows[m].decision.resourceId == r then 1 else 0)
  {
    assert rows[..m + 1][..m] == rows[..m];
  }

  // Distinct rows hold distinct movements.
  lemma RowsDisjoint(b: Book, rows: seq<Row>, i: nat, j: nat, k: string)
    requires BookIsRows(b, rows)
    requires i < |rows| && j < |rows|
    requires k in rows[i].decision.movementIds && k in rows[j].decision.movementIds
    ensures i == j
  {
    var ix := b.movements[k].intersectionId;
    assert RowHolds(b, rows[i], ix, k) && RowHolds(b, rows[j], ix, k);
    assert b.intersections[ix].active[k].trainId == rows[i].decision.trainId;
    assert b.intersections[ix].active[k].trainId == rows[j].decision.trainId;
  }

  // Movements held by rows are active together, hence do not conflict.
  lemma RowsDoNotConflict(b: Book, rows: seq<Row>, i: nat, j: nat, x: string, y: string)
    requires BookIsRows(b, rows)
    requires i < |rows| && j < |rows| && x != y
    requires x in rows[i].decision.movementIds && y in rows[j].decision.movementIds
    ensures b.movements[x].intersectionId == b.movements[y].intersectionId ==>
      !Conflict(b.movements[x], b.movements[y])
  {
    var ix := b.movements[x].intersectionId;
    if b.movements[y].intersectionId == ix {
      assert RowHolds(b, rows[i], ix, x) && RowHolds(b, rows[j], ix, y);
      assert HeldBySome(b, rows, ix, x) && HeldBySome(b, rows, ix, y);
    }
  }

  lemma NextRowFree(b: Book, c: Book, rows: seq<Row>, n: nat, x: string)
    requires BookIsRows(b, rows) && n < |rows| && BookMidway(b, c, rows, n)
    requires x in rows[n].decision.movementIds
    ensures Free(c, c.movements[x], rows[n].decision.issuedAt)
  {
    var m := b.movements[x];
    var rt := c.intersections[m.intersectionId];
    forall k | k in rt.active ensures !Blocks(c, rt, m, k) {
      assert HeldBySome(c, rows[..n], m.intersectionId, k);
      var i :| 0 <= i < n && RowHolds(c, rows[..n][i], m.intersectionId, k);
      if k == x {
        RowsDisjoint(b, rows, i, n, k);
      }
      RowsDoNotConflict(b, rows, n, i, x, k);
    }
  }

  // The movements of the next row can be reserved.
  lemma NextRowReservable(b: Book, c: Book, rows: seq<Row>, n: nat)
    requires BookIsRows(b, rows) && n < |rows| && BookMidway(b, c, rows, n)
    ensures Reservable(c, rows[n].decision.movementIds, rows[n].decision.issuedAt)
  {
    var ids := rows[n].decision.movementIds;
    forall x, y | x in ids && y in ids && x != y && b.movements[x].intersectionId == b.movements[y].intersectionId
      ensures !Conflict(b.movements[x], b.movements[y])
    {
      RowsDoNotConflict(b, rows, n, n, x, y);
    }
    forall x | x in ids ensures Free(c, c.movements[x], rows[n].decision.issuedAt) {
      NextRowFree(b, c, rows, n, x);
    }
  }

  // Writing one more row's reservations keeps the book exact.
  lemma ReserveRow(b: Book, rows: seq<Row>, row: Row)
    requires Keyed(b) && ActiveIsRows(b, rows)
    requires Reservable(b, row.decision.movementIds, row.decision.issuedAt)
    ensures var d := row.decision; ActiveIsRows(Reserved(b, d.trainId, d.movementIds, d.issuedAt), rows + [row])
  {
    var d := row.decision;
    var c := Reserved(b, d.trainId, d.movementIds, d.issuedAt);
    var more := rows + [row];
    assert more[|rows|] == row;
    forall ix, k | ix in b.intersections
      ensures k in c.intersections[ix].active <==> HeldBySome(c, more, ix, k)
    {
      assert RowHolds(c, row, ix, k) ==> RowHolds(c, more[|rows|], ix, k);
      if HeldBySome(b, rows, ix, k) {
        var i :| 0 <= i < |rows| && RowHolds(b, rows[i], ix, k);
        assert RowHolds(c, more[i], ix, k);
      }
      if HeldBySome(c, more, ix, k) {
        var i :| 0 <= i < |more| && RowHolds(c, more[i], ix, k);
        assert i < |rows| ==> RowHolds(b, rows[i], ix, k);
      }
    }
    forall ix, i, k | ix in c.intersections && 0 <= i < |more| && RowHolds(c, more[i], ix, k)
      ensures c.intersections[ix].active[k]
           == Reservation(ix, k, more[i].decision.trainId, more[i].decision.issuedAt)
    {
      if i < |rows| {
        assert RowHolds(b, rows[i], ix, k);
        assert k in b.intersections[ix].active;
        assert k in d.movementIds ==> !Blocks(b, b.intersections[ix], b.movements[k], k);
      }
    }
  }

  lemma NextBook(b: Book, c: Book, rows: seq<Row>, n: nat)
    requires BookIsRows(b, rows) && n < |rows| && BookMidway(b, c, rows, n)
    ensures var d := rows[n].decision;
      && Reservable(c, d.movementIds, d.issuedAt)
      && BookMidway(b, Reserved(c, d.trainId, d.movementIds, d.issuedAt), rows, n + 1)
  {
    NextRowReservable(b, c, rows, n);
    ReserveRow(c, rows[..n], rows[n]);
    assert rows[..n + 1] == rows[..n] + [rows[n]];
  }

  // What the track side of a live state provides.
  ghost predicate TrackSound(s: State, rows: seq<Row>) {
    && Interlocked(s) && PendingAgrees(s) && WithinCapacity(s)
    && TrackIsRows(s, rows) && OnePassagePerTrain(rows)
  }

  // The other direction of the next row's corridor is idle.
  lemma NextRowUnblocked(s: State, g: State, rows: seq<Row>, n: nat)
    requires TrackSound(s, rows) && n < |rows| && TrackMidway(s, g.corridors, g.pending, rows, n)
    ensures !Blocked(g, rows[n].decision.resourceId)
  {
    var r := rows[n].decision.resourceId;
    RowsAtNext(rows, n, r);
    RowsAtPrefix(rows, n + 1, r);
    assert Busy(s.corridors[r]);
    forall o | o in g.corridors && o != r && g.corridors[o].corridorId == g.corridors[r].corridorId
      ensures !Busy(g.corridors[o])
    {
      RowsAtPrefix(rows, n, o);
      OnlyOneBusy(s, r, o);
    }
  }

  lemma OnlyOneBusy(s: State, p: string, q: string)
    requires Interlocked(s) && p in s.corridors && q in s.corridors && p != q
    requires s.corridors[p].corridorId == s.corridors[q].corridorId && Busy(s.corridors[p])
    ensures !Busy(s.corridors[q])
  {
  }

  lemma PendingRowIsNew(s: State, gc: map<string, Corridor>, gp: map<string, Decision>, rows: seq<Row>, n: nat)
    requires TrackIsRows(s, rows) && OnePassagePerTrain(rows)
    requires n < |rows| && TrackMidway(s, gc, gp, rows, n) && !rows[n].accepted
    ensures rows[n].decision.resourceId in gc && rows[n].decision.resourceId !in gp
  {
    forall i | 0 <= i < n && !rows[i].accepted ensures rows[i].decision.resourceId != rows[n].decision.resourceId {
      assert rows[i].decision.trainId != rows[n].decision.trainId;
    }
  }

  lemma NextPending(s: State, gc: map<string, Corridor>, gp: map<string, Decision>, rows: seq<Row>, n: nat)
    requires n < |rows| && TrackMidway(s, gc, gp, rows, n) && !rows[n].accepted
    requires rows[n].decision.resourceId in gc && rows[n].decision.resourceId !in gp
    ensures var d := rows[n].decision;
      TrackMidway(s, gc[d.resourceId := gc[d.resourceId].(commandPending := true)], gp[d.resourceId := d], rows, n + 1)
  {
    var d := rows[n].decision;
    var next := rows[..n + 1];
    forall q | q in s.corridors ensures RowsAt(next, q) == RowsAt(rows[..n], q) {
      RowsAtNext(rows, n, q);
    }
    var hp := gp[d.resourceId := d];
    forall r | r in hp ensures exists i :: 0 <= i < n + 1 && !rows[i].accepted && rows[i].decision.resourceId == r {
      if r in gp {
        var i :| 0 <= i < n && !rows[i].accepted && rows[i].decision.resourceId == r;
        assert !rows[i].accepted;
      } else {
        assert !rows[n].accepted;
      }
    }
  }

  lemma RoomForRow(s: State, rows: seq<Row>, n: nat)
    requires WithinCapacity(s) && TrackIsRows(s, rows) && n < |rows| && rows[n].accepted
    ensures var r := rows[n].decision.resourceId;
      r in s.corridors && RowsAt(rows[..n], r) < s.corridors[r].capacity
  {
    RowsAtNext(rows, n, rows[n].decision.resourceId);
    RowsAtPrefix(rows, n + 1, rows[n].decision.resourceId);
  }

  lemma NextActive(
    s: State, gc: map<string, Corridor>, gp: map<string, Decision>, rows: seq<Row>, n: nat, entry: nat)
    requires n < |rows| && TrackMidway(s, gc, gp, rows, n) && rows[n].accepted
    requires rows[n].decision.resourceId in gc
    ensures var r := rows[n].decision.resourceId;
      TrackMidway(s, gc[r := gc[r].(occupancy := gc[r].occupancy + 1, lastEntry := entry)], gp, rows, n + 1)
  {
    var r := rows[n].decision.resourceId;
    var next := rows[..n + 1];
    forall q | q in s.corridors ensures RowsAt(next, q) == RowsAt(rows[..n], q) + (if q == r then 1 else 0) {
      RowsAtNext(rows, n, q);
    }
    forall q | q in gp ensures exists i :: 0 <= i < n + 1 && !rows[i].accepted && rows[i].decision.resourceId == q {
      var i :| 0 <= i < n && !rows[i].accepted && rows[i].decision.resourceId == q;
      assert !rows[i].accepted;
    }
  }

  // The track half of one replay step.
  lemma PendingStep(s: State, g: State, rows: seq<Row>, n: nat)
    requires n < |rows| && TrackMidway(s, g.corridors, g.pending, rows, n) && !rows[n].accepted
    requires rows[n].decision.resourceId in g.corridors && rows[n].decision.resourceId !in g.pending
    requires !Blocked(g, rows[n].decision.resourceId) && rows[n].decision.trainId != ""
    requires Reservable(g.book, rows[n].decision.movementIds, rows[n].decision.issuedAt)
    ensures Accepts(g, rows[n])
    ensures var h := ReplayStep(g, rows[n]); TrackMidway(s, h.corridors, h.pending, rows, n + 1)
  {
    NextPending(s, g.corridors, g.pending, rows, n);
  }

  lemma ActiveStep(s: State, g: State, rows: seq<Row>, n: nat)
    requires n < |rows| && TrackMidway(s, g.corridors, g.pending, rows, n) && rows[n].accepted
    requires rows[n].decision.resourceId in g.corridors
    requires g.corridors[rows[n].decision.resourceId].occupancy < g.corridors[rows[n].decision.resourceId].capacity
    requires !Blocked(g, rows[n].decision.resourceId) && rows[n].decision.trainId != ""
    requires Reservable(g.book, rows[n].decision.movementIds, rows[n].decision.issuedAt)
    ensures Accepts(g, rows[n])
    ensures var h := ReplayStep(g, rows[n]); TrackMidway(s, h.corridors, h.pending, rows, n + 1)
  {
    var d := rows[n].decision;
    NextActive(s, g.corridors, g.pending, rows, n, Max(g.corridors[d.resourceId].lastEntry, d.issuedAt));
  }

  lemma TrackStep(s: State, g: State, rows: seq<Row>, n: nat)
    requires TrackSound(s, rows) && n < |rows| && TrackMidway(s, g.corridors, g.pending, rows, n)
    requires Reservable(g.book, rows[n].decision.movementIds, rows[n].decision.issuedAt)
    ensures Accepts(g, rows[n])
    ensures var h := ReplayStep(g, rows[n]); TrackMidway(s, h.corridors, h.pending, rows, n + 1)
  {
    NextRowUnblocked(s, g, rows, n);
    if rows[n].accepted {
      RoomForRow(s, rows, n);
      ActiveStep(s, g, rows, n);
    } else {
      PendingRowIsNew(s, g.corridors, g.pending, rows, n);
      PendingStep(s, g, rows, n);
    }
  }

  lemma AcceptedRowBook(g: State, row: Row)
    requires Accepts(g, row)
    ensures var d := row.decision; ReplayStep(g, row).book == Reserved(g.book, d.trainId, d.movementIds, d.issuedAt)
  {
  }

  // The two halves of a snapshot that the replay needs.
  lemma SnapshotParts(s: State, rows: seq<Row>)
    requires Snapshot(s, rows)
    ensures TrackSound(s, rows) && BookIsRows(s.book, rows)
  {
  }

  // What holds after replaying the first `n` rows.
  ghost predicate Midway(s: State, g: State, rows: seq<Row>, n: nat)
    requires n <= |rows|
  {
    TrackMidway(s, g.corridors, g.pending, rows, n) && BookMidway(s.book, g.book, rows, n)
  }

  lemma {:induction false} ReplayProgress(s: State, f: State, rows: seq<Row>, n: nat)
    requires TrackSound(s, rows) && BookIsRows(s.book, rows) && Rebuilt(s, f) && n <= |rows|
    ensures Midway(s, Replay(f, rows[..n]), rows, n)
    ensures n < |rows| ==> Accepts(Replay(f, rows[..n]), rows[n])
  {
    if n == 0 {
      assert rows[..0] == [];
      StartsMidway(s, f, rows);
    } else {
      ReplayProgress(s, f, rows, n - 1);
      assert rows[..n][..n - 1] == rows[..n - 1];
      MidwayNext(s, Replay(f, rows[..n - 1]), rows, n - 1);
    }
    if n < |rows| {
      MidwayNext(s, Replay(f, rows[..n]), rows, n);
    }
  }

  lemma StartsMidway(s: State, f: State, rows: seq<Row>)
    requires TrackSound(s, rows) && BookIsRows(s.book, rows) && Rebuilt(s, f)
    ensures Midway(s, f, rows, 0)
  {
    assert rows[..0] == [];
  }

  lemma MidwayNext(s: State, g: State, rows: seq<Row>, n: nat)
    requires TrackSound(s, rows) && BookIsRows(s.book, rows) && n < |rows| && Midway(s, g, rows, n)
    ensures Accepts(g, rows[n]) && Midway(s, ReplayStep(g, rows[n]), rows, n + 1)
  {
    NextBook(s.book, g.book, rows, n);
    TrackStep(s, g, rows, n);
    AcceptedRowBook(g, rows[n]);
  }

  /** The two states agree on what restart preserves: pending trains, occupancy, flags
      and active reservations.  Clearance timers are not part of it. */
  ghost predicate SameLive(s: State, g: State) {
    && g.pending.Keys == s.pending.Keys
    && (forall r <- s.pending :: g.pending[r].trainId == s.pending[r].trainId)
    && g.corridors.Keys == s.corridors.Keys
    && (forall r <- s.corridors ::
          && g.corridors[r].occupancy == s.corridors[r].occupancy
          && g.corridors[r].commandPending == s.corridors[r].commandPending)
    && g.book.intersections.Keys == s.book.intersections.Keys
    && (forall ix <- s.book.intersections :: g.book.intersections[ix].active == s.book.intersections[ix].active)
  }

  lemma SameRowsSameActive(b: Book, c: Book, rows: seq<Row>, ix: string)
    requires ActiveIsRows(b, rows) && ActiveIsRows(c, rows) && b.movements == c.movements
    requires ix in b.intersections && ix in c.intersections
    ensures b.intersections[ix].active == c.intersections[ix].active
  {
    var l, r := b.intersections[ix].active, c.intersections[ix].active;
    forall k
      ensures k in l <==> k in r
      ensures k in l ==> l[k] == r[k]
    {
      assert HeldBySome(b, rows, ix, k) <==> HeldBySome(c, rows, ix, k) by {
        assert forall i | 0 <= i < |rows| :: RowHolds(b, rows[i], ix, k) == RowHolds(c, rows[i], ix, k);
      }
      if k in l {
        var i :| 0 <= i < |rows| && RowHolds(b, rows[i], ix, k);
        assert RowHolds(c, rows[i], ix, k);
      }
    }
  }

  lemma BookEnd(b: Book, c: Book, rows: seq<Row>)
    requires ActiveIsRows(b, rows) && BookMidway(b, c, rows, |rows|)
    ensures forall ix <- b.intersections :: c.intersections[ix].active == b.intersections[ix].active
  {
    assert rows[..|rows|] == rows;
    forall ix | ix in b.intersections {
      SameRowsSameActive(b, c, rows, ix);
    }
  }

  lemma TrackEnd(s: State, g: State, rows: seq<Row>)
    requires PendingAgrees(s) && TrackIsRows(s, rows)
    requires TrackMidway(s, g.corridors, g.pending, rows, |rows|)
    ensures g.pending.Keys == s.pending.Keys
    ensures forall r <- s.pending :: g.pending[r].trainId == s.pending[r].trainId
    ensures forall r <- s.corridors ::
      && g.corridors[r].occupancy == s.corridors[r].occupancy
      && g.corridors[r].commandPending == s.corridors[r].commandPending
  {
    assert rows[..|rows|] == rows;
    assert forall r :: r in g.pending <==> r in s.pending;
  }

  /** Restart round trip: every row is accepted, in whatever order the rows come, and the
      replayed manager agrees with the live one. */
  lemma RestartRoundTrip(s: State, f: State, rows: seq<Row>)
    requires Snapshot(s, rows) && Rebuilt(s, f)
    ensures Accepted(f, rows)
    ensures SameLive(s, Replay(f, rows))
  {
    SnapshotParts(s, rows);
    forall i | 0 <= i < |rows| ensures Accepts(Replay(f, rows[..i]), rows[i]) {
      ReplayProgress(s, f, rows, i);
    }
    ReplayProgress(s, f, rows, |rows|);
    assert rows[..|rows|] == rows;
    var g := Replay(f, rows);
    BookEnd(s.book, g.book, rows);
    TrackEnd(s, g, rows);
  }
}
