/** Recovery from any stored rows: exactly which are accepted, and what is rebuilt. */
module Recovery {
  import opened Basics
  import opened Reservations
  import opened Policy
  import opened DispatchSpec
  import opened DispatchManagers
  import opened DispatchRuns
  import opened Restart
  import opened Lifecycle
  import opened Setup

  /** A manager just built: nothing occupied, pending, reserved or dated. */
  ghost predicate Unstarted(f: State) {
    && Safe(f) && SoundBook(f.book) && f.pending == map[]
    && (forall r <- f.corridors :: !Busy(f.corridors[r]))
    && forall ix <- f.book.intersections :: f.book.intersections[ix] == EmptyRuntime
  }

  lemma BuiltIsUnstarted(cfg: ManagerConfig, t: Topology, now: nat)
    requires ValidManagerConfig(cfg)
    ensures Unstarted(Built(cfg, t, now))
  {
    BuiltIsSafe(cfg, t, now);
    BuiltFromTopology(cfg, t, now);
  }

  // ----- which rows stand together -----

  predicate Opposite(f: State, p: string, q: string) {
    && p in f.corridors && q in f.corridors && p != q
    && f.corridors[p].corridorId == f.corridors[q].corridorId
  }

  // Two movements that cannot both be reserved.
  predicate Clash(b: Book, x: string, y: string) {
    && x in b.movements && y in b.movements
    && b.movements[x].intersectionId == b.movements[y].intersectionId
    && Conflict(b.movements[x], b.movements[y])
  }

  ghost predicate NoClash(b: Book, xs: seq<string>, ys: seq<string>) {
    forall x, y | x in xs && y in ys :: !Clash(b, x, y)
  }

  /** The row names a train, a known resource and known movements that fit together. */
  ghost predicate Sensible(f: State, d: Decision) {
    && d.resourceId in f.corridors && d.trainId != ""
    && Known(f.book, d.movementIds) && Compatible(f.book, d.movementIds)
  }

  /** The rows can both be in force: not both pending for one resource, not for opposite
      directions of one corridor, and without conflicting movements. */
  ghost predicate Together(f: State, p: Row, q: Row) {
    && (!p.accepted && !q.accepted ==> p.decision.resourceId != q.decision.resourceId)
    && !Opposite(f, p.decision.resourceId, q.decision.resourceId)
    && NoClash(f.book, p.decision.movementIds, q.decision.movementIds)
  }

  lemma TogetherEitherWay(f: State, p: Row, q: Row)
    ensures Together(f, p, q) <==> Together(f, q, p)
  {
    forall x, y ensures Clash(f.book, x, y) <==> Clash(f.book, y, x) {
    }
  }

  // ----- what the replayed rows leave -----

  ghost predicate PendingFor(rows: seq<Row>, n: nat, r: string)
    requires n <= |rows|
  {
    exists i :: 0 <= i < n && !rows[i].accepted && rows[i].decision.resourceId == r
  }

  ghost predicate ServedBy(rows: seq<Row>, n: nat, r: string)
    requires n <= |rows|
  {
    exists i :: 0 <= i < n && rows[i].decision.resourceId == r
  }

  function AtMost(capacity: nat, n: nat): nat {
    if n <= capacity then n else capacity
  }

  // Resource `c` of `f` after `n` rows of which `count` are accepted passages of its own.
  predicate ResourceAfter(was: Corridor, c: Corridor, count: nat) {
    && c.corridorId == was.corridorId && c.capacity == was.capacity
    && c.occupancy == AtMost(was.capacity, count)
  }

  ghost predicate TrackAfter(f: State, g: State, rows: seq<Row>, n: nat)
    requires n <= |rows|
  {
    && g.corridors.Keys == f.corridors.Keys
    && (forall r <- f.corridors :: ResourceAfter(f.corridors[r], g.corridors[r], RowsAt(rows[..n], r)))
    && (forall r <- f.corridors :: g.corridors[r].commandPending <==> PendingFor(rows, n, r))
  }

  /** After `n` accepted rows every occupancy is the number of accepted passages, up to the
      capacity, the flags are those of the pending rows, and the book holds exactly the rows'
      movements and no clearance date. */
  ghost predicate RecoveredAs(f: State, g: State, rows: seq<Row>, n: nat)
    requires n <= |rows|
  {
    TrackAfter(f, g, rows, n) && BookMidway(f.book, g.book, rows, n)
  }

  lemma {:induction false} CountedIff(rows: seq<Row>, n: nat, r: string)
    requires n <= |rows|
    ensures RowsAt(rows[..n], r) > 0 <==> exists i :: 0 <= i < n && rows[i].accepted && rows[i].decision.resourceId == r
  {
    if n > 0 {
      CountedIff(rows, n - 1, r);
      RowsAtNext(rows, n - 1, r);
    }
  }

  lemma BusyIffServed(f: State, g: State, rows: seq<Row>, n: nat, r: string)
    requires GoodCorridors(f) && n <= |rows| && TrackAfter(f, g, rows, n) && r in f.corridors
    ensures Busy(g.corridors[r]) <==> ServedBy(rows, n, r)
  {
    CountedIff(rows, n, r);
    assert ResourceAfter(f.corridors[r], g.corridors[r], RowsAt(rows[..n], r));
  }

  lemma BlockedIff(f: State, g: State, rows: seq<Row>, n: nat, r: string)
    requires GoodCorridors(f) && n <= |rows| && TrackAfter(f, g, rows, n) && r in f.corridors
    ensures Blocked(g, r) <==> exists j :: 0 <= j < n && Opposite(f, rows[j].decision.resourceId, r)
  {
    assert forall o | o in f.corridors :: ResourceAfter(f.corridors[o], g.corridors[o], RowsAt(rows[..n], o));
    if Blocked(g, r) {
      var o :| Opposing(g, r, o);
      BusyIffServed(f, g, rows, n, o);
      var j :| 0 <= j < n && rows[j].decision.resourceId == o;
      assert Opposite(f, rows[j].decision.resourceId, r);
    }
    if j :| 0 <= j < n && Opposite(f, rows[j].decision.resourceId, r) {
      var o := rows[j].decision.resourceId;
      BusyIffServed(f, g, rows, n, o);
      assert Opposing(g, r, o);
    }
  }

  lemma FreeIff(b: Book, c: Book, rows: seq<Row>, n: nat, x: string, now: nat)
    requires Keyed(b) && n <= |rows| && BookMidway(b, c, rows, n) && x in b.movements
    ensures Free(c, c.movements[x], now) <==> forall j | 0 <= j < n :: NoClash(b, rows[j].decision.movementIds, [x])
  {
    var m := b.movements[x];
    var rt := c.intersections[m.intersectionId];
    forall j | 0 <= j < n ensures Free(c, m, now) ==> NoClash(b, rows[j].decision.movementIds, [x]) {
      forall k, y | k in rows[j].decision.movementIds && y in [x] && Clash(b, k, y) ensures !Free(c, m, now) {
        assert RowHolds(c, rows[..n][j], m.intersectionId, k);
        assert HeldBySome(c, rows[..n], m.intersectionId, k);
        assert Blocks(c, rt, m, k);
      }
    }
    if !Free(c, m, now) {
      var k :| k in rt.active && Blocks(c, rt, m, k);
      assert HeldBySome(c, rows[..n], m.intersectionId, k);
      var j :| 0 <= j < n && RowHolds(c, rows[..n][j], m.intersectionId, k);
      assert x in [x] && Clash(b, k, x);
      assert !NoClash(b, rows[j].decision.movementIds, [x]);
    }
  }

  lemma NoClashOneByOne(b: Book, xs: seq<string>, ys: seq<string>)
    ensures NoClash(b, xs, ys) <==> forall y <- ys :: NoClash(b, xs, [y])
  {
    if forall y <- ys :: NoClash(b, xs, [y]) {
      forall x, y | x in xs && y in ys ensures !Clash(b, x, y) {
        assert NoClash(b, xs, [y]) && y in [y];
      }
    }
  }

  lemma ReservableIff(b: Book, c: Book, rows: seq<Row>, n: nat, ids: seq<string>, now: nat)
    requires Keyed(b) && n <= |rows| && BookMidway(b, c, rows, n)
    ensures Reservable(c, ids, now) <==>
      Known(b, ids) && Compatible(b, ids) && forall j | 0 <= j < n :: NoClash(b, rows[j].decision.movementIds, ids)
  {
    if Known(b, ids) && Compatible(b, ids) {
      forall x | x in ids
        ensures Free(c, c.movements[x], now) <==> forall j | 0 <= j < n :: NoClash(b, rows[j].decision.movementIds, [x])
      {
        FreeIff(b, c, rows, n, x, now);
      }
      forall j | 0 <= j < n
        ensures NoClash(b, rows[j].decision.movementIds, ids) <==>
                forall x <- ids :: NoClash(b, rows[j].decision.movementIds, [x])
      {
        NoClashOneByOne(b, rows[j].decision.movementIds, ids);
      }
    }
  }

  // The next row is accepted exactly when it is sensible and stands with all before it.
  lemma AcceptsIff(f: State, g: State, rows: seq<Row>, n: nat)
    requires Unstarted(f) && n < |rows| && RecoveredAs(f, g, rows, n)
    ensures Accepts(g, rows[n]) <==>
      Sensible(f, rows[n].decision) && forall j | 0 <= j < n :: Together(f, rows[j], rows[n])
  {
    var d := rows[n].decision;
    ReservableIff(f.book, g.book, rows, n, d.movementIds, d.issuedAt);
    if d.resourceId in f.corridors {
      BlockedIff(f, g, rows, n, d.resourceId);
      assert g.corridors[d.resourceId].commandPending <==> PendingFor(rows, n, d.resourceId);
    }
  }

  // ----- each accepted row -----

  lemma PendingForNext(rows: seq<Row>, n: nat, r: string)
    requires n < |rows|
    ensures PendingFor(rows, n + 1, r) <==>
      PendingFor(rows, n, r) || (!rows[n].accepted && rows[n].decision.resourceId == r)
  {
  }

  lemma TrackNext(f: State, g: State, rows: seq<Row>, n: nat)
    requires n < |rows| && TrackAfter(f, g, rows, n) && Accepts(g, rows[n])
    ensures TrackAfter(f, ReplayStep(g, rows[n]), rows, n + 1)
  {
    var h := ReplayStep(g, rows[n]);
    forall r | r in f.corridors
      ensures ResourceAfter(f.corridors[r], h.corridors[r], RowsAt(rows[..n + 1], r))
      ensures h.corridors[r].commandPending <==> PendingFor(rows, n + 1, r)
    {
      assert ResourceAfter(f.corridors[r], g.corridors[r], RowsAt(rows[..n], r));
      ReplayedResource(g, rows[n], r);
      RowsAtNext(rows, n, r);
      PendingForNext(rows, n, r);
    }
    ReplayedKeys(g, rows[n]);
  }

  lemma ReplayedResource(g: State, row: Row, r: string)
    requires Accepts(g, row) && r in g.corridors
    ensures r in ReplayStep(g, row).corridors
    ensures var c, h, own := g.corridors[r], ReplayStep(g, row).corridors[r], row.decision.resourceId == r;
      && h.corridorId == c.corridorId && h.capacity == c.capacity
      && h.occupancy == (if own && row.accepted && c.occupancy < c.capacity then c.occupancy + 1 else c.occupancy)
      && h.commandPending == (c.commandPending || (own && !row.accepted))
  {
  }

  lemma ReplayedKeys(g: State, row: Row)
    requires Accepts(g, row)
    ensures ReplayStep(g, row).corridors.Keys == g.corridors.Keys
  {
  }

  lemma BookNext(b: Book, c: Book, rows: seq<Row>, n: nat)
    requires Keyed(b) && n < |rows| && BookMidway(b, c, rows, n)
    requires Reservable(c, rows[n].decision.movementIds, rows[n].decision.issuedAt)
    ensures var d := rows[n].decision; BookMidway(b, Reserved(c, d.trainId, d.movementIds, d.issuedAt), rows, n + 1)
  {
    ReserveRow(c, rows[..n], rows[n]);
    assert rows[..n + 1] == rows[..n] + [rows[n]];
  }

  lemma RecoveredNext(f: State, g: State, rows: seq<Row>, n: nat)
    requires Unstarted(f) && n < |rows| && RecoveredAs(f, g, rows, n) && Accepts(g, rows[n])
    ensures RecoveredAs(f, ReplayStep(g, rows[n]), rows, n + 1)
  {
    TrackNext(f, g, rows, n);
    BookNext(f.book, g.book, rows, n);
    AcceptedRowBook(g, rows[n]);
  }

  lemma NothingRecovered(f: State, rows: seq<Row>)
    requires Unstarted(f)
    ensures RecoveredAs(f, f, rows, 0)
  {
    assert rows[..0] == [];
  }

  /** What is rebuilt from the first `n` rows once they are all accepted. */
  lemma {:induction false} RecoveredState(f: State, rows: seq<Row>, n: nat)
    requires Unstarted(f) && n <= |rows| && forall i | 0 <= i < n :: Accepts(Replay(f, rows[..i]), rows[i])
    ensures RecoveredAs(f, Replay(f, rows[..n]), rows, n)
  {
    if n == 0 {
      NothingRecovered(f, rows);
      assert rows[..0] == [];
    } else {
      RecoveredState(f, rows, n - 1);
      assert rows[..n][..n - 1] == rows[..n - 1];
      RecoveredNext(f, Replay(f, rows[..n - 1]), rows, n - 1);
    }
  }

  // The pending decisions are those of the first `n` rows.
  ghost predicate PendingAs(g: State, rows: seq<Row>, n: nat)
    requires n <= |rows|
  {
    && (forall i | 0 <= i < n && !rows[i].accepted ::
          rows[i].decision.resourceId in g.pending && g.pending[rows[i].decision.resourceId] == rows[i].decision)
    && forall r <- g.pending :: PendingFor(rows, n, r)
  }

  lemma PendingAsNext(f: State, g: State, rows: seq<Row>, n: nat)
    requires n < |rows| && TrackAfter(f, g, rows, n) && Accepts(g, rows[n]) && PendingAs(g, rows, n)
    ensures PendingAs(ReplayStep(g, rows[n]), rows, n + 1)
  {
    var h, d := ReplayStep(g, rows[n]), rows[n].decision;
    assert !rows[n].accepted ==> !PendingFor(rows, n, d.resourceId);
    ReplayedPending(g, rows[n]);
    forall r | r in h.pending ensures PendingFor(rows, n + 1, r) {
      PendingForNext(rows, n, r);
    }
  }

  lemma ReplayedPending(g: State, row: Row)
    requires Accepts(g, row)
    ensures ReplayStep(g, row).pending ==
      if row.accepted then g.pending else g.pending[row.decision.resourceId := row.decision]
  {
  }

  /** Every pending row that is accepted becomes the pending decision of its resource, and
      there is no other. */
  lemma {:induction false} RecoveredDecisions(f: State, rows: seq<Row>, n: nat)
    requires Unstarted(f) && n <= |rows| && forall i | 0 <= i < n :: Accepts(Replay(f, rows[..i]), rows[i])
    ensures PendingAs(Replay(f, rows[..n]), rows, n)
  {
    if n == 0 {
      assert rows[..0] == [];
    } else {
      RecoveredDecisions(f, rows, n - 1);
      RecoveredState(f, rows, n - 1);
      assert rows[..n][..n - 1] == rows[..n - 1];
      PendingAsNext(f, Replay(f, rows[..n - 1]), rows, n - 1);
    }
  }

  // ----- exactly which rows are accepted -----

  ghost predicate AllTogether(f: State, rows: seq<Row>) {
    && (forall i | 0 <= i < |rows| :: Sensible(f, rows[i].decision))
    && forall i, j | 0 <= i < j < |rows| :: Together(f, rows[i], rows[j])
  }

  lemma {:induction false} TogetherIsAccepted(f: State, rows: seq<Row>, n: nat)
    requires Unstarted(f) && AllTogether(f, rows) && n <= |rows|
    ensures forall i | 0 <= i < n :: AcceptedAt(f, rows, i)
  {
    if n > 0 {
      TogetherIsAccepted(f, rows, n - 1);
      NextAccepted(f, rows, n - 1);
    }
  }

  ghost predicate AcceptedAt(f: State, rows: seq<Row>, i: nat)
    requires i < |rows|
  {
    Accepts(Replay(f, rows[..i]), rows[i])
  }

  lemma NextAccepted(f: State, rows: seq<Row>, n: nat)
    requires Unstarted(f) && AllTogether(f, rows) && n < |rows|
    requires forall i | 0 <= i < n :: AcceptedAt(f, rows, i)
    ensures AcceptedAt(f, rows, n)
  {
    assert forall i | 0 <= i < n :: AcceptedAt(f, rows, i) ==> Accepts(Replay(f, rows[..i]), rows[i]);
    RecoveredState(f, rows, n);
    AcceptsIff(f, Replay(f, rows[..n]), rows, n);
  }

  /** Every row is accepted exactly when each is sensible and every two stand together;
      their order and the capacity do not matter. */
  lemma AcceptedIff(f: State, rows: seq<Row>)
    requires Unstarted(f)
    ensures Accepted(f, rows) <==> AllTogether(f, rows)
  {
    if AllTogether(f, rows) {
      TogetherIsAccepted(f, rows, |rows|);
      assert forall i | 0 <= i < |rows| :: AcceptedAt(f, rows, i) ==> Accepts(Replay(f, rows[..i]), rows[i]);
    }
    if Accepted(f, rows) {
      forall j | 0 <= j < |rows|
        ensures Sensible(f, rows[j].decision) && forall i | 0 <= i < j :: Together(f, rows[i], rows[j])
      {
        RecoveredState(f, rows, j);
        AcceptsIff(f, Replay(f, rows[..j]), rows, j);
      }
    }
  }

  /** Recovery of a service: the rows must also be of the loaded topology's revision. */
  lemma RecoverableIff(f: State, pending: seq<Decision>, active: seq<Decision>, revision: nat)
    requires Unstarted(f)
    ensures Recoverable(f, pending, active, revision) <==>
      && AllTogether(f, RowsOf(pending, active))
      && forall d | d in pending || d in active :: d.topologyRevision == revision
  {
    var rows := RowsOf(pending, active);
    AcceptedIff(f, rows);
    OfRevision(pending, active, revision);
    RecoverableParts(f, rows, pending, active, revision);
  }

  lemma RecoverableParts(f: State, rows: seq<Row>, pending: seq<Decision>, active: seq<Decision>, revision: nat)
    requires rows == RowsOf(pending, active)
    ensures Recoverable(f, pending, active, revision) <==>
      Accepted(f, rows) && forall i | 0 <= i < |rows| :: rows[i].decision.topologyRevision == revision
  {
    forall i | 0 <= i < |rows|
      ensures RowFits(f, rows, i, revision) <==>
              rows[i].decision.topologyRevision == revision && Accepts(Replay(f, rows[..i]), rows[i])
    {
    }
  }

  lemma OfRevision(pending: seq<Decision>, active: seq<Decision>, revision: nat)
    ensures var rows := RowsOf(pending, active);
      (forall i | 0 <= i < |rows| :: rows[i].decision.topologyRevision == revision) <==>
      forall d | d in pending || d in active :: d.topologyRevision == revision
  {
    var rows := RowsOf(pending, active);
    RowsOfParts(pending, active);
    if forall i | 0 <= i < |rows| :: rows[i].decision.topologyRevision == revision {
      forall d | d in pending ensures d.topologyRevision == revision {
        var i :| 0 <= i < |pending| && pending[i] == d;
        assert rows[i].decision == d;
      }
      forall d | d in active ensures d.topologyRevision == revision {
        var i :| 0 <= i < |active| && active[i] == d;
        assert rows[|pending| + i].decision == d;
      }
    }
    if forall d | d in pending || d in active :: d.topologyRevision == revision {
      forall i | 0 <= i < |rows| ensures rows[i].decision.topologyRevision == revision {
        assert i < |pending| ==> rows[i].decision in pending;
        assert i >= |pending| ==> rows[i].decision == active[i - |pending|] && active[i - |pending|] in active;
      }
    }
  }

  /** After an accepted recovery every occupancy is the number of accepted passages but no
      more than the capacity, and no clearance date is known. */
  lemma RecoveredAll(f: State, rows: seq<Row>)
    requires Unstarted(f) && Accepted(f, rows)
    ensures var g := Replay(f, rows);
      && g.corridors.Keys == f.corridors.Keys
      && (forall r <- f.corridors :: ResourceAfter(f.corridors[r], g.corridors[r], RowsAt(rows, r)))
      && (forall r <- f.corridors :: g.corridors[r].commandPending <==> PendingFor(rows, |rows|, r))
      && g.book.movements == f.book.movements && g.book.intersections.Keys == f.book.intersections.Keys
      && ActiveIsRows(g.book, rows)
      && forall ix <- g.book.intersections :: g.book.intersections[ix].lastClear == map[]
  {
    RecoveredState(f, rows, |rows|);
    assert rows[..|rows|] == rows;
  }

  // ----- what else a resource is after recovery -----

  // The latest of the start value and the issue times of the accepted rows of the resource.
  ghost predicate LatestOf(e: nat, start: nat, rows: seq<Row>, n: nat, r: string)
    requires n <= |rows|
  {
    && e >= start
    && (forall i | 0 <= i < n && rows[i].accepted && rows[i].decision.resourceId == r :: e >= rows[i].decision.issuedAt)
    && (e == start || DatesEntry(rows, n, r, e))
  }

  ghost predicate DatesEntry(rows: seq<Row>, n: nat, r: string, e: nat)
    requires n <= |rows|
  {
    exists i :: 0 <= i < n && rows[i].accepted && rows[i].decision.resourceId == r && rows[i].decision.issuedAt == e
  }

  // The resource but for occupancy, flag and last entry.
  function Standing(c: Corridor): Corridor {
    c.(occupancy := 0, commandPending := false, lastEntry := 0)
  }

  lemma ReplayedRest(g: State, row: Row, r: string)
    requires Accepts(g, row) && r in g.corridors
    ensures var h := ReplayStep(g, row);
      && r in h.corridors && Standing(h.corridors[r]) == Standing(g.corridors[r])
      && h.lines == g.lines && h.lastLine == g.lastLine && h.consecutive == g.consecutive
      && h.corridors[r].lastEntry == if row.accepted && row.decision.resourceId == r
                                     then Max(g.corridors[r].lastEntry, row.decision.issuedAt)
                                     else g.corridors[r].lastEntry
  {
  }

  lemma LatestNext(e: nat, more: nat, start: nat, rows: seq<Row>, n: nat, r: string)
    requires n < |rows| && LatestOf(e, start, rows, n, r)
    requires more == if rows[n].accepted && rows[n].decision.resourceId == r then Max(e, rows[n].decision.issuedAt) else e
    ensures LatestOf(more, start, rows, n + 1, r)
  {
    if e != start && more == e {
      var i :| 0 <= i < n && rows[i].accepted && rows[i].decision.resourceId == r && rows[i].decision.issuedAt == e;
      assert DatesEntry(rows, n + 1, r, more);
    }
    if more != e {
      assert DatesEntry(rows, n + 1, r, more);
    }
  }

  /** After the first `n` rows are accepted, each resource's last entry is the latest of its
      start value and the issue times of its accepted rows; apart from that, occupancy and
      flag the resource is as it was, and so are the lines and their release history. */
  lemma {:induction false} RecoveredHistory(f: State, rows: seq<Row>, n: nat, r: string)
    requires Accepted(f, rows) && n <= |rows| && r in f.corridors
    ensures var g := Replay(f, rows[..n]);
      && r in g.corridors && LatestOf(g.corridors[r].lastEntry, f.corridors[r].lastEntry, rows, n, r)
      && Standing(g.corridors[r]) == Standing(f.corridors[r])
      && g.lines == f.lines && g.lastLine == f.lastLine && g.consecutive == f.consecutive
  {
    if n == 0 {
      assert rows[..0] == [];
    } else {
      RecoveredHistory(f, rows, n - 1, r);
      var g := Replay(f, rows[..n - 1]);
      assert rows[..n][..n - 1] == rows[..n - 1];
      ReplayedRest(g, rows[n - 1], r);
      LatestNext(g.corridors[r].lastEntry, ReplayStep(g, rows[n - 1]).corridors[r].lastEntry, f.corridors[r].lastEntry,
                 rows, n - 1, r);
    }
  }

  lemma ReleaseIsSpaced(cfg: ManagerConfig, g: State, r: string, now: nat, wallNow: nat, d: Decision)
    requires ValidManagerConfig(cfg) && Structural(g) && PlanResult(cfg, g, r, now, wallNow, d) && d.action == Release
    ensures r in g.corridors
    ensures g.corridors[r].lastEntry == 0 || now >= g.corridors[r].lastEntry + g.corridors[r].minimumHeadway
  {
    PlannedReleaseIsReservable(cfg, g, r, now, wallNow, d);
  }

  /** The first planning after recovery releases nobody on a resource before the minimum
      headway after every accepted row restored there. */
  lemma ReleaseAfterRecovery(
    cfg: ManagerConfig, f: State, rows: seq<Row>, g: State, i: nat, now: nat, wallNow: nat, d: Decision)
    requires ValidManagerConfig(cfg) && Safe(f) && SoundBook(f.book) && Accepted(f, rows) && g == Replay(f, rows)
    requires i < |rows| && rows[i].accepted && rows[i].decision.issuedAt > 0 && GoodLines(g)
    requires PlanResult(cfg, g, rows[i].decision.resourceId, now, wallNow, d) && d.action == Release
    ensures var r := rows[i].decision.resourceId;
      r in f.corridors && now >= rows[i].decision.issuedAt + f.corridors[r].minimumHeadway
  {
    var r := rows[i].decision.resourceId;
    AnyReplayIsSafe(cfg, f, rows);
    ReleaseIsSpaced(cfg, g, r, now, wallNow, d);
    ReplayKeepsKeys(f, rows);
    assert rows[..|rows|] == rows;
    RecoveredHistory(f, rows, |rows|, r);
    SameHeadway(g.corridors[r], f.corridors[r]);
  }

  lemma SameHeadway(c: Corridor, was: Corridor)
    requires Standing(c) == Standing(was)
    ensures c.minimumHeadway == was.minimumHeadway
  {
    assert Standing(c).minimumHeadway == c.minimumHeadway && Standing(was).minimumHeadway == was.minimumHeadway;
  }

  lemma {:induction false} ReplayKeepsKeys(f: State, rows: seq<Row>)
    ensures Replay(f, rows).corridors.Keys == f.corridors.Keys
  {
    if rows != [] {
      ReplayKeepsKeys(f, rows[..|rows| - 1]);
    }
  }

  // ----- the commands in memory after recovery -----

  ghost predicate DifferentTrains(ds: seq<Decision>) {
    forall i, j | 0 <= i < j < |ds| :: ds[i].trainId != ds[j].trainId
  }

  // The pending decision of the resource is a command in memory.
  predicate HasItsCommand(commands: Commands, g: State, r: string)
    requires r in g.pending
  {
    g.pending[r].trainId in commands && commands[g.pending[r].trainId] == g.pending[r]
  }

  lemma {:induction false} ByTrainKeeps(ds: seq<Decision>, i: nat)
    requires DifferentTrains(ds) && i < |ds|
    ensures ds[i].trainId in ByTrain(ds) && ByTrain(ds)[ds[i].trainId] == ds[i]
  {
    if i < |ds| - 1 {
      ByTrainKeeps(ds[..|ds| - 1], i);
    }
  }

  lemma PendingIndex(f: State, pending: seq<Decision>, active: seq<Decision>, i: nat)
    requires Unstarted(f) && Accepted(f, RowsOf(pending, active)) && i < |pending|
    ensures var g := Replay(f, RowsOf(pending, active));
      pending[i].resourceId in g.pending && g.pending[pending[i].resourceId] == pending[i]
  {
    var rows := RowsOf(pending, active);
    RowsOfParts(pending, active);
    RecoveredDecisions(f, rows, |rows|);
    assert rows[..|rows|] == rows && rows[i] == Row(pending[i], false);
  }

  lemma PendingFromList(f: State, pending: seq<Decision>, active: seq<Decision>, r: string) returns (i: nat)
    requires Unstarted(f) && Accepted(f, RowsOf(pending, active)) && r in Replay(f, RowsOf(pending, active)).pending
    ensures i < |pending| && pending[i].resourceId == r
  {
    var rows := RowsOf(pending, active);
    RowsOfParts(pending, active);
    RecoveredDecisions(f, rows, |rows|);
    assert rows[..|rows|] == rows;
    forall k | |pending| <= k < |rows| ensures rows[k].accepted {
      assert rows[|pending| + (k - |pending|)] == Row(active[k - |pending|], true);
    }
    i :| i < |rows| && !rows[i].accepted && rows[i].decision.resourceId == r;
  }

  // Two pending rows that are accepted are for different resources.
  lemma PendingElsewhere(f: State, pending: seq<Decision>, active: seq<Decision>, i: nat, j: nat)
    requires Unstarted(f) && Accepted(f, RowsOf(pending, active)) && i < j < |pending|
    ensures pending[i].resourceId != pending[j].resourceId
  {
    var rows := RowsOf(pending, active);
    RowsOfParts(pending, active);
    AcceptedIff(f, rows);
    assert Together(f, rows[i], rows[j]);
  }

  /** Recovery files one command for each train.  Every restored pending decision has its
      command exactly when the PENDING rows are of different trains; otherwise a resource is
      locked by a decision nobody can answer. */
  lemma CommandsRecoveredIff(f: State, pending: seq<Decision>, active: seq<Decision>)
    requires Unstarted(f) && Accepted(f, RowsOf(pending, active))
    ensures var g := Replay(f, RowsOf(pending, active));
      (forall r <- g.pending :: HasItsCommand(ByTrain(pending), g, r)) <==> DifferentTrains(pending)
  {
    var g := Replay(f, RowsOf(pending, active));
    if DifferentTrains(pending) {
      forall r | r in g.pending ensures HasItsCommand(ByTrain(pending), g, r) {
        var i := PendingFromList(f, pending, active, r);
        PendingIndex(f, pending, active, i);
        ByTrainKeeps(pending, i);
      }
    } else {
      var i, j :| 0 <= i < j < |pending| && pending[i].trainId == pending[j].trainId;
      PendingIndex(f, pending, active, i);
      PendingIndex(f, pending, active, j);
      PendingElsewhere(f, pending, active, i, j);
      assert !HasItsCommand(ByTrain(pending), g, pending[i].resourceId)
          || !HasItsCommand(ByTrain(pending), g, pending[j].resourceId);
    }
  }

  /** A rebuilt resource with room for one: both of two accepted passages are restored, the
      second one on the full resource without being counted. */
  lemma FullResourceRestored(cfg: ManagerConfig, t: Topology, now: nat, r: string, first: Decision, second: Decision)
    requires ValidManagerConfig(cfg) && cfg.defaultCapacity == 1 && r in Built(cfg, t, now).corridors
    requires first.resourceId == r && first.trainId == "A" && first.movementIds == []
    requires second.resourceId == r && second.trainId == "B" && second.movementIds == []
    ensures var f, rows := Built(cfg, t, now), [Row(first, true), Row(second, true)];
      && Accepted(f, rows) && Replay(f, rows[..1]).corridors[r].occupancy == 1
      && Replay(f, rows).corridors[r].occupancy == 1
  {
    var f, rows := Built(cfg, t, now), [Row(first, true), Row(second, true)];
    BuiltIsUnstarted(cfg, t, now);
    BuiltCapacity(cfg, t, now, r);
    TwoPassages(f, rows, r);
    AcceptedIff(f, rows);
    OccupancyAt(f, rows, r, 1);
    OccupancyAt(f, rows, r, 2);
    RowsAtNext(rows, 0, r);
    RowsAtNext(rows, 1, r);
    assert rows[..2] == rows;
  }

  lemma TwoPassages(f: State, rows: seq<Row>, r: string)
    requires |rows| == 2 && r in f.corridors
    requires forall i | 0 <= i < 2 ::
      rows[i].accepted && rows[i].decision.resourceId == r && rows[i].decision.trainId != ""
      && rows[i].decision.movementIds == []
    ensures AllTogether(f, rows)
  {
  }

  lemma OccupancyAt(f: State, rows: seq<Row>, r: string, n: nat)
    requires Unstarted(f) && Accepted(f, rows) && n <= |rows| && r in f.corridors
    ensures var g := Replay(f, rows[..n]);
      r in g.corridors && g.corridors[r].occupancy == AtMost(f.corridors[r].capacity, RowsAt(rows[..n], r))
  {
    RecoveredState(f, rows, n);
    assert ResourceAfter(f.corridors[r], Replay(f, rows[..n]).corridors[r], RowsAt(rows[..n], r));
  }

  lemma BuiltCapacity(cfg: ManagerConfig, t: Topology, now: nat, r: string)
    requires ValidManagerConfig(cfg) && r in Built(cfg, t, now).corridors
    ensures Built(cfg, t, now).corridors[r].capacity == cfg.defaultCapacity
  {
    BuiltFromTopology(cfg, t, now);
    var p :| p in Setup.Pairs(t.shared) && r == ResourceId(p.0, p.1);
  }
}
