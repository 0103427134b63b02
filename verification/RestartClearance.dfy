/** Clearance times and restart.  The dates of past clears are not stored, so a reservation
    right after a restart waits for none of them; exactly when that matters. */
module RestartClearance {
  import opened Basics
  import opened Reservations
  import opened Policy
  import opened DispatchSpec
  import opened DispatchManagers
  import opened DispatchRuns
  import opened Restart
  import opened Lifecycle
  import opened Setup
  import opened LiveRows
  import opened Recovery
  import opened Lives
  import opened Restarts
  import opened TwoCorridors
  import opened CrossingLife
  import R = ReservationRuns

  // No clear is remembered.
  ghost predicate Undated(b: Book) {
    forall ix <- b.intersections :: b.intersections[ix].lastClear == map[]
  }

  /** `c` holds what `b` holds and remembers no clear. */
  ghost predicate Forgetful(b: Book, c: Book) {
    && c.movements == b.movements && c.intersections.Keys == b.intersections.Keys && Undated(c)
    && forall ix <- b.intersections :: c.intersections[ix].active == b.intersections[ix].active
  }

  // No remembered clear is too recent for movement `l`.
  ghost predicate Rested(b: Book, l: string, now: nat)
    requires l in b.movements
  {
    b.movements[l].intersectionId in b.intersections ==>
      forall k :: !TooRecent(b, b.intersections[b.movements[l].intersectionId], b.movements[l], k, now)
  }

  ghost predicate AllRested(b: Book, ids: seq<string>, now: nat) {
    forall l <- ids :: l in b.movements ==> Rested(b, l, now)
  }

  lemma FreeIffRested(b: Book, c: Book, l: string, now: nat)
    requires Forgetful(b, c) && l in b.movements
    ensures Free(b, b.movements[l], now) <==> Free(c, b.movements[l], now) && Rested(b, l, now)
  {
    var m := b.movements[l];
    if m.intersectionId in b.intersections {
      var rt, su := b.intersections[m.intersectionId], c.intersections[m.intersectionId];
      assert forall k :: Blocks(b, rt, m, k) <==> Blocks(c, su, m, k);
    }
  }

  /** What the restarted book allows and the live one does not is exactly what has to wait
      for a clearance. */
  lemma ReservableAfterRestartIff(b: Book, c: Book, ids: seq<string>, now: nat)
    requires Forgetful(b, c)
    ensures Reservable(b, ids, now) <==> Reservable(c, ids, now) && AllRested(b, ids, now)
  {
    if Known(b, ids) {
      forall l | l in ids ensures Free(b, b.movements[l], now) <==> Free(c, b.movements[l], now) && Rested(b, l, now) {
        FreeIffRested(b, c, l, now);
      }
    }
  }

  // ----- the dates and the clears of a run -----

  lemma DateAfter(b: Book, op: R.Op, ix: string, k: string)
    requires ix in R.Apply(b, op).intersections && k in R.Apply(b, op).intersections[ix].lastClear
    ensures (R.Clears(b, op, k) && R.Apply(b, op).intersections[ix].lastClear[k] == op.now)
            || (ix in b.intersections && k in b.intersections[ix].lastClear
                && R.Apply(b, op).intersections[ix].lastClear[k] == b.intersections[ix].lastClear[k])
  {
  }

  /** Every remembered date is that of a clear of the run. */
  lemma {:induction false} DateIsAClear(start: Book, ops: seq<R.Op>, n: nat, ix: string, k: string) returns (i: nat)
    requires Undated(start) && n <= |ops|
    requires ix in R.After(start, ops[..n]).intersections && k in R.After(start, ops[..n]).intersections[ix].lastClear
    ensures i < n && R.Clears(R.After(start, ops[..i]), ops[i], k)
    ensures ops[i].now == R.After(start, ops[..n]).intersections[ix].lastClear[k]
  {
    NothingDone(start, ops);
    R.AfterPrefix(start, ops, n - 1);
    var b := R.After(start, ops[..n - 1]);
    DateAfter(b, ops[n - 1], ix, k);
    if R.Clears(b, ops[n - 1], k) && ops[n - 1].now == R.After(start, ops[..n]).intersections[ix].lastClear[k] {
      i := n - 1;
    } else {
      i := DateIsAClear(start, ops, n - 1, ix, k);
    }
  }

  lemma NothingDone(start: Book, ops: seq<R.Op>)
    ensures R.After(start, ops[..0]) == start
  {
  }

  /** The `i`-th operation cleared a movement that conflicts with `l`. */
  ghost predicate ConflictingClear(start: Book, ops: seq<R.Op>, i: nat, k: string, l: string)
    requires i < |ops|
  {
    var b := R.After(start, ops);
    R.Clears(R.After(start, ops[..i]), ops[i], k) && Clash(b, l, k)
  }

  /** Time `now` is at least the larger of the two clearance times after every clear so far of
      a movement that conflicts with `l`. */
  ghost predicate AfterEveryClear(start: Book, ops: seq<R.Op>, l: string, now: nat)
    requires l in R.After(start, ops).movements
  {
    forall i, k | 0 <= i < |ops| && ConflictingClear(start, ops, i, k, l) ::
      var b := R.After(start, ops);
      now >= ops[i].now + PairClearance(start.defaultClearanceMs, b.movements[l], b.movements[k])
  }

  lemma RestedMeansAfter(start: Book, ops: seq<R.Op>, l: string, now: nat, i: nat, k: string)
    requires R.WellFormed(start) && R.FreshRun(start, ops) && R.TimelyRun(start, ops)
    requires l in R.After(start, ops).movements && Rested(R.After(start, ops), l, now)
    requires i < |ops| && ConflictingClear(start, ops, i, k, l)
    ensures var b := R.After(start, ops);
      now >= ops[i].now + PairClearance(start.defaultClearanceMs, b.movements[l], b.movements[k])
  {
    var b := R.After(start, ops);
    assert ops[..|ops|] == ops;
    R.ClearStaysAccounted(start, ops, i, |ops|, k);
    R.StaysWellFormed(start, ops, |ops|);
    assert !TooRecent(b, b.intersections[b.movements[l].intersectionId], b.movements[l], k, now);
  }

  lemma AfterMeansRested(start: Book, ops: seq<R.Op>, l: string, now: nat)
    requires R.WellFormed(start) && Undated(start) && R.FreshRun(start, ops)
    requires l in R.After(start, ops).movements && AfterEveryClear(start, ops, l, now)
    ensures Rested(R.After(start, ops), l, now)
  {
    var b := R.After(start, ops);
    assert ops[..|ops|] == ops;
    R.StaysWellFormed(start, ops, |ops|);
    var ix := b.movements[l].intersectionId;
    if ix in b.intersections {
      forall k ensures !TooRecent(b, b.intersections[ix], b.movements[l], k, now) {
        if k in b.intersections[ix].lastClear {
          var i := DateIsAClear(start, ops, |ops|, ix, k);
          assert ConflictingClear(start, ops, i, k, l) <==> Clash(b, l, k);
        }
      }
    }
  }

  lemma AfterEveryClearIff(start: Book, ops: seq<R.Op>, l: string, now: nat)
    requires R.WellFormed(start) && Undated(start) && R.FreshRun(start, ops) && R.TimelyRun(start, ops)
    requires l in R.After(start, ops).movements
    ensures AfterEveryClear(start, ops, l, now) <==> Rested(R.After(start, ops), l, now)
  {
    if Rested(R.After(start, ops), l, now) {
      forall i, k | 0 <= i < |ops| && ConflictingClear(start, ops, i, k, l)
        ensures var b := R.After(start, ops);
          now >= ops[i].now + PairClearance(start.defaultClearanceMs, b.movements[l], b.movements[k])
      {
        RestedMeansAfter(start, ops, l, now, i, k);
      }
    } else if AfterEveryClear(start, ops, l, now) {
      AfterMeansRested(start, ops, l, now);
    }
  }

  /** A reservation the restarted book allows keeps the clearance after every clear before
      the restart exactly when the live book would have allowed it too, that is when no
      conflicting clear it remembered was too recent. */
  lemma RestartKeepsClearanceIff(start: Book, ops: seq<R.Op>, c: Book, ids: seq<string>, now: nat)
    requires R.WellFormed(start) && Undated(start) && R.FreshRun(start, ops) && R.TimelyRun(start, ops)
    requires Forgetful(R.After(start, ops), c) && Reservable(c, ids, now)
    ensures (forall l <- ids :: AfterEveryClear(start, ops, l, now)) <==> Reservable(R.After(start, ops), ids, now)
  {
    var b := R.After(start, ops);
    ReservableAfterRestartIff(b, c, ids, now);
    forall l | l in ids ensures AfterEveryClear(start, ops, l, now) <==> Rested(b, l, now) {
      AfterEveryClearIff(start, ops, l, now);
    }
  }

  // ----- the book of a life -----

  // The reservation operations of a deed.
  ghost function DeedOps(m: Moment, deed: Deed): seq<R.Op> {
    match deed
    case Issue(r, now, _, d, _) =>
      if r in m.state.corridors && d.action == Release then [R.Reserve(d.trainId, d.movementIds, now)] else []
    case Reject(i) => if i < |m.live| then CancelOps(m.state, m.live[i].decision.resourceId) else []
    case Clear(train, _, ixs, now) => ClearOps(ixs, train, now)
    case Stale(train) =>
      if HasCommand(m.live, train)
      then CancelOps(m.state, m.live[CommandRow(m.live, train)].decision.resourceId) else []
    case _ => []
  }

  function CancelOps(s: State, r: string): seq<R.Op> {
    if r in s.pending then [R.Cancel(s.pending[r].trainId)] else []
  }

  function ClearOps(ixs: seq<string>, train: string, now: nat): (ops: seq<R.Op>)
    ensures |ops| == |ixs| && forall i | 0 <= i < |ixs| :: ops[i] == R.Clear(ixs[i], train, now)
  {
    if ixs == [] then [] else ClearOps(ixs[..|ixs| - 1], train, now) + [R.Clear(ixs[|ixs| - 1], train, now)]
  }

  ghost function LifeOps(moments: seq<Moment>, deeds: seq<Deed>, n: nat): (ops: seq<R.Op>)
    requires n <= |deeds| <= |moments|
    ensures forall i | 0 <= i < |ops| :: !ops[i].Register?
  {
    if n == 0 then [] else LifeOps(moments, deeds, n - 1) + DeedOps(moments[n - 1], deeds[n - 1])
  }

  lemma {:induction false} AfterAppend(b: Book, p: seq<R.Op>, q: seq<R.Op>)
    ensures R.After(b, p + q) == R.After(R.After(b, p), q)
  {
    if q == [] {
      assert p + q == p;
    } else {
      AfterAppend(b, p, q[..|q| - 1]);
      assert (p + q)[..|p + q| - 1] == p + q[..|q| - 1];
    }
  }

  lemma {:induction false} ClearsAreOps(b: Book, ixs: seq<string>, train: string, now: nat)
    ensures ClearedAll(b, ixs, train, now) == R.After(b, ClearOps(ixs, train, now))
  {
    if ixs != [] {
      ClearsAreOps(b, ixs[..|ixs| - 1], train, now);
      var ops := ClearOps(ixs, train, now);
      assert ops[..|ops| - 1] == ClearOps(ixs[..|ixs| - 1], train, now);
    }
  }

  lemma OneOp(b: Book, op: R.Op)
    ensures R.After(b, [op]) == R.Apply(b, op)
  {
    assert [op][..0] == [] && R.After(b, []) == b;
  }

  lemma CancelsAreOps(s: State, r: string)
    ensures PendingCancelled(s, r).book == R.After(s.book, CancelOps(s, r))
  {
    if r in s.pending {
      OneOp(s.book, R.Cancel(s.pending[r].trainId));
    }
  }

  lemma ReleaseIsOp(cfg: ManagerConfig, s: State, r: string, now: nat, wallNow: nat, d: Decision)
    requires ValidManagerConfig(cfg) && GoodLines(s) && Keyed(s.book) && GoodCorridors(s)
    requires PlanResult(cfg, s, r, now, wallNow, d) && r in s.corridors && d.action == Release
    ensures Planned(s, r, now, d).book == R.After(s.book, [R.Reserve(d.trainId, d.movementIds, now)])
  {
    PlannedReleaseIsReservable(cfg, s, r, now, wallNow, d);
    OneOp(s.book, R.Reserve(d.trainId, d.movementIds, now));
  }

  lemma DeedIsOps(cfg: ManagerConfig, revision: nat, m: Moment, deed: Deed, next: Moment)
    requires ValidManagerConfig(cfg) && Safe(m.state) && DeedAt(cfg, revision, m, deed, next)
    ensures next.state.book == R.After(m.state.book, DeedOps(m, deed))
  {
    match deed
    case Issue(r, now, wallNow, d, _) =>
      if r in m.state.corridors && d.action == Release {
        ReleaseIsOp(cfg, m.state, r, now, wallNow, d);
      }
    case Reject(i) => CancelsAreOps(m.state, m.live[i].decision.resourceId);
    case Clear(train, _, ixs, now) => ClearsAreOps(m.state.book, ixs, train, now);
    case Stale(train) =>
      if HasCommand(m.live, train) {
        CancelsAreOps(m.state, m.live[CommandRow(m.live, train)].decision.resourceId);
      }
    case _ =>
  }

  // The book at moment `n` is what the operations so far make of `start`.
  ghost predicate BookIsAfter(start: Book, moments: seq<Moment>, deeds: seq<Deed>, n: nat)
    requires n <= |deeds| < |moments|
  {
    moments[n].state.book == R.After(start, LifeOps(moments, deeds, n))
  }

  lemma {:induction false} BookFromStart(
    cfg: ManagerConfig, topology: Topology, then_: nat, moments: seq<Moment>, deeds: seq<Deed>, n: nat, start: Book)
    requires ValidManagerConfig(cfg) && Life(cfg, topology, then_, moments, deeds) && n <= |deeds|
    requires BookIsAfter(start, moments, deeds, 0)
    ensures BookIsAfter(start, moments, deeds, n)
  {
    if n > 0 {
      BookFromStart(cfg, topology, then_, moments, deeds, n - 1, start);
      BookNextOfLife(cfg, topology, then_, moments, deeds, n - 1, start);
    }
  }

  lemma BookNextOfLife(
    cfg: ManagerConfig, topology: Topology, then_: nat, moments: seq<Moment>, deeds: seq<Deed>, n: nat, start: Book)
    requires ValidManagerConfig(cfg) && Life(cfg, topology, then_, moments, deeds) && n < |deeds|
    requires BookIsAfter(start, moments, deeds, n)
    ensures BookIsAfter(start, moments, deeds, n + 1)
  {
    BookOfDeed(cfg, topology, then_, moments, deeds, n);
    BookGrows(start, moments, deeds, n);
  }

  /** The book of a life is what its reservations, clears and cancellations make of the
      rebuilt one. */
  lemma BookOfLife(
    cfg: ManagerConfig, topology: Topology, then_: nat, moments: seq<Moment>, deeds: seq<Deed>, n: nat)
    requires ValidManagerConfig(cfg) && Life(cfg, topology, then_, moments, deeds) && n <= |deeds|
    ensures BookIsAfter(moments[0].state.book, moments, deeds, n)
  {
    BookStarts(moments, deeds);
    BookFromStart(cfg, topology, then_, moments, deeds, n, moments[0].state.book);
  }

  lemma BookStarts(moments: seq<Moment>, deeds: seq<Deed>)
    requires |deeds| < |moments|
    ensures BookIsAfter(moments[0].state.book, moments, deeds, 0)
  {
  }

  lemma BookGrows(start: Book, moments: seq<Moment>, deeds: seq<Deed>, n: nat)
    requires n < |deeds| < |moments| && BookIsAfter(start, moments, deeds, n)
    requires moments[n + 1].state.book == R.After(moments[n].state.book, DeedOps(moments[n], deeds[n]))
    ensures BookIsAfter(start, moments, deeds, n + 1)
  {
    AfterAppend(start, LifeOps(moments, deeds, n), DeedOps(moments[n], deeds[n]));
  }

  lemma BookOfDeed(
    cfg: ManagerConfig, topology: Topology, then_: nat, moments: seq<Moment>, deeds: seq<Deed>, n: nat)
    requires ValidManagerConfig(cfg) && Life(cfg, topology, then_, moments, deeds) && n < |deeds|
    ensures moments[n + 1].state.book == R.After(moments[n].state.book, DeedOps(moments[n], deeds[n]))
  {
    AlwaysFollowed(cfg, topology, then_, moments, deeds, n, then_);
    assert LifeAt(cfg, topology.revision, moments, deeds, n);
    DeedIsOps(cfg, topology.revision, moments[n], deeds[n], moments[n + 1]);
  }

  lemma NoRegistrations(b: Book, ops: seq<R.Op>)
    requires forall i | 0 <= i < |ops| :: !ops[i].Register?
    ensures R.FreshRun(b, ops)
  {
    forall i | 0 <= i < |ops| ensures R.FreshAt(b, ops, i) {
      assert !ops[i].Register?;
    }
  }

  lemma RecoveredForgets(f: State, s: State, rows: seq<Row>)
    requires Unstarted(f) && Rebuilt(s, f) && Accepted(f, rows) && SameReservations(s.book, Replay(f, rows).book)
    ensures Forgetful(s.book, Replay(f, rows).book)
  {
    RecoveredAll(f, rows);
  }

  /** Restart in any life, if it restores the reservations and clears were not dated before
      the reservations they freed: what is reserved next keeps the clearance after every
      earlier clear exactly when the live book would have allowed it. */
  lemma ClearanceAcrossRestartIff(
    cfg: ManagerConfig, topology: Topology, then_: nat, moments: seq<Moment>, deeds: seq<Deed>, n: nat, now: nat,
    rows: seq<Row>, ids: seq<string>, at: nat)
    requires ValidManagerConfig(cfg) && Life(cfg, topology, then_, moments, deeds) && n <= |deeds|
    requires R.TimelyRun(moments[0].state.book, LifeOps(moments, deeds, n))
    requires var g := Replay(Built(cfg, topology, now), rows);
      && Accepted(Built(cfg, topology, now), rows) && SameReservations(moments[n].state.book, g.book)
      && Reservable(g.book, ids, at)
    ensures var start, ops := moments[0].state.book, LifeOps(moments, deeds, n);
      && R.After(start, ops) == moments[n].state.book && Known(moments[n].state.book, ids)
      && ((forall l <- ids :: AfterEveryClear(start, ops, l, at)) <==> Reservable(moments[n].state.book, ids, at))
  {
    var f, s := Built(cfg, topology, now), moments[n].state;
    var start, ops := moments[0].state.book, LifeOps(moments, deeds, n);
    BookOfLife(cfg, topology, then_, moments, deeds, n);
    AlwaysFollowed(cfg, topology, then_, moments, deeds, n, now);
    BuiltIsUnstarted(cfg, topology, now);
    RecoveredForgets(f, s, rows);
    BuiltUndated(cfg, topology, then_);
    NoRegistrations(start, ops);
    RestartKeepsClearanceIff(start, ops, Replay(f, rows).book, ids, at);
  }

  lemma BuiltUndated(cfg: ManagerConfig, topology: Topology, now: nat)
    requires ValidManagerConfig(cfg)
    ensures var b := Built(cfg, topology, now).book; R.WellFormed(b) && Undated(b)
  {
    BuiltIsUnstarted(cfg, topology, now);
  }

  // ----- a life in which it matters -----

  // The train inside clears the crossing and the corridor.
  lemma TrainClears(cfg: ManagerConfig, m: Moment, d: Decision) returns (next: Moment)
    requires ValidManagerConfig(cfg) && GoodLines(m.state) && m.live == [Row(CommandOf(d), true)] && d.trainId == "A"
    requires d.resourceId == On("C") && m.state.book == AtCrossing(cfg.defaultClearance, Held)
    ensures DeedAt(cfg, 1, m, Clear("A", On("C"), ["I"], 1), next)
    ensures next.live == [] && next.stray == m.stray
    ensures next.state.book == AtCrossing(cfg.defaultClearance, Passed)
  {
    assert PassageRow(m.live, "A") == 0 && Without(m.live, 0) == [];
    CrossingCleared(cfg.defaultClearance);
    next := Moment(LeftState(m.state, On("C"), ["I"], "A", 1), [], m.stray, m.unfiled);
  }

  lemma ClearedLife(cfg: ManagerConfig) returns (moments: seq<Moment>, deeds: seq<Deed>, d: Decision)
    requires ValidManagerConfig(cfg)
    ensures Life(cfg, Crossing(), 1, moments, deeds)
    ensures deeds == [Offering("C", "A", ["M"]), Releasing("C", d), Accept(0, 1), Clear("A", On("C"), ["I"], 1)]
    ensures d.action == Release && d.trainId == "A" && d.movementIds == ["M"] && On("C") in moments[1].state.corridors
    ensures moments[4].live == [] && moments[4].stray == []
    ensures moments[4].state.book == AtCrossing(cfg.defaultClearance, Passed)
  {
    var front, past, cleared;
    front, past, d := FirstEntry(cfg);
    cleared := TrainClears(cfg, front[3], d);
    LifeGrows(cfg, Crossing(), 1, front, past, Clear("A", On("C"), ["I"], 1), cleared);
    moments, deeds := front + [cleared], past + [Clear("A", On("C"), ["I"], 1)];
  }

  lemma CrossingOps(moments: seq<Moment>, deeds: seq<Deed>, d: Decision)
    requires |moments| == 5
    requires deeds == [Offering("C", "A", ["M"]), Releasing("C", d), Accept(0, 1), Clear("A", On("C"), ["I"], 1)]
    requires d.action == Release && d.trainId == "A" && d.movementIds == ["M"] && On("C") in moments[1].state.corridors
    ensures LifeOps(moments, deeds, 4) == [R.Reserve("A", ["M"], 1), R.Clear("I", "A", 1)]
  {
    assert ["I"][..0] == [] && ClearOps(["I"], "A", 1) == [R.Clear("I", "A", 1)];
    assert LifeOps(moments, deeds, 1) == [];
    assert LifeOps(moments, deeds, 2) == [R.Reserve("A", ["M"], 1)];
    assert LifeOps(moments, deeds, 3) == [R.Reserve("A", ["M"], 1)];
  }

  lemma CrossingTimely(clearance: nat)
    ensures R.TimelyRun(AtCrossing(clearance, EmptyRuntime), [R.Reserve("A", ["M"], 1), R.Clear("I", "A", 1)])
  {
    var b, ops := AtCrossing(clearance, EmptyRuntime), [R.Reserve("A", ["M"], 1), R.Clear("I", "A", 1)];
    NothingDone(b, ops);
    R.AfterPrefix(b, ops, 0);
    CrossingReserved(clearance);
    assert R.TimelyAt(b, ops, 0) && R.TimelyAt(b, ops, 1);
  }

  /** A life in which a train clears a crossing at time 1.  After a restart at that moment the
      movement can be reserved again at time 1, before any clearance has passed, which the
      live book refuses. */
  lemma RestartLosesClearance(cfg: ManagerConfig, now: nat) returns (moments: seq<Moment>, deeds: seq<Deed>)
    requires ValidManagerConfig(cfg)
    ensures Life(cfg, Crossing(), 1, moments, deeds) && |deeds| == 4 && Stored(moments[4]) == multiset{}
    ensures Recoverable(Built(cfg, Crossing(), now), [], [], 1)
    ensures Reservable(Replay(Built(cfg, Crossing(), now), RowsOf([], [])).book, ["M"], 1)
    ensures !Reservable(moments[4].state.book, ["M"], 1)
    ensures var start, ops := moments[0].state.book, LifeOps(moments, deeds, 4);
      && R.TimelyRun(start, ops) && ops == [R.Reserve("A", ["M"], 1), R.Clear("I", "A", 1)]
      && "M" in R.After(start, ops).movements && !AfterEveryClear(start, ops, "M", 1)
  {
    var d;
    moments, deeds, d := ClearedLife(cfg);
    CrossingOps(moments, deeds, d);
    CrossingBook(cfg, 1);
    CrossingBook(cfg, now);
    CrossingTimely(cfg.defaultClearance);
    CrossingReserved(cfg.defaultClearance);
    NothingToRecover(Built(cfg, Crossing(), now), 1);
    PassedIsRecent(cfg.defaultClearance);
    NothingHeldEither(cfg.defaultClearance);
    ClearanceAcrossRestartIff(cfg, Crossing(), 1, moments, deeds, 4, now, [], ["M"], 1);
  }

  lemma NothingHeldEither(clearance: nat)
    ensures SameReservations(AtCrossing(clearance, Passed), AtCrossing(clearance, EmptyRuntime))
  {
  }

  lemma NothingToRecover(f: State, revision: nat)
    ensures RowsOf([], []) == [] && Replay(f, []) == f && Accepted(f, []) && Recoverable(f, [], [], revision)
  {
  }

  lemma PassedIsRecent(clearance: nat)
    requires clearance > 0
    ensures !Reservable(AtCrossing(clearance, Passed), ["M"], 1)
  {
    var b := AtCrossing(clearance, Passed);
    assert TooRecent(b, b.intersections["I"], b.movements["M"], "M", 1);
    assert !Free(b, b.movements["M"], 1);
  }
}
