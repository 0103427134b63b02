/** Whole runs of the reservation book.  A run is a sequence of operations applied to a
    well-formed book; the theorems speak of any two points of any run. */
module ReservationRuns {
  import opened Basics
  import opened Reservations

  datatype Op =
    | Register(movement: Movement)
    | Reserve(train: string, ids: seq<string>, now: nat)
    | Clear(intersectionId: string, train: string, now: nat)
    | Cancel(train: string)

  ghost function Apply(b: Book, op: Op): Book {
    match op
    case Register(m) => if WellNamed(m) then Registered(b, m) else b
    case Reserve(train, ids, now) =>
      if train != "" && Reservable(b, ids, now) then Reserved(b, train, ids, now) else b
    case Clear(ix, train, now) => Cleared(b, ix, train, now)
    case Cancel(train) => Cancelled(b, train)
  }

  ghost function After(b: Book, ops: seq<Op>): Book {
    if ops == [] then b else Apply(After(b, ops[..|ops| - 1]), ops[|ops| - 1])
  }

  // ----- hypotheses on the caller -----

  // Nothing is held or dated under the id.
  ghost predicate Unused(b: Book, id: string) {
    forall ix <- b.intersections :: id !in b.intersections[ix].active && id !in b.intersections[ix].lastClear
  }

  // Registration does not redefine a movement that is held or dated, as while a topology is
  // set up.
  ghost predicate FreshId(b: Book, op: Op) {
    op.Register? ==> Unused(b, op.movement.movementId)
  }

  // A clear is not dated before the reservations it clears.
  predicate Timely(b: Book, op: Op) {
    op.Clear? && op.intersectionId in b.intersections ==>
      var active := b.intersections[op.intersectionId].active;
      forall k <- HeldBy(active, op.train) :: active[k].reservedAt <= op.now
  }

  ghost predicate FreshRun(b: Book, ops: seq<Op>) {
    forall i | 0 <= i < |ops| :: FreshAt(b, ops, i)
  }

  ghost predicate FreshAt(b: Book, ops: seq<Op>, i: nat)
    requires i < |ops|
  {
    FreshId(After(b, ops[..i]), ops[i])
  }

  ghost predicate TimelyRun(b: Book, ops: seq<Op>) {
    forall i | 0 <= i < |ops| :: TimelyAt(b, ops, i)
  }

  ghost predicate TimelyAt(b: Book, ops: seq<Op>, i: nat)
    requires i < |ops|
  {
    Timely(After(b, ops[..i]), ops[i])
  }

  // ----- events -----

  // `op` clears movement `k` in state `b`.
  predicate Clears(b: Book, op: Op, k: string) {
    && op.Clear? && op.intersectionId in b.intersections
    && k in HeldBy(b.intersections[op.intersectionId].active, op.train)
  }

  // `op` newly reserves movement `k` in state `b`.
  ghost predicate Reserves(b: Book, op: Op, k: string) {
    op.Reserve? && op.train != "" && Reservable(b, op.ids, op.now) && k in op.ids
  }

  // ----- invariants -----

  /** Active and cleared entries sit at the intersection their movement belongs to. */
  ghost predicate WellFormed(b: Book) {
    && Keyed(b)
    && (forall ix <- b.intersections, k <- b.intersections[ix].active ::
          k in b.movements && b.movements[k].intersectionId == ix)
    && (forall ix <- b.intersections, k <- b.intersections[ix].lastClear ::
          k in b.movements && b.movements[k].intersectionId == ix)
  }

  /** No two conflicting movements of one intersection are held together. */
  ghost predicate ConflictFree(b: Book) {
    forall ix <- b.intersections, k <- b.intersections[ix].active, l <- b.intersections[ix].active ::
      k != l && k in b.movements && l in b.movements ==> !Conflict(b.movements[k], b.movements[l])
  }

  lemma RegisterKeepsWellFormed(b: Book, m: Movement)
    requires WellFormed(b) && Unused(b, m.movementId)
    ensures WellFormed(Registered(b, m))
  {
  }

  lemma ReserveKeepsWellFormed(b: Book, train: string, ids: seq<string>, now: nat)
    requires WellFormed(b)
    ensures WellFormed(Reserved(b, train, ids, now))
  {
  }

  lemma ReleaseKeepsWellFormed(b: Book, ix: string, train: string, now: nat)
    requires WellFormed(b)
    ensures WellFormed(Cleared(b, ix, train, now)) && WellFormed(Cancelled(b, train))
  {
  }

  lemma StepKeepsWellFormed(b: Book, op: Op)
    requires WellFormed(b) && FreshId(b, op)
    ensures WellFormed(Apply(b, op))
  {
    match op
    case Register(m) => RegisterKeepsWellFormed(b, m);
    case Reserve(train, ids, now) => ReserveKeepsWellFormed(b, train, ids, now);
    case Clear(ix, train, now) => ReleaseKeepsWellFormed(b, ix, train, now);
    case Cancel(train) => ReleaseKeepsWellFormed(b, "", train, 0);
  }

  lemma RegisterKeepsConflictFree(b: Book, m: Movement)
    requires WellFormed(b) && ConflictFree(b) && Unused(b, m.movementId)
    ensures ConflictFree(Registered(b, m))
  {
    var c := Registered(b, m);
    forall ix, k, l |
      && ix in c.intersections && k in c.intersections[ix].active && l in c.intersections[ix].active
      && k != l && k in c.movements && l in c.movements
      ensures !Conflict(c.movements[k], c.movements[l])
    {
      assert ix in b.intersections && c.intersections[ix] == b.intersections[ix];
      assert k != m.movementId && l != m.movementId;
    }
  }

  lemma ReleaseKeepsConflictFree(b: Book, ix: string, train: string, now: nat)
    requires ConflictFree(b)
    ensures ConflictFree(Cleared(b, ix, train, now)) && ConflictFree(Cancelled(b, train))
  {
  }

  // Two movements held at `ix` after a reservation do not conflict.
  lemma ReservedPair(b: Book, train: string, ids: seq<string>, now: nat, ix: string, k: string, l: string)
    requires WellFormed(b) && ConflictFree(b) && Reservable(b, ids, now) && ix in b.intersections
    requires var active := RuntimeReserved(b, ix, train, ids, now).active; k in active && l in active && k != l
    ensures k in b.movements && l in b.movements && !Conflict(b.movements[k], b.movements[l])
  {
    var rt := b.intersections[ix];
    if k in rt.active && l !in rt.active {
      assert !Blocks(b, rt, b.movements[l], k);
    } else if k !in rt.active && l in rt.active {
      assert !Blocks(b, rt, b.movements[k], l);
    }
  }

  lemma ReserveKeepsConflictFree(b: Book, train: string, ids: seq<string>, now: nat)
    requires WellFormed(b) && ConflictFree(b) && Reservable(b, ids, now)
    ensures ConflictFree(Reserved(b, train, ids, now))
  {
    var c := Reserved(b, train, ids, now);
    forall ix, k, l |
      && ix in c.intersections && k in c.intersections[ix].active && l in c.intersections[ix].active
      && k != l && k in c.movements && l in c.movements
      ensures !Conflict(c.movements[k], c.movements[l])
    {
      ReservedPair(b, train, ids, now, ix, k, l);
    }
  }

  lemma StepKeepsConflictFree(b: Book, op: Op)
    requires WellFormed(b) && ConflictFree(b) && FreshId(b, op)
    ensures ConflictFree(Apply(b, op))
  {
    match op
    case Register(m) => RegisterKeepsConflictFree(b, m);
    case Reserve(train, ids, now) =>
      if Reservable(b, ids, now) {
        ReserveKeepsConflictFree(b, train, ids, now);
      }
    case Clear(ix, train, now) => ReleaseKeepsConflictFree(b, ix, train, now);
    case Cancel(train) => ReleaseKeepsConflictFree(b, "", train, 0);
  }

  // ----- run-level facts -----

  lemma AfterPrefix(b: Book, ops: seq<Op>, i: nat)
    requires i < |ops|
    ensures After(b, ops[..i + 1]) == Apply(After(b, ops[..i]), ops[i])
  {
    assert ops[..i + 1][..i] == ops[..i];
  }

  /** Conflicting movements never hold reservations together, at any point of any run from
      a sound book such as the empty one. */
  lemma {:induction false} NeverHeldTogether(start: Book, ops: seq<Op>, n: nat)
    requires WellFormed(start) && ConflictFree(start) && n <= |ops| && FreshRun(start, ops)
    ensures var b := After(start, ops[..n]); WellFormed(b) && ConflictFree(b)
  {
    if n > 0 {
      NeverHeldTogether(start, ops, n - 1);
      AfterPrefix(start, ops, n - 1);
      assert FreshAt(start, ops, n - 1);
      var b := After(start, ops[..n - 1]);
      StepKeepsWellFormed(b, ops[n - 1]);
      StepKeepsConflictFree(b, ops[n - 1]);
    }
  }

  lemma {:induction false} StaysWellFormed(start: Book, ops: seq<Op>, n: nat)
    requires WellFormed(start) && n <= |ops| && FreshRun(start, ops)
    ensures WellFormed(After(start, ops[..n])) && After(start, ops[..n]).defaultClearanceMs == start.defaultClearanceMs
  {
    if n > 0 {
      StaysWellFormed(start, ops, n - 1);
      AfterPrefix(start, ops, n - 1);
      assert FreshAt(start, ops, n - 1);
      StepKeepsWellFormed(After(start, ops[..n - 1]), ops[n - 1]);
    }
  }

  // A clear of `k` at time `t` is accounted for: the stored clear of `k` is no earlier,
  // and if `k` is held again it was reserved after the clearance time.
  ghost predicate Accounted(b: Book, k: string, t: nat) {
    k in b.movements &&
    var m := b.movements[k];
    m.intersectionId in b.intersections &&
    var rt := b.intersections[m.intersectionId];
    && k in rt.lastClear && t <= rt.lastClear[k]
    && (k in rt.active ==> t <= rt.active[k].reservedAt)
  }

  lemma ClearIsAccounted(b: Book, op: Op, k: string)
    requires WellFormed(b) && Clears(b, op, k)
    ensures Accounted(Apply(b, op), k, op.now)
  {
  }

  lemma StepKeepsAccounted(b: Book, op: Op, k: string, t: nat)
    requires WellFormed(b) && FreshId(b, op) && Timely(b, op) && Accounted(b, k, t)
    ensures Accounted(Apply(b, op), k, t) && Apply(b, op).movements[k] == b.movements[k]
  {
    var m := b.movements[k];
    var rt := b.intersections[m.intersectionId];
    if Reserves(b, op, k) {
      assert !TooRecent(b, rt, m, k, op.now);
    }
  }

  lemma {:induction false} ClearStaysAccounted(start: Book, ops: seq<Op>, i: nat, n: nat, k: string)
    requires i < n <= |ops| && WellFormed(start)
    requires FreshRun(start, ops) && TimelyRun(start, ops)
    requires Clears(After(start, ops[..i]), ops[i], k)
    ensures Accounted(After(start, ops[..n]), k, ops[i].now)
  {
    var last, op := After(start, ops[..n - 1]), ops[n - 1];
    PointOfRun(start, ops, n - 1);
    if n == i + 1 {
      ClearIsAccounted(last, op, k);
    } else {
      ClearStaysAccounted(start, ops, i, n - 1, k);
      StepKeepsAccounted(last, op, k, ops[i].now);
    }
  }

  // What a fresh and timely run gives at any point.
  lemma PointOfRun(start: Book, ops: seq<Op>, i: nat)
    requires i < |ops| && WellFormed(start) && FreshRun(start, ops) && TimelyRun(start, ops)
    ensures var b := After(start, ops[..i]);
      && WellFormed(b) && FreshId(b, ops[i]) && Timely(b, ops[i])
      && After(start, ops[..i + 1]) == Apply(b, ops[i])
  {
    StaysWellFormed(start, ops, i);
    AfterPrefix(start, ops, i);
    assert FreshAt(start, ops, i) && TimelyAt(start, ops, i);
  }

  /** Any reservation made after a clear comes at least the larger of the two clearance
      times after it, for every earlier clear of a conflicting movement. */
  lemma ReservationAfterEveryClear(start: Book, ops: seq<Op>, i: nat, j: nat, k: string, l: string)
    requires i < j < |ops| && WellFormed(start)
    requires FreshRun(start, ops) && TimelyRun(start, ops)
    requires Clears(After(start, ops[..i]), ops[i], k)
    requires Reserves(After(start, ops[..j]), ops[j], l)
    ensures var b := After(start, ops[..j]);
      && k in b.movements && l in b.movements
      && (b.movements[k].intersectionId == b.movements[l].intersectionId
          && Conflict(b.movements[l], b.movements[k])
          ==> ops[j].now >= ops[i].now + PairClearance(start.defaultClearanceMs, b.movements[l], b.movements[k]))
  {
    ClearStaysAccounted(start, ops, i, j, k);
    StaysWellFormed(start, ops, j);
    var b := After(start, ops[..j]);
    if b.movements[k].intersectionId == b.movements[l].intersectionId
       && Conflict(b.movements[l], b.movements[k]) {
      var rt := b.intersections[b.movements[l].intersectionId];
      assert !TooRecent(b, rt, b.movements[l], k, ops[j].now);
    }
  }

  // ----- what goes wrong without the hypothesis -----

  /** A clear keeps an earlier one accounted for exactly when it is not dated before it. */
  lemma ClearKeepsEarlierClearIff(b: Book, op: Op, k: string, t: nat)
    requires WellFormed(b) && Accounted(b, k, t) && Clears(b, op, k)
    ensures Accounted(Apply(b, op), k, t) <==> t <= op.now
  {
  }

  function SoloMovement(): Movement {
    Movement("M", "I", "L", "L:IN", "L:OUT", [], 0)
  }

  // Reserve, clear at 10000, reserve again, clear dated 5, reserve at 2005.
  function BackdatedRun(): seq<Op> {
    [Register(SoloMovement()), Reserve("A", ["M"], 0), Clear("I", "A", 10000),
     Reserve("B", ["M"], 12000), Clear("I", "B", 5), Reserve("C", ["M"], 2005)]
  }

  // The book after the first `n` operations of the backdated run.
  function BackdatedBook(n: nat): Book {
    if n == 0 then EmptyBook(2000)
    else
      var active := if n == 2 then map["M" := Reservation("I", "M", "A", 0)]
                    else if n == 4 then map["M" := Reservation("I", "M", "B", 12000)]
                    else map[];
      var lastClear := if n <= 2 then map[] else if n <= 4 then map["M" := 10000] else map["M" := 5];
      Book(2000, map["M" := SoloMovement()], map["I" := Runtime(active, lastClear)])
  }

  lemma BackdatedReserve(n: nat)
    requires n in {1, 3, 5}
    ensures var op := BackdatedRun()[n]; Reservable(BackdatedBook(n), op.ids, op.now)
    ensures n < 5 ==> Apply(BackdatedBook(n), BackdatedRun()[n]) == BackdatedBook(n + 1)
  {
    var b, op := BackdatedBook(n), BackdatedRun()[n];
    var rt := b.intersections["I"];
    if n < 5 {
      var added := map["M" := Reservation("I", "M", op.train, op.now)];
      assert NewAt(b, "I", op.train, op.ids, op.now) == added;
      assert rt.active + added == added;
      assert Apply(b, op).intersections == map["I" := Runtime(added, rt.lastClear)];
    }
  }

  lemma BackdatedClear(n: nat)
    requires n in {2, 4}
    ensures Apply(BackdatedBook(n), BackdatedRun()[n]) == BackdatedBook(n + 1)
  {
    var b, op := BackdatedBook(n), BackdatedRun()[n];
    var rt := b.intersections["I"];
    assert HeldBy(rt.active, op.train) == {"M"};
    assert rt.active - {"M"} == map[];
    var stored := rt.lastClear + map k | k in HeldBy(rt.active, op.train) :: op.now;
    assert stored == map["M" := op.now];
    assert Apply(b, op).intersections == map["I" := Runtime(map[], stored)];
  }

  lemma {:induction false} BackdatedStates(n: nat)
    requires n <= 5
    ensures After(EmptyBook(2000), BackdatedRun()[..n]) == BackdatedBook(n)
  {
    if n > 0 {
      BackdatedStates(n - 1);
      AfterPrefix(EmptyBook(2000), BackdatedRun(), n - 1);
      if n - 1 in {1, 3} {
        BackdatedReserve(n - 1);
      } else if n - 1 in {2, 4} {
        BackdatedClear(n - 1);
      }
    }
  }

  /** With a clear dated before its reservation the guarantee is lost: the movement is
      reserved at 2005 although it was cleared at 10000 with a clearance of 2000. */
  lemma BackdatedClearBreaksClearance()
    ensures var ops, b := BackdatedRun(), EmptyBook(2000);
      && FreshRun(b, ops) && !TimelyRun(b, ops)
      && Clears(After(b, ops[..2]), ops[2], "M")
      && Reserves(After(b, ops[..5]), ops[5], "M")
      && ops[5].now < ops[2].now + 2000
  {
    BackdatedIsFresh();
    BackdatedIsNotTimely();
    BackdatedStates(2);
    BackdatedStates(5);
    assert "M" in HeldBy(BackdatedBook(2).intersections["I"].active, "A");
    BackdatedReserve(5);
  }

  lemma BackdatedIsFresh()
    ensures FreshRun(EmptyBook(2000), BackdatedRun())
  {
    forall i | 0 <= i < 6 ensures FreshAt(EmptyBook(2000), BackdatedRun(), i) {
      if i == 0 {
        BackdatedStates(0);
      }
    }
  }

  lemma BackdatedIsNotTimely()
    ensures !TimelyRun(EmptyBook(2000), BackdatedRun())
  {
    BackdatedStates(4);
    assert "M" in HeldBy(BackdatedBook(4).intersections["I"].active, "B");
    assert !TimelyAt(EmptyBook(2000), BackdatedRun(), 4);
  }

  // ----- stability and undo -----

  predicate Releasing(op: Op) {
    op.Clear? || op.Cancel?
  }

  lemma ReleasingKeepsReservable(b: Book, op: Op, ids: seq<string>, now: nat)
    requires Releasing(op) && Reservable(b, ids, now)
    ensures Reservable(Apply(b, op), ids, now)
  {
    var c := Apply(b, op);
    forall id | id in ids
      ensures Free(c, c.movements[id], now)
    {
      var m := b.movements[id];
      assert Free(b, m, now);
      if m.intersectionId in b.intersections {
        var rt, ct := b.intersections[m.intersectionId], c.intersections[m.intersectionId];
        forall k | k in ct.active ensures !Blocks(c, ct, m, k) {
          assert !Blocks(b, rt, m, k);
        }
        forall k | k in ct.lastClear ensures !TooRecent(c, ct, m, k, now) {
          if k in rt.active {
            assert !Blocks(b, rt, m, k);
          } else {
            assert !TooRecent(b, rt, m, k, now);
          }
        }
      }
    }
  }

  /** A successful check stays good whatever clears and cancels are interleaved before
      the write, at whatever times they are dated. */
  lemma {:induction false} CheckIsStable(b: Book, ops: seq<Op>, ids: seq<string>, now: nat)
    requires Reservable(b, ids, now)
    requires forall op <- ops :: Releasing(op)
    ensures Reservable(After(b, ops), ids, now)
  {
    if ops != [] {
      CheckIsStable(b, ops[..|ops| - 1], ids, now);
      ReleasingKeepsReservable(After(b, ops[..|ops| - 1]), ops[|ops| - 1], ids, now);
    }
  }

  predicate HoldsNothing(b: Book, train: string) {
    forall ix <- b.intersections :: HeldBy(b.intersections[ix].active, train) == {}
  }

  /** Cancelling undoes a reservation exactly when the train held nothing before: otherwise
      it drops what the train held as well. */
  lemma CancelUndoesReserve(b: Book, train: string, ids: seq<string>, now: nat)
    requires Reservable(b, ids, now)
    ensures Cancelled(Reserved(b, train, ids, now), train) == b <==> HoldsNothing(b, train)
  {
    var c := Cancelled(Reserved(b, train, ids, now), train);
    if HoldsNothing(b, train) {
      forall ix | ix in b.intersections ensures c.intersections[ix] == b.intersections[ix] {
        CancelUndoesAt(b, train, ids, now, ix);
      }
      assert c.intersections == b.intersections;
    } else {
      var ix :| ix in b.intersections && HeldBy(b.intersections[ix].active, train) != {};
      var k :| k in HeldBy(b.intersections[ix].active, train);
      HeldIsDropped(Reserved(b, train, ids, now), train, ix);
    }
  }

  lemma HeldIsDropped(c: Book, train: string, ix: string)
    requires ix in c.intersections
    ensures HeldBy(Cancelled(c, train).intersections[ix].active, train) == {}
  {
  }

  lemma CancelUndoesAt(b: Book, train: string, ids: seq<string>, now: nat, ix: string)
    requires Reservable(b, ids, now) && HoldsNothing(b, train) && ix in b.intersections
    ensures Cancelled(Reserved(b, train, ids, now), train).intersections[ix] == b.intersections[ix]
  {
    var before, added := b.intersections[ix].active, NewAt(b, ix, train, ids, now);
    forall k | k in added ensures k !in before {
      assert !Blocks(b, b.intersections[ix], b.movements[k], k);
    }
    RemovalUndoesUnion(before, added, train);
  }

  lemma RemovalUndoesUnion(before: map<string, Reservation>, added: map<string, Reservation>, train: string)
    requires HeldBy(before, train) == {} && forall k <- added :: k !in before && added[k].trainId == train
    ensures (before + added) - HeldBy(before + added, train) == before
  {
    forall k | k in before ensures before[k].trainId != train {
      assert k !in HeldBy(before, train);
    }
    assert HeldBy(before + added, train) == added.Keys;
    assert (before + added) - added.Keys == before;
  }

  // ----- the manager object performs exactly these runs -----

  method Perform(manager: IntersectionReservationManager, ops: seq<Op>)
    requires manager.Valid()
    modifies manager
    ensures manager.Valid() && manager.View() == After(old(manager.View()), ops)
  {
    ghost var b := manager.View();
    for i := 0 to |ops|
      invariant manager.Valid() && manager.View() == After(b, ops[..i])
    {
      AfterPrefix(b, ops, i);
      match ops[i] {
        case Register(m) => var _ := manager.RegisterMovement(m);
        case Reserve(train, ids, now) => var _ := manager.TryReserveAtomically(train, ids, now);
        case Clear(ix, train, now) => var _ := manager.MarkCleared(ix, train, now);
        case Cancel(train) => manager.CancelTrain(train);
      }
    }
    assert ops[..|ops|] == ops;
  }
}
