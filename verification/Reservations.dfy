/** The intersection reservation book: which movements trains hold at which
    intersection, and when each movement was last cleared.  The specification is a
    value (`Book`); the manager class updates its two maps in place and is proved to
    follow the specification step by step. */
module Reservations {
  import opened Basics

  // One line's way of crossing one intersection.
  datatype Movement = Movement(
    movementId: string,
    intersectionId: string,
    lineId: string,
    incomingSegmentId: string,
    outgoingSegmentId: string,
    conflictIds: seq<string>,
    clearanceMs: nat)

  datatype Reservation = Reservation(
    intersectionId: string,
    movementId: string,
    trainId: string,
    reservedAt: nat)

  datatype Runtime = Runtime(active: map<string, Reservation>, lastClear: map<string, nat>)

  datatype Book = Book(
    defaultClearanceMs: nat,
    movements: map<string, Movement>,
    intersections: map<string, Runtime>)

  // Why a set of movements cannot be reserved now.
  datatype Refusal =
    | NoRefusal
    | EmptyTrainId
    | UnknownMovement(movementId: string)
    | RequestedMovementsConflict
    | IntersectionOccupied(intersectionId: string)
    | ClearanceNotMet(intersectionId: string)

  const EmptyRuntime := Runtime(map[], map[])

  function EmptyBook(defaultClearanceMs: nat): Book {
    Book(defaultClearanceMs, map[], map[])
  }

  predicate WellNamed(m: Movement) {
    && m.movementId != "" && m.intersectionId != "" && m.lineId != ""
    && m.incomingSegmentId != "" && m.outgoingSegmentId != ""
  }

  /** A movement conflicts with itself; otherwise either side's declaration suffices. */
  predicate Conflict(l: Movement, r: Movement) {
    || l.movementId == r.movementId
    || r.movementId in l.conflictIds
    || l.movementId in r.conflictIds
  }

  function ClearanceFor(defaultMs: nat, m: Movement): nat {
    if m.clearanceMs == 0 then defaultMs else m.clearanceMs
  }

  function PairClearance(defaultMs: nat, l: Movement, r: Movement): nat {
    Max(ClearanceFor(defaultMs, l), ClearanceFor(defaultMs, r))
  }

  /** What registration alone guarantees: entries are stored under their own id and
      every movement's intersection has a runtime. */
  ghost predicate Keyed(b: Book) {
    forall k <- b.movements ::
      b.movements[k].movementId == k && b.movements[k].intersectionId in b.intersections
  }

  // ----- availability -----

  ghost predicate Known(b: Book, ids: seq<string>) {
    forall id <- ids :: id in b.movements
  }

  ghost predicate Compatible(b: Book, ids: seq<string>)
    requires Known(b, ids)
  {
    forall x, y | x in ids && y in ids && x != y ::
      b.movements[x].intersectionId == b.movements[y].intersectionId ==>
        !Conflict(b.movements[x], b.movements[y])
  }

  // An active reservation at runtime `rt` stands in the way of `m`.
  ghost predicate Blocks(b: Book, rt: Runtime, m: Movement, k: string) {
    k in rt.active && k in b.movements && Conflict(m, b.movements[k])
  }

  // A past clear at runtime `rt` is too recent for `m`.
  ghost predicate TooRecent(b: Book, rt: Runtime, m: Movement, k: string, now: nat) {
    && k in rt.lastClear && k in b.movements && Conflict(m, b.movements[k])
    && now < rt.lastClear[k] + PairClearance(b.defaultClearanceMs, m, b.movements[k])
  }

  ghost predicate Free(b: Book, m: Movement, now: nat) {
    m.intersectionId in b.intersections ==>
      var rt := b.intersections[m.intersectionId];
      && (forall k <- rt.active :: !Blocks(b, rt, m, k))
      && (forall k <- rt.lastClear :: !TooRecent(b, rt, m, k, now))
  }

  ghost predicate Reservable(b: Book, ids: seq<string>, now: nat) {
    && Known(b, ids)
    && Compatible(b, ids)
    && (forall id <- ids :: Free(b, b.movements[id], now))
  }

  predicate FirstUnknown(b: Book, ids: seq<string>, i: nat)
    requires i < |ids|
  {
    ids[i] !in b.movements && forall j | 0 <= j < i :: ids[j] in b.movements
  }

  /** What each reported reason says about the book; used to tie a refusal to its cause. */
  ghost predicate Explains(b: Book, ids: seq<string>, now: nat, why: Refusal) {
    match why
    case NoRefusal => false
    case EmptyTrainId => false
    case UnknownMovement(id) => exists i :: 0 <= i < |ids| && FirstUnknown(b, ids, i) && ids[i] == id
    case RequestedMovementsConflict => Known(b, ids) && !Compatible(b, ids)
    case IntersectionOccupied(ix) =>
      && Known(b, ids) && Compatible(b, ids) && ix in b.intersections
      && exists id, k ::
           && id in ids && b.movements[id].intersectionId == ix
           && Blocks(b, b.intersections[ix], b.movements[id], k)
    case ClearanceNotMet(ix) =>
      && Known(b, ids) && Compatible(b, ids) && ix in b.intersections
      && exists id, k ::
           && id in ids && b.movements[id].intersectionId == ix
           && TooRecent(b, b.intersections[ix], b.movements[id], k, now)
  }

  // Some reservation at its intersection stands in the way of `m`.
  ghost predicate Occupied(b: Book, m: Movement) {
    m.intersectionId in b.intersections
    && exists k :: Blocks(b, b.intersections[m.intersectionId], m, k)
  }

  /** The refusal of a known and compatible request: it is about the first movement that is
      not free, and a reservation in its way counts before a recent clear. */
  ghost predicate FirstInTheWay(b: Book, ids: seq<string>, now: nat, why: Refusal)
    requires Known(b, ids)
  {
    exists i :: 0 <= i < |ids| && InTheWayAt(b, ids, now, why, i)
  }

  ghost predicate InTheWayAt(b: Book, ids: seq<string>, now: nat, why: Refusal, i: nat)
    requires Known(b, ids) && i < |ids|
  {
    var m := b.movements[ids[i]];
    && (forall j | 0 <= j < i :: Free(b, b.movements[ids[j]], now)) && !Free(b, m, now)
    && why == if Occupied(b, m) then IntersectionOccupied(m.intersectionId) else ClearanceNotMet(m.intersectionId)
  }

  // Every id before the first place of the `n`-th requested movement is requested earlier.
  ghost predicate InRequestOrder(ids: seq<string>, requested: seq<Movement>, n: nat)
    requires n < |requested|
  {
    exists i :: 0 <= i < |ids| && FirstPlace(ids, requested, n, i)
  }

  ghost predicate FirstPlace(ids: seq<string>, requested: seq<Movement>, n: nat, i: nat)
    requires n < |requested| && i < |ids|
  {
    && ids[i] == requested[n].movementId
    && forall j | 0 <= j < i :: IsAmong(requested, n, ids[j])
  }

  ghost predicate IsAmong(requested: seq<Movement>, n: nat, id: string)
    requires n <= |requested|
  {
    exists p :: 0 <= p < n && requested[p].movementId == id
  }

  // ----- transitions -----

  function Registered(b: Book, m: Movement): Book {
    b.(movements := b.movements[m.movementId := m],
       intersections := if m.intersectionId in b.intersections then b.intersections
                        else b.intersections[m.intersectionId := EmptyRuntime])
  }

  // The reservations that `ids` add at intersection `ix`.
  function NewAt(b: Book, ix: string, train: string, ids: seq<string>, now: nat): map<string, Reservation> {
    map id | id in ids && id in b.movements && b.movements[id].intersectionId == ix
      :: Reservation(ix, id, train, now)
  }

  function RuntimeReserved(b: Book, ix: string, train: string, ids: seq<string>, now: nat): Runtime
    requires ix in b.intersections
  {
    var rt := b.intersections[ix];
    Runtime(rt.active + NewAt(b, ix, train, ids, now), rt.lastClear)
  }

  function Reserved(b: Book, train: string, ids: seq<string>, now: nat): Book {
    b.(intersections := map ix | ix in b.intersections :: RuntimeReserved(b, ix, train, ids, now))
  }

  function HeldBy(active: map<string, Reservation>, train: string): set<string> {
    set k | k in active && active[k].trainId == train
  }

  function Cleared(b: Book, ix: string, train: string, now: nat): Book {
    if ix !in b.intersections then b
    else
      var rt := b.intersections[ix];
      var held := HeldBy(rt.active, train);
      b.(intersections := b.intersections[ix :=
        Runtime(rt.active - held, rt.lastClear + map k | k in held :: now)])
  }

  function Cancelled(b: Book, train: string): Book {
    b.(intersections := map ix | ix in b.intersections ::
      b.intersections[ix].(active :=
        b.intersections[ix].active - HeldBy(b.intersections[ix].active, train)))
  }

  predicate HoldsAt(b: Book, ix: string, train: string) {
    ix in b.intersections && HeldBy(b.intersections[ix].active, train) != {}
  }

  lemma ReservedNone(b: Book, ix: string, train: string, now: nat)
    requires ix in b.intersections
    ensures RuntimeReserved(b, ix, train, [], now) == b.intersections[ix]
  {
    assert NewAt(b, ix, train, [], now) == map[];
    assert b.intersections[ix].active + map[] == b.intersections[ix].active;
  }

  lemma NewAtOneMore(b: Book, i: string, train: string, ids: seq<string>, id: string, now: nat)
    requires id in b.movements
    ensures NewAt(b, i, train, ids + [id], now)
            == if b.movements[id].intersectionId != i then NewAt(b, i, train, ids, now)
               else NewAt(b, i, train, ids, now)[id := Reservation(i, id, train, now)]
  {
    var after := NewAt(b, i, train, ids + [id], now);
    var before := NewAt(b, i, train, ids, now);
    assert forall x :: x in ids + [id] <==> x in ids || x == id;
    if b.movements[id].intersectionId == i {
      assert after.Keys == before.Keys + {id};
    } else {
      assert after.Keys == before.Keys;
    }
  }

  lemma ReservedOneMore(b: Book, i: string, train: string, ids: seq<string>, id: string, now: nat)
    requires i in b.intersections && id in b.movements
    ensures var rt := RuntimeReserved(b, i, train, ids, now);
            RuntimeReserved(b, i, train, ids + [id], now)
            == if b.movements[id].intersectionId != i then rt
               else rt.(active := rt.active[id := Reservation(i, id, train, now)])
  {
    NewAtOneMore(b, i, train, ids, id, now);
    if b.movements[id].intersectionId == i {
      var before := NewAt(b, i, train, ids, now);
      assert b.intersections[i].active + before[id := Reservation(i, id, train, now)]
          == (b.intersections[i].active + before)[id := Reservation(i, id, train, now)];
    }
  }

  lemma ReservedRepeat(b: Book, i: string, train: string, ids: seq<string>, id: string, now: nat)
    requires i in b.intersections && id in ids
    ensures RuntimeReserved(b, i, train, ids + [id], now) == RuntimeReserved(b, i, train, ids, now)
  {
    assert forall x :: x in ids + [id] <==> x in ids;
    assert NewAt(b, i, train, ids + [id], now) == NewAt(b, i, train, ids, now);
  }

  // The intersections of `b` with the reservations for `ids` written into them.
  ghost predicate Written(b: Book, cur: map<string, Runtime>, train: string, ids: seq<string>, now: nat) {
    && cur.Keys == b.intersections.Keys
    && forall i <- b.intersections :: cur[i] == RuntimeReserved(b, i, train, ids, now)
  }

  lemma WriteOne(b: Book, cur: map<string, Runtime>, train: string, ids: seq<string>, id: string, now: nat)
    requires Keyed(b) && id in b.movements && Written(b, cur, train, ids, now)
    ensures var ix := b.movements[id].intersectionId;
            var active := cur[ix].active[id := Reservation(ix, id, train, now)];
            Written(b, cur[ix := cur[ix].(active := active)], train, ids + [id], now)
  {
    var ix := b.movements[id].intersectionId;
    var next := cur[ix := cur[ix].(active := cur[ix].active[id := Reservation(ix, id, train, now)])];
    assert next.Keys == b.intersections.Keys;
    forall i | i in b.intersections
      ensures next[i] == RuntimeReserved(b, i, train, ids + [id], now)
    {
      ReservedOneMore(b, i, train, ids, id, now);
      assert cur[i] == RuntimeReserved(b, i, train, ids, now);
    }
  }

  lemma WriteRepeat(b: Book, cur: map<string, Runtime>, train: string, ids: seq<string>, id: string, now: nat)
    requires id in ids && Written(b, cur, train, ids, now)
    ensures Written(b, cur, train, ids + [id], now)
  {
    forall i | i in b.intersections {
      ReservedRepeat(b, i, train, ids, id, now);
    }
  }

  // ----- the manager -----

  class IntersectionReservationManager {
    const defaultClearanceMs: nat
    var movements: map<string, Movement>
    var intersections: map<string, Runtime>

    ghost function View(): Book
      reads this
    {
      Book(defaultClearanceMs, movements, intersections)
    }

    ghost predicate Valid()
      reads this
    {
      Keyed(View())
    }

    constructor (defaultClearanceMs: nat)
      ensures Valid() && View() == EmptyBook(defaultClearanceMs)
    {
      this.defaultClearanceMs := defaultClearanceMs;
      movements, intersections := map[], map[];
    }

    method RegisterMovement(m: Movement) returns (ok: bool)
      requires Valid()
      modifies this
      ensures Valid()
      ensures ok <==> m.movementId != "" && m.intersectionId != "" && m.lineId != ""
                      && m.incomingSegmentId != "" && m.outgoingSegmentId != ""
      ensures ok == WellNamed(m)
      ensures View() == if ok then Registered(old(View()), m) else old(View())
    {
      if m.movementId == "" || m.intersectionId == "" || m.lineId == "" ||
         m.incomingSegmentId == "" || m.outgoingSegmentId == "" {
        return false;
      }
      movements := movements[m.movementId := m];
      if m.intersectionId !in intersections {
        intersections := intersections[m.intersectionId := EmptyRuntime];
      }
      return true;
    }

    // The distinct requested movements in request order, or the first unknown id.
    method Resolve(ids: seq<string>) returns (requested: seq<Movement>, why: Refusal)
      requires Valid()
      ensures why.NoRefusal? <==> Known(View(), ids)
      ensures why.NoRefusal? ==>
        && (forall id <- ids :: exists i :: 0 <= i < |requested| && requested[i] == movements[id])
        && (forall i | 0 <= i < |requested| ::
              requested[i].movementId in ids && movements[requested[i].movementId] == requested[i])
        && (forall i, j | 0 <= i < j < |requested| :: requested[i].movementId != requested[j].movementId)
        && (forall i | 0 <= i < |requested| :: InRequestOrder(ids, requested, i))
      ensures !why.NoRefusal? ==> Explains(View(), ids, 0, why)
      ensures why.NoRefusal? || why.UnknownMovement?
    {
      requested := [];
      var unique: set<string> := {};
      for n := 0 to |ids|
        invariant unique == set k | 0 <= k < n :: ids[k]
        invariant forall id <- unique :: id in movements
        invariant forall id <- unique :: exists i :: 0 <= i < |requested| && requested[i] == movements[id]
        invariant forall i | 0 <= i < |requested| ::
          requested[i].movementId in unique && movements[requested[i].movementId] == requested[i]
        invariant forall i, j | 0 <= i < j < |requested| ::
          requested[i].movementId != requested[j].movementId
        invariant forall i | 0 <= i < |requested| :: InRequestOrder(ids, requested, i)
      {
        var id := ids[n];
        if id !in unique {
          unique := unique + {id};
          if id !in movements {
            assert FirstUnknown(View(), ids, n);
            return [], UnknownMovement(id);
          }
          var before := requested;
          requested := requested + [movements[id]];
          assert requested[|before|] == movements[id];
          assert forall i | 0 <= i < |before| :: requested[i] == before[i];
          forall j | 0 <= j < n ensures IsAmong(before, |before|, ids[j]) {
            assert ids[j] in unique && ids[j] != id;
            var p :| 0 <= p < |before| && before[p] == movements[ids[j]];
            assert before[p].movementId == ids[j];
          }
          OrderGrows(ids, before, movements[id], n);
        }
      }
      assert forall id <- ids :: id in unique;
      return requested, NoRefusal;
    }

    method Check(requested: seq<Movement>, now: nat) returns (why: Refusal)
      requires Valid()
      requires forall i | 0 <= i < |requested| ::
        requested[i].movementId in movements && movements[requested[i].movementId] == requested[i]
      ensures why.NoRefusal? <==> forall i | 0 <= i < |requested| :: Free(View(), requested[i], now)
      ensures why.NoRefusal? || why.IntersectionOccupied? || why.ClearanceNotMet?
      ensures !why.NoRefusal? ==> why.intersectionId in intersections
      ensures why.IntersectionOccupied? ==> exists i, k ::
        && 0 <= i < |requested| && requested[i].intersectionId == why.intersectionId
        && Blocks(View(), intersections[why.intersectionId], requested[i], k)
      ensures why.ClearanceNotMet? ==> exists i, k ::
        && 0 <= i < |requested| && requested[i].intersectionId == why.intersectionId
        && TooRecent(View(), intersections[why.intersectionId], requested[i], k, now)
      ensures !why.NoRefusal? ==> exists i :: 0 <= i < |requested| && StopsAt(View(), requested, now, why, i)
    {
      for n := 0 to |requested|
        invariant forall i | 0 <= i < n :: Free(View(), requested[i], now)
      {
        var m := requested[n];
        var rt := intersections[m.intersectionId];
        var pending := rt.active.Keys;
        while pending != {}
          invariant pending <= rt.active.Keys
          invariant forall k <- rt.active :: k !in pending ==> !Blocks(View(), rt, m, k)
        {
          var k :| k in pending;
          if k in movements && Conflict(m, movements[k]) {
            assert Blocks(View(), rt, m, k);
            assert StopsAt(View(), requested, now, IntersectionOccupied(m.intersectionId), n);
            return IntersectionOccupied(m.intersectionId);
          }
          pending := pending - {k};
        }
        pending := rt.lastClear.Keys;
        while pending != {}
          invariant pending <= rt.lastClear.Keys
          invariant forall k <- rt.lastClear :: k !in pending ==> !TooRecent(View(), rt, m, k, now)
        {
          var k :| k in pending;
          if k in movements && Conflict(m, movements[k]) {
            var clearance := PairClearance(defaultClearanceMs, m, movements[k]);
            if now < rt.lastClear[k] || now - rt.lastClear[k] < clearance {
              assert TooRecent(View(), rt, m, k, now);
              assert StopsAt(View(), requested, now, ClearanceNotMet(m.intersectionId), n);
              return ClearanceNotMet(m.intersectionId);
            }
          }
          pending := pending - {k};
        }
      }
      return NoRefusal;
    }

    method CanReserve(ids: seq<string>, now: nat) returns (why: Refusal)
      requires Valid()
      ensures why.NoRefusal? <==> Reservable(View(), ids, now)
      ensures !why.NoRefusal? ==> Explains(View(), ids, now, why)
      ensures Known(View(), ids) && Compatible(View(), ids) && !why.NoRefusal? ==>
        FirstInTheWay(View(), ids, now, why)
    {
      var requested;
      requested, why := Resolve(ids);
      if !why.NoRefusal? {
        return;
      }
      for i := 0 to |requested|
        invariant forall p, q | 0 <= p < i && p < q < |requested| ::
          requested[p].intersectionId == requested[q].intersectionId ==> !Conflict(requested[p], requested[q])
      {
        for j := i + 1 to |requested|
          invariant forall q | i < q < j ::
            requested[i].intersectionId == requested[q].intersectionId ==> !Conflict(requested[i], requested[q])
        {
          if requested[i].intersectionId == requested[j].intersectionId && Conflict(requested[i], requested[j]) {
            var x, y := requested[i].movementId, requested[j].movementId;
            assert x in ids && y in ids && x != y;
            return RequestedMovementsConflict;
          }
        }
      }
      CompatibleFromList(View(), ids, requested);
      why := Check(requested, now);
      if !why.NoRefusal? {
        ghost var n :| 0 <= n < |requested| && StopsAt(View(), requested, now, why, n);
        StopIsFirst(View(), ids, requested, now, why, n);
      }
    }

    method TryReserveAtomically(train: string, ids: seq<string>, now: nat) returns (why: Refusal)
      requires Valid()
      modifies this
      ensures Valid()
      ensures why.NoRefusal? <==> train != "" && Reservable(old(View()), ids, now)
      ensures train == "" <==> why.EmptyTrainId?
      ensures !why.NoRefusal? && train != "" ==> Explains(old(View()), ids, now, why)
      ensures train != "" && Known(old(View()), ids) && Compatible(old(View()), ids) && !why.NoRefusal? ==>
        FirstInTheWay(old(View()), ids, now, why)
      ensures View() == if why.NoRefusal? then Reserved(old(View()), train, ids, now) else old(View())
    {
      if train == "" {
        return EmptyTrainId;
      }
      why := CanReserve(ids, now);
      if !why.NoRefusal? {
        return;
      }
      Write(train, ids, now);
    }

    // The writing half of the atomic reservation; every id is already known.
    method Write(train: string, ids: seq<string>, now: nat)
      requires Valid() && Known(View(), ids)
      modifies this
      ensures Valid()
      ensures View() == Reserved(old(View()), train, ids, now)
    {
      ghost var b := View();
      forall i | i in b.intersections {
        ReservedNone(b, i, train, now);
      }
      assert ids[..0] == [];
      var unique: set<string> := {};
      for n := 0 to |ids|
        invariant unique == set k | 0 <= k < n :: ids[k]
        invariant movements == b.movements && Written(b, intersections, train, ids[..n], now)
      {
        var id := ids[n];
        assert ids[..n + 1] == ids[..n] + [id];
        if id !in unique {
          unique := unique + {id};
          WriteOne(b, intersections, train, ids[..n], id, now);
          var ix := movements[id].intersectionId;
          var active := intersections[ix].active[id := Reservation(ix, id, train, now)];
          intersections := intersections[ix := intersections[ix].(active := active)];
        } else {
          WriteRepeat(b, intersections, train, ids[..n], id, now);
        }
      }
      assert ids[..|ids|] == ids;
      assert intersections == Reserved(b, train, ids, now).intersections;
    }

    method MarkCleared(ix: string, train: string, now: nat) returns (cleared: bool)
      requires Valid()
      modifies this
      ensures Valid()
      ensures cleared == HoldsAt(old(View()), ix, train)
      ensures View() == Cleared(old(View()), ix, train, now)
    {
      if ix !in intersections {
        return false;
      }
      cleared := false;
      var rt := intersections[ix];
      var active, lastClear := rt.active, rt.lastClear;
      var pending := rt.active.Keys;
      ghost var done: set<string> := {};
      while pending != {}
        invariant pending <= rt.active.Keys && done == HeldBy(rt.active, train) - pending
        invariant active == rt.active - done
        invariant lastClear == rt.lastClear + map k | k in done :: now
        invariant cleared == (done != {})
      {
        var k :| k in pending;
        pending := pending - {k};
        if rt.active[k].trainId == train {
          done := done + {k};
          lastClear := lastClear[k := now];
          active := active - {k};
          cleared := true;
        }
      }
      assert done == HeldBy(rt.active, train);
      intersections := intersections[ix := Runtime(active, lastClear)];
    }

    method CancelTrain(train: string)
      requires Valid()
      modifies this
      ensures Valid()
      ensures View() == Cancelled(old(View()), train)
    {
      ghost var b := View();
      var pending := intersections.Keys;
      while pending != {}
        invariant movements == b.movements && intersections.Keys == b.intersections.Keys
        invariant pending <= b.intersections.Keys
        invariant forall ix <- b.intersections ::
          intersections[ix] == if ix in pending then b.intersections[ix]
                               else Cancelled(b, train).intersections[ix]
      {
        var ix :| ix in pending;
        var rt := intersections[ix];
        var active := WithoutTrain(rt.active, train);
        intersections := intersections[ix := rt.(active := active)];
        pending := pending - {ix};
      }
      assert intersections == Cancelled(b, train).intersections;
    }

    // Every reservation still held, in some order.
    method ActiveReservations() returns (result: seq<Reservation>)
      requires Valid()
      ensures forall r :: r in result <==>
        exists ix, k :: ix in intersections && k in intersections[ix].active && intersections[ix].active[k] == r
    {
      result := [];
      var left := intersections.Keys;
      while left != {}
        invariant left <= intersections.Keys
        invariant forall r <- result ::
          exists ix, k :: ix in intersections && k in intersections[ix].active && intersections[ix].active[k] == r
        invariant forall ix, k | ix in intersections && ix !in left && k in intersections[ix].active ::
          intersections[ix].active[k] in result
      {
        var ix :| ix in left;
        var keys := intersections[ix].active.Keys;
        while keys != {}
          invariant keys <= intersections[ix].active.Keys
          invariant forall r <- result ::
            exists ix, k :: ix in intersections && k in intersections[ix].active && intersections[ix].active[k] == r
          invariant forall jx, k | jx in intersections && jx !in left && k in intersections[jx].active ::
            intersections[jx].active[k] in result
          invariant forall k <- intersections[ix].active :: k !in keys ==> intersections[ix].active[k] in result
        {
          var k :| k in keys;
          result := result + [intersections[ix].active[k]];
          keys := keys - {k};
        }
        left := left - {ix};
      }
    }
  }

  method WithoutTrain(active: map<string, Reservation>, train: string) returns (kept: map<string, Reservation>)
    ensures kept == active - HeldBy(active, train)
  {
    kept := active;
    var pending := active.Keys;
    while pending != {}
      invariant pending <= active.Keys
      invariant kept == active - (HeldBy(active, train) - pending)
    {
      var k :| k in pending;
      pending := pending - {k};
      if active[k].trainId == train {
        kept := kept - {k};
      }
    }
  }

  // The check of the requested movements stops at the `n`-th with this reason.
  ghost predicate StopsAt(b: Book, requested: seq<Movement>, now: nat, why: Refusal, n: nat)
    requires n < |requested|
  {
    var m := requested[n];
    && (forall p | 0 <= p < n :: Free(b, requested[p], now)) && !Free(b, m, now)
    && why == if Occupied(b, m) then IntersectionOccupied(m.intersectionId) else ClearanceNotMet(m.intersectionId)
  }

  lemma OrderGrows(ids: seq<string>, before: seq<Movement>, m: Movement, n: nat)
    requires n < |ids| && m.movementId == ids[n]
    requires forall i | 0 <= i < |before| :: InRequestOrder(ids, before, i)
    requires forall j | 0 <= j < n :: IsAmong(before, |before|, ids[j])
    ensures forall i | 0 <= i < |before| + 1 :: InRequestOrder(ids, before + [m], i)
  {
    var requested := before + [m];
    forall i | 0 <= i < |requested| ensures InRequestOrder(ids, requested, i) {
      if i < |before| {
        assert InRequestOrder(ids, before, i);
        var k :| 0 <= k < |ids| && FirstPlace(ids, before, i, k);
        forall j | 0 <= j < k ensures IsAmong(requested, i, ids[j]) {
          assert IsAmong(before, i, ids[j]);
          var p :| 0 <= p < i && before[p].movementId == ids[j];
          assert requested[p] == before[p];
        }
        assert FirstPlace(ids, requested, i, k);
      } else {
        forall j | 0 <= j < n ensures IsAmong(requested, i, ids[j]) {
          assert IsAmong(before, |before|, ids[j]);
          var p :| 0 <= p < |before| && before[p].movementId == ids[j];
          assert requested[p] == before[p];
        }
        assert FirstPlace(ids, requested, i, n);
      }
    }
  }

  lemma StopIsFirst(b: Book, ids: seq<string>, requested: seq<Movement>, now: nat, why: Refusal, n: nat)
    requires Known(b, ids) && n < |requested| && StopsAt(b, requested, now, why, n)
    requires forall i | 0 <= i < |requested| ::
      requested[i].movementId in b.movements && b.movements[requested[i].movementId] == requested[i]
    requires InRequestOrder(ids, requested, n)
    ensures FirstInTheWay(b, ids, now, why)
  {
    var i :| 0 <= i < |ids| && FirstPlace(ids, requested, n, i);
    forall j | 0 <= j < i ensures Free(b, b.movements[ids[j]], now) {
      assert IsAmong(requested, n, ids[j]);
      var p :| 0 <= p < n && requested[p].movementId == ids[j];
      assert Free(b, requested[p], now);
    }
    assert InTheWayAt(b, ids, now, why, i);
  }

  lemma CompatibleFromList(b: Book, ids: seq<string>, requested: seq<Movement>)
    requires Known(b, ids)
    requires forall id <- ids :: exists i :: 0 <= i < |requested| && requested[i] == b.movements[id]
    requires forall i | 0 <= i < |requested| ::
      requested[i].movementId in ids && b.movements[requested[i].movementId] == requested[i]
    requires forall i, j | 0 <= i < j < |requested| ::
      requested[i].intersectionId == requested[j].intersectionId ==> !Conflict(requested[i], requested[j])
    requires forall k <- b.movements :: b.movements[k].movementId == k
    ensures Compatible(b, ids)
  {
    forall x, y | x in ids && y in ids && x != y && b.movements[x].intersectionId == b.movements[y].intersectionId
      ensures !Conflict(b.movements[x], b.movements[y])
    {
      var i :| 0 <= i < |requested| && requested[i] == b.movements[x];
      var j :| 0 <= j < |requested| && requested[j] == b.movements[y];
      assert i != j;
      assert Conflict(requested[i], requested[j]) == Conflict(requested[j], requested[i]);
    }
  }
}
