/** What the reservation book promises, on the fields of the movements themselves: ids,
    declared conflicts, clearance times and dates. */
module ReservationLaws {
  import opened Basics
  import opened Reservations
  import R = ReservationRuns

  /** In every run from a sound book, of two movements held at one intersection neither
      declares the other a conflict. */
  lemma HeldNeverConflict(start: Book, ops: seq<R.Op>, n: nat, ix: string, k: string, l: string)
    requires R.WellFormed(start) && R.ConflictFree(start) && n <= |ops| && R.FreshRun(start, ops) && k != l
    requires var b := R.After(start, ops[..n]);
      ix in b.intersections && k in b.intersections[ix].active && l in b.intersections[ix].active
    ensures var b := R.After(start, ops[..n]);
      && k in b.movements && l in b.movements
      && l !in b.movements[k].conflictIds && k !in b.movements[l].conflictIds
  {
    R.NeverHeldTogether(start, ops, n);
  }

  /** Exactly which requests are granted: all movements are known; none of them declares
      another at its intersection; none is held already, declares a held one or is declared by
      one; and after every recorded clear of such a movement both clearance times have
      passed, the default where a movement has none. */
  lemma ReservableOnFields(b: Book, ids: seq<string>, now: nat)
    requires R.WellFormed(b)
    ensures Reservable(b, ids, now) <==>
      && (forall x <- ids :: x in b.movements)
      && (forall x, y | x in ids && y in ids && x != y
                        && b.movements[x].intersectionId == b.movements[y].intersectionId ::
            y !in b.movements[x].conflictIds)
      && (forall x, k | x in ids && k in b.intersections[b.movements[x].intersectionId].active ::
            k != x && k !in b.movements[x].conflictIds && x !in b.movements[k].conflictIds)
      && (forall x, k | x in ids && k in b.intersections[b.movements[x].intersectionId].lastClear ::
            k == x || k in b.movements[x].conflictIds || x in b.movements[k].conflictIds ==>
              var t, own, other := b.intersections[b.movements[x].intersectionId].lastClear[k],
                                   b.movements[x].clearanceMs, b.movements[k].clearanceMs;
              && now >= t + (if own == 0 then b.defaultClearanceMs else own)
              && now >= t + (if other == 0 then b.defaultClearanceMs else other))
  {
    if Known(b, ids) {
      CompatibleOnFields(b, ids);
      forall x | x in ids ensures Free(b, b.movements[x], now) <==> UnheldAt(b, x) && RestedAt(b, x, now) {
        FreeOnFields(b, x, now);
      }
    }
  }

  ghost predicate UnheldAt(b: Book, x: string)
    requires R.WellFormed(b) && x in b.movements
  {
    forall k | k in b.intersections[b.movements[x].intersectionId].active ::
      k != x && k !in b.movements[x].conflictIds && x !in b.movements[k].conflictIds
  }

  ghost predicate RestedAt(b: Book, x: string, now: nat)
    requires R.WellFormed(b) && x in b.movements
  {
    forall k | k in b.intersections[b.movements[x].intersectionId].lastClear ::
      k == x || k in b.movements[x].conflictIds || x in b.movements[k].conflictIds ==>
        var t, own, other := b.intersections[b.movements[x].intersectionId].lastClear[k],
                             b.movements[x].clearanceMs, b.movements[k].clearanceMs;
        && now >= t + (if own == 0 then b.defaultClearanceMs else own)
        && now >= t + (if other == 0 then b.defaultClearanceMs else other)
  }

  lemma CompatibleOnFields(b: Book, ids: seq<string>)
    requires R.WellFormed(b) && Known(b, ids)
    ensures Compatible(b, ids) <==>
      forall x, y | x in ids && y in ids && x != y
                    && b.movements[x].intersectionId == b.movements[y].intersectionId ::
        y !in b.movements[x].conflictIds
  {
    if Compatible(b, ids) {
      forall x, y | x in ids && y in ids && x != y
                    && b.movements[x].intersectionId == b.movements[y].intersectionId
        ensures y !in b.movements[x].conflictIds
      {
        assert !Conflict(b.movements[x], b.movements[y]);
      }
    }
  }

  lemma FreeOnFields(b: Book, x: string, now: nat)
    requires R.WellFormed(b) && x in b.movements
    ensures Free(b, b.movements[x], now) <==> UnheldAt(b, x) && RestedAt(b, x, now)
  {
    var m := b.movements[x];
    var rt := b.intersections[m.intersectionId];
    forall k | k in rt.active
      ensures Blocks(b, rt, m, k) <==> k == x || k in m.conflictIds || x in b.movements[k].conflictIds
    {
    }
    forall k | k in rt.lastClear
      ensures TooRecent(b, rt, m, k, now) <==>
        (k == x || k in m.conflictIds || x in b.movements[k].conflictIds)
        && !(now >= rt.lastClear[k] + (if m.clearanceMs == 0 then b.defaultClearanceMs else m.clearanceMs)
             && now >= rt.lastClear[k] + (if b.movements[k].clearanceMs == 0 then b.defaultClearanceMs
                                          else b.movements[k].clearanceMs))
    {
    }
  }

  /** A request of known and compatible movements that is refused names the intersection of
      the first movement in the way, as occupied exactly when a held movement there has its
      id, is declared by it or declares it, and else for a clearance that is still running. */
  lemma RefusedAsOccupiedIff(b: Book, ids: seq<string>, now: nat, why: Refusal) returns (i: nat)
    requires R.WellFormed(b) && Known(b, ids) && FirstInTheWay(b, ids, now, why)
    ensures i < |ids| && (forall j | 0 <= j < i :: UnheldAt(b, ids[j]) && RestedAt(b, ids[j], now))
    ensures (why == IntersectionOccupied(b.movements[ids[i]].intersectionId)) <==>
      exists k :: k in b.intersections[b.movements[ids[i]].intersectionId].active
                  && (k == ids[i] || k in b.movements[ids[i]].conflictIds || ids[i] in b.movements[k].conflictIds)
    ensures !why.IntersectionOccupied? ==>
      why == ClearanceNotMet(b.movements[ids[i]].intersectionId) && !RestedAt(b, ids[i], now)
  {
    i :| 0 <= i < |ids| && InTheWayAt(b, ids, now, why, i);
    FreeOnFields(b, ids[i], now);
    forall j | 0 <= j < i ensures UnheldAt(b, ids[j]) && RestedAt(b, ids[j], now) {
      FreeOnFields(b, ids[j], now);
    }
    OccupiedOnFields(b, ids[i]);
  }

  lemma OccupiedOnFields(b: Book, x: string)
    requires R.WellFormed(b) && x in b.movements
    ensures Occupied(b, b.movements[x]) <==>
      exists k :: k in b.intersections[b.movements[x].intersectionId].active
                  && (k == x || k in b.movements[x].conflictIds || x in b.movements[k].conflictIds)
  {
    var m := b.movements[x];
    var rt := b.intersections[m.intersectionId];
    if k :| k in rt.active && (k == x || k in m.conflictIds || x in b.movements[k].conflictIds) {
      assert Blocks(b, rt, m, k);
    }
    if k :| Blocks(b, rt, m, k) {
      assert k in rt.active;
    }
  }

  /** A reservation comes after every earlier clear of the same movement, or of one that
      either declares, by the clearance time of each, the default where it has none. */
  lemma ClearancesPassed(start: Book, ops: seq<R.Op>, i: nat, j: nat, k: string, l: string)
    requires i < j < |ops| && R.WellFormed(start) && R.FreshRun(start, ops) && R.TimelyRun(start, ops)
    requires R.Clears(R.After(start, ops[..i]), ops[i], k) && R.Reserves(R.After(start, ops[..j]), ops[j], l)
    ensures var b := R.After(start, ops[..j]);
      && k in b.movements && l in b.movements
      && (b.movements[k].intersectionId == b.movements[l].intersectionId
          && (k == l || k in b.movements[l].conflictIds || l in b.movements[k].conflictIds) ==>
            var own, other := b.movements[l].clearanceMs, b.movements[k].clearanceMs;
            && ops[j].now >= ops[i].now + (if own == 0 then start.defaultClearanceMs else own)
            && ops[j].now >= ops[i].now + (if other == 0 then start.defaultClearanceMs else other))
  {
    R.ReservationAfterEveryClear(start, ops, i, j, k, l);
    R.StaysWellFormed(start, ops, j);
  }
}
