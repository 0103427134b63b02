/** What the two passes over a pair of routes find, on the coordinates of their points: which
    segment pairs give a fragment, which a crossing, and in which order. */
module GridLaws {
  import opened Basics
  import opened GridIndex

  // ----- which pairs are looked at -----

  // The range between `p` and `q` starts at most `tolerance` after the one between `r` and `s`
  // ends.
  predicate StartsBy(p: real, q: real, r: real, s: real, tolerance: real) {
    p <= r + tolerance || p <= s + tolerance || q <= r + tolerance || q <= s + tolerance
  }

  // Segment `i` of `a` and segment `j` of `b` have horizontal boxes within `tolerance`.
  predicate BoxesNear(a: seq<Point>, i: nat, b: seq<Point>, j: nat, tolerance: real)
    requires i + 1 < |a| && j + 1 < |b|
  {
    && StartsBy(a[i].x, a[i + 1].x, b[j].x, b[j + 1].x, tolerance)
    && StartsBy(b[j].x, b[j + 1].x, a[i].x, a[i + 1].x, tolerance)
    && StartsBy(a[i].z, a[i + 1].z, b[j].z, b[j + 1].z, tolerance)
    && StartsBy(b[j].z, b[j + 1].z, a[i].z, a[i + 1].z, tolerance)
  }

  lemma BoxesNearIff(a: seq<Point>, i: nat, b: seq<Point>, j: nat, tolerance: real)
    requires i + 1 < |a| && j + 1 < |b|
    ensures SegmentBoundsNear(a, i, b, j, tolerance) <==> BoxesNear(a, i, b, j, tolerance)
  {
    StartsByIff(a[i].x, a[i + 1].x, b[j].x, b[j + 1].x, tolerance);
    StartsByIff(b[j].x, b[j + 1].x, a[i].x, a[i + 1].x, tolerance);
    StartsByIff(a[i].z, a[i + 1].z, b[j].z, b[j + 1].z, tolerance);
    StartsByIff(b[j].z, b[j + 1].z, a[i].z, a[i + 1].z, tolerance);
  }

  lemma StartsByIff(p: real, q: real, r: real, s: real, tolerance: real)
    ensures Lower(p, q) <= Upper(r, s) + tolerance <==> StartsBy(p, q, r, s, tolerance)
  {
  }

  // The first pass finds a fragment at the pair: in a route with itself only pairs in order
  // count.
  predicate FragmentAt<F, X>(p: Pair<F, X>, i: nat, j: nat) {
    && i + 1 < |p.a| && j + 1 < |p.b| && (p.selfPair ==> i < j)
    && BoxesNear(p.a, i, p.b, j, p.sharedTolerance) && p.overlap(i, j).Some?
  }

  // The second pass sees a crossing at the pair: the segments' boxes touch, they gave no
  // fragment, and in a route with itself they are in order and not neighbours, nor the first
  // and the last.
  predicate CrossingAt<F, X>(p: Pair<F, X>, shared: set<nat>, i: nat, j: nat) {
    && i + 1 < |p.a| && j + 1 < |p.b| && (p.selfPair ==> i + 1 < j && !(i == 0 && j == |p.b| - 2))
    && (i % 0x1_0000_0000) * 0x1_0000_0000 + j % 0x1_0000_0000 !in shared
    && BoxesNear(p.a, i, p.b, j, 0.0) && p.crossing(i, j).Some?
  }

  lemma FragmentIff<F, X>(p: Pair<F, X>, i: nat, j: nat)
    requires i + 1 < |p.a| && j + 1 < |p.b|
    ensures Fragment(p, i, j) == if FragmentAt(p, i, j) then p.overlap(i, j) else None
  {
    BoxesNearIff(p.a, i, p.b, j, p.sharedTolerance);
  }

  lemma CrossingIff<F, X>(p: Pair<F, X>, shared: set<nat>, i: nat, j: nat)
    requires i + 1 < |p.a| && j + 1 < |p.b|
    ensures Crossing(p, shared, i, j) == if CrossingAt(p, shared, i, j) then p.crossing(i, j) else None
  {
    BoxesNearIff(p.a, i, p.b, j, 0.0);
  }

  // ----- pairs in loop order -----

  ghost function Row(at: (nat, nat) -> bool, i: nat, n: nat): seq<(nat, nat)> {
    if n == 0 then [] else Row(at, i, n - 1) + (if at(i, n - 1) then [(i, n - 1)] else [])
  }

  ghost function Rows(at: (nat, nat) -> bool, m: nat, n: nat): seq<(nat, nat)> {
    if m == 0 then [] else Rows(at, m - 1, n) + Row(at, m - 1, n)
  }

  predicate Earlier(p: (nat, nat), q: (nat, nat)) {
    p.0 < q.0 || (p.0 == q.0 && p.1 < q.1)
  }

  ghost predicate InLoopOrder(places: seq<(nat, nat)>) {
    forall k, l | 0 <= k < l < |places| :: Earlier(places[k], places[l])
  }

  // `places` are the pairs below `m` and `n` where `at` holds, in loop order.
  ghost predicate Lists(places: seq<(nat, nat)>, at: (nat, nat) -> bool, m: nat, n: nat) {
    && InLoopOrder(places)
    && (forall i: nat, j: nat :: (i, j) in places <==> i < m && j < n && at(i, j))
  }

  lemma {:induction false} RowIs(at: (nat, nat) -> bool, i: nat, n: nat)
    ensures var row := Row(at, i, n);
      && InLoopOrder(row)
      && (forall x: nat, j: nat :: (x, j) in row <==> x == i && j < n && at(i, j))
  {
    if n > 0 {
      RowIs(at, i, n - 1);
      var front := Row(at, i, n - 1);
      assert forall k | 0 <= k < |front| :: (front[k].0, front[k].1) in front;
    }
  }

  lemma {:induction false} RowsMembers(at: (nat, nat) -> bool, m: nat, n: nat)
    ensures forall i: nat, j: nat :: (i, j) in Rows(at, m, n) <==> i < m && j < n && at(i, j)
  {
    if m > 0 {
      var front, row := Rows(at, m - 1, n), Row(at, m - 1, n);
      RowsMembers(at, m - 1, n);
      RowIs(at, m - 1, n);
      forall i: nat, j: nat ensures (i, j) in Rows(at, m, n) <==> (i, j) in front || (i, j) in row {
        assert Rows(at, m, n) == front + row;
      }
    }
  }

  lemma {:induction false} RowsOrdered(at: (nat, nat) -> bool, m: nat, n: nat)
    ensures InLoopOrder(Rows(at, m, n))
  {
    if m > 0 {
      RowsOrdered(at, m - 1, n);
      var front, row := Rows(at, m - 1, n), Row(at, m - 1, n);
      RowIs(at, m - 1, n);
      forall k | 0 <= k < |front| ensures front[k].0 < m - 1 {
        RowsMembers(at, m - 1, n);
        assert (front[k].0, front[k].1) in front;
      }
      forall k | 0 <= k < |row| ensures row[k].0 == m - 1 {
        assert (row[k].0, row[k].1) in row;
      }
      var rows := Rows(at, m, n);
      assert rows == front + row;
      forall k, l | 0 <= k < l < |rows| ensures Earlier(rows[k], rows[l]) {
        if l < |front| {
          assert Earlier(front[k], front[l]);
        } else if k < |front| {
          assert rows[k] == front[k] && rows[l] == row[l - |front|];
        } else {
          assert Earlier(row[k - |front|], row[l - |front|]);
        }
      }
    }
  }

  /** `Rows` lists exactly the pairs below `m` and `n` where `at` holds, in loop order. */
  lemma RowsList(at: (nat, nat) -> bool, m: nat, n: nat)
    ensures Lists(Rows(at, m, n), at, m, n)
  {
    RowsMembers(at, m, n);
    RowsOrdered(at, m, n);
  }

  // ----- the first pass -----

  ghost function FragmentPlaces<F, X>(p: Pair<F, X>): (nat, nat) -> bool {
    (i: nat, j: nat) => FragmentAt(p, i, j)
  }

  // The fragments at the places, and the keys of the places.
  ghost predicate Yields<F, X>(p: Pair<F, X>, places: seq<(nat, nat)>, start: (seq<F>, set<nat>), end: (seq<F>, set<nat>)) {
    && |end.0| == |start.0| + |places| && end.0[..|start.0|] == start.0
    && (forall k | 0 <= k < |places| ::
          var f := p.overlap(places[k].0, places[k].1); f.Some? && end.0[|start.0| + k] == f.value)
    && (forall key :: key in end.1 <==> key in start.1 || exists k :: 0 <= k < |places| && IsKey(key, places[k]))
  }

  predicate IsKey(key: nat, place: (nat, nat)) {
    key == (place.0 % 0x1_0000_0000) * 0x1_0000_0000 + place.1 % 0x1_0000_0000
  }

  lemma YieldsNothing<F, X>(p: Pair<F, X>, s: (seq<F>, set<nat>))
    ensures Yields(p, [], s, s)
  {
  }

  lemma YieldsMore<F, X>(p: Pair<F, X>, places: seq<(nat, nat)>, more: seq<(nat, nat)>,
                         s: (seq<F>, set<nat>), t: (seq<F>, set<nat>), u: (seq<F>, set<nat>))
    requires Yields(p, places, s, t) && Yields(p, more, t, u)
    ensures Yields(p, places + more, s, u)
  {
    var all := places + more;
    assert u.0[..|s.0|] == u.0[..|t.0|][..|s.0|];
    forall k | 0 <= k < |all|
      ensures p.overlap(all[k].0, all[k].1).Some? && u.0[|s.0| + k] == p.overlap(all[k].0, all[k].1).value
    {
      if k < |places| {
        assert u.0[|s.0| + k] == u.0[..|t.0|][|s.0| + k];
      }
    }
    KeysMore(places, more, s.1, t.1, u.1);
  }

  ghost predicate HasKey(places: seq<(nat, nat)>, key: nat) {
    exists k :: 0 <= k < |places| && IsKey(key, places[k])
  }

  lemma KeysMore(places: seq<(nat, nat)>, more: seq<(nat, nat)>, s: set<nat>, t: set<nat>, u: set<nat>)
    requires forall key :: key in t <==> key in s || HasKey(places, key)
    requires forall key :: key in u <==> key in t || HasKey(more, key)
    ensures forall key :: key in u <==> key in s || HasKey(places + more, key)
  {
    forall key ensures HasKey(places + more, key) <==> HasKey(places, key) || HasKey(more, key) {
      HasKeyMore(places, more, key);
    }
  }

  lemma HasKeyMore(places: seq<(nat, nat)>, more: seq<(nat, nat)>, key: nat)
    ensures HasKey(places + more, key) <==> HasKey(places, key) || HasKey(more, key)
  {
    var all := places + more;
    if k :| 0 <= k < |places| && IsKey(key, places[k]) {
      assert IsKey(key, all[k]);
    }
    if k :| 0 <= k < |more| && IsKey(key, more[k]) {
      assert IsKey(key, all[|places| + k]);
    }
    if k :| 0 <= k < |all| && IsKey(key, all[k]) {
      assert if k < |places| then IsKey(key, places[k]) else IsKey(key, more[k - |places|]);
    }
  }

  lemma FirstStepYields<F, X>(p: Pair<F, X>, s: (seq<F>, set<nat>), i: nat, j: nat)
    requires i + 1 < |p.a| && j + 1 < |p.b|
    ensures Yields(p, if FragmentAt(p, i, j) then [(i, j)] else [], s, FirstStep(p)(s, i, j))
  {
    FragmentIff(p, i, j);
    if FragmentAt(p, i, j) {
      assert IsKey(SegmentPairKey(i, j), [(i, j)][0]);
    }
  }

  lemma {:induction false} FirstRowYields<F, X>(p: Pair<F, X>, s: (seq<F>, set<nat>), i: nat, n: nat)
    requires i + 1 < |p.a| && n < |p.b|
    ensures Yields(p, Row(FragmentPlaces(p), i, n), s, OverRow(FirstStep(p), s, i, UpTo(n)))
  {
    if n == 0 {
      YieldsNothing(p, s);
    } else {
      FirstRowYields(p, s, i, n - 1);
      var t := OverRow(FirstStep(p), s, i, UpTo(n - 1));
      OverRowNext(FirstStep(p), s, i, n);
      FirstStepYields(p, t, i, n - 1);
      YieldsMore(p, Row(FragmentPlaces(p), i, n - 1), if FragmentAt(p, i, n - 1) then [(i, n - 1)] else [],
                 s, t, FirstStep(p)(t, i, n - 1));
    }
  }

  lemma {:induction false} FirstRowsYield<F, X>(p: Pair<F, X>, m: nat, n: nat)
    requires m < |p.a| && n < |p.b|
    ensures Yields(p, Rows(FragmentPlaces(p), m, n), ([], {}), OverRows(FirstStep(p), ([], {}), AllPairs(m, n)))
  {
    if m == 0 {
      YieldsNothing<F, X>(p, ([], {}));
    } else {
      FirstRowsYield(p, m - 1, n);
      assert AllPairs(m, n)[..m - 1] == AllPairs(m - 1, n);
      var t := OverRows(FirstStep(p), ([], {}), AllPairs(m - 1, n));
      FirstRowYields(p, t, m - 1, n);
      YieldsMore(p, Rows(FragmentPlaces(p), m - 1, n), Row(FragmentPlaces(p), m - 1, n), ([], {}), t,
                 OverRow(FirstStep(p), t, m - 1, UpTo(n)));
    }
  }

  /** Exactly what the first pass finds: the fragments of the segment pairs whose boxes are within
      the shared tolerance and that overlap, in loop order; and the keys of these pairs. */
  lemma FragmentsIff<F, X>(p: Pair<F, X>)
    requires WellSized(p)
    ensures Yields(p, Rows(FragmentPlaces(p), |p.a| - 1, |p.b| - 1), ([], {}), Overlaps(p))
  {
    FirstRowsYield(p, |p.a| - 1, |p.b| - 1);
  }

  // ----- the second pass -----

  ghost function CrossingPlaces<F, X>(p: Pair<F, X>, shared: set<nat>): (nat, nat) -> bool {
    (i: nat, j: nat) => CrossingAt(p, shared, i, j)
  }

  // The crossings at the places, each unless it is known among those before it.
  ghost function FirstKnown<F, X>(p: Pair<F, X>, start: seq<X>, places: seq<(nat, nat)>): seq<X> {
    if places == [] then start
    else
      var front := FirstKnown(p, start, places[..|places| - 1]);
      var (i, j) := places[|places| - 1];
      var x := p.crossing(i, j);
      if x.None? || p.known(front, x.value) then front else front + [x.value]
  }

  lemma {:induction false} FirstKnownMore<F, X>(p: Pair<F, X>, start: seq<X>, places: seq<(nat, nat)>, more: seq<(nat, nat)>)
    ensures FirstKnown(p, start, places + more) == FirstKnown(p, FirstKnown(p, start, places), more)
  {
    if more == [] {
      assert places + more == places;
    } else {
      FirstKnownMore(p, start, places, more[..|more| - 1]);
      assert (places + more)[..|places + more| - 1] == places + more[..|more| - 1];
    }
  }

  lemma SecondStepAdds<F, X>(p: Pair<F, X>, shared: set<nat>, s: seq<X>, i: nat, j: nat)
    requires i + 1 < |p.a| && j + 1 < |p.b|
    ensures SecondStep(p, shared)(s, i, j) == FirstKnown(p, s, if CrossingAt(p, shared, i, j) then [(i, j)] else [])
  {
    CrossingIff(p, shared, i, j);
    if CrossingAt(p, shared, i, j) {
      assert [(i, j)][..0] == [];
      assert AlreadyKnown(p, s, p.crossing(i, j).value) == p.known(s, p.crossing(i, j).value);
    }
  }

  lemma OverRowNext<S>(f: (S, nat, nat) -> S, s: S, i: nat, n: nat)
    requires n > 0
    ensures OverRow(f, s, i, UpTo(n)) == f(OverRow(f, s, i, UpTo(n - 1)), i, n - 1)
  {
    assert UpTo(n)[..n - 1] == UpTo(n - 1);
  }

  lemma {:induction false} SecondRowAdds<F, X>(p: Pair<F, X>, shared: set<nat>, s: seq<X>, i: nat, n: nat)
    requires i + 1 < |p.a| && n < |p.b|
    ensures OverRow(SecondStep(p, shared), s, i, UpTo(n)) == FirstKnown(p, s, Row(CrossingPlaces(p, shared), i, n))
  {
    if n > 0 {
      SecondRowAdds(p, shared, s, i, n - 1);
      OverRowNext(SecondStep(p, shared), s, i, n);
      RowAdds(p, shared, s, OverRow(SecondStep(p, shared), s, i, UpTo(n - 1)), i, n);
    }
  }

  lemma RowAdds<F, X>(p: Pair<F, X>, shared: set<nat>, s: seq<X>, t: seq<X>, i: nat, n: nat)
    requires i + 1 < |p.a| && 0 < n < |p.b| && t == FirstKnown(p, s, Row(CrossingPlaces(p, shared), i, n - 1))
    ensures SecondStep(p, shared)(t, i, n - 1) == FirstKnown(p, s, Row(CrossingPlaces(p, shared), i, n))
  {
    var front := Row(CrossingPlaces(p, shared), i, n - 1);
    var last: seq<(nat, nat)> := if CrossingAt(p, shared, i, n - 1) then [(i, n - 1)] else [];
    SecondStepAdds(p, shared, t, i, n - 1);
    FirstKnownMore(p, s, front, last);
    assert Row(CrossingPlaces(p, shared), i, n) == front + last;
  }

  lemma {:induction false} SecondRowsAdd<F, X>(p: Pair<F, X>, shared: set<nat>, m: nat, n: nat)
    requires m < |p.a| && n < |p.b|
    ensures OverRows(SecondStep(p, shared), [], AllPairs(m, n)) == FirstKnown(p, [], Rows(CrossingPlaces(p, shared), m, n))
  {
    if m > 0 {
      SecondRowsAdd(p, shared, m - 1, n);
      assert AllPairs(m, n)[..m - 1] == AllPairs(m - 1, n);
      SecondRowAdds(p, shared, OverRows(SecondStep(p, shared), [], AllPairs(m - 1, n)), m - 1, n);
      FirstKnownMore(p, [], Rows(CrossingPlaces(p, shared), m - 1, n), Row(CrossingPlaces(p, shared), m - 1, n));
    }
  }

  /** Exactly what the second pass finds: in loop order the crossings of the segment pairs whose
      boxes touch and that gave no fragment, neighbours in one route left out, and each only if
      it is not known among those found before. */
  lemma CrossingsIff<F, X>(p: Pair<F, X>)
    requires WellSized(p)
    ensures Crossings(p) == FirstKnown(p, [], Rows(CrossingPlaces(p, Overlaps(p).1), |p.a| - 1, |p.b| - 1))
  {
    var shared, m, n := Overlaps(p).1, |p.a| - 1, |p.b| - 1;
    SecondRowsAdd(p, shared, m, n);
    assert Crossings(p) == OverRows(SecondStep(p, shared), [], AllPairs(m, n));
  }
}
