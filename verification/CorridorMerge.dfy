/** Shared corridors after pairwise matching: end-to-end pieces are merged until nothing
    fits, then components that are short as a whole are dropped.  The nearness of points
    is left abstract; positions and lengths are reals. */
module CorridorMerge {
  import opened Basics
  import opened GridIndex
  import UnionFind

  // One line's passage through a corridor: a range of positions along the line.
  datatype Member = Member(
    lineId: string,
    sameDirection: bool,
    start: real,
    end: real,
    startSegment: nat,
    endSegment: nat)

  datatype Corridor = Corridor(start: Point, end: Point, length: real, geometry: seq<Point>, members: seq<Member>)

  /** `touch` is nearness of end points within the analyzer's tolerances, `coincide` the
      much tighter test on the joint of two polylines. */
  datatype Tests = Tests(touch: (Point, Point) -> bool, coincide: (Point, Point) -> bool)

  predicate Touch(t: Tests, p: Point, q: Point) {
    t.touch(p, q)
  }

  predicate Coincide(t: Tests, p: Point, q: Point) {
    t.coincide(p, q)
  }

  // ----- matching members -----

  const POSITION_EPSILON := 0.00001

  function Distance(x: real, y: real): real {
    if x <= y then y - x else x - y
  }

  // How far apart two ranges are where one ends and the other starts.
  function Gap(m: Member, v: Member): real {
    MinReal(Distance(m.end, v.start), Distance(v.end, m.start))
  }

  predicate Alike(m: Member, v: Member) {
    v.lineId == m.lineId && v.sameDirection == m.sameDirection
  }

  predicate Fits(m: Member, v: Member) {
    Alike(m, v) && Gap(m, v) <= POSITION_EPSILON
  }

  // The first unused alike member with the least gap, among the first `n`.
  function Best(m: Member, vs: seq<Member>, used: seq<nat>, n: nat): (b: Option<nat>)
    requires n <= |vs|
    ensures b.Some? ==> b.value < n && b.value !in used && Alike(m, vs[b.value])
  {
    if n == 0 then None
    else
      var b := Best(m, vs, used, n - 1);
      if n - 1 !in used && Alike(m, vs[n - 1]) && (b.None? || Gap(m, vs[n - 1]) < Gap(m, vs[b.value]))
      then Some(n - 1) else b
  }

  // `b` is nearer to `m` than `j`, or as near and listed no later.
  predicate NearerOrFirst(m: Member, vs: seq<Member>, b: nat, j: nat)
    requires b < |vs| && j < |vs|
  {
    Gap(m, vs[b]) < Gap(m, vs[j]) || (Gap(m, vs[b]) == Gap(m, vs[j]) && b <= j)
  }

  lemma {:induction false} BestIsLeast(m: Member, vs: seq<Member>, used: seq<nat>, n: nat, j: nat)
    requires j < n <= |vs| && j !in used && Alike(m, vs[j])
    ensures var b := Best(m, vs, used, n); b.Some? && NearerOrFirst(m, vs, b.value, j)
  {
    if j < n - 1 {
      BestIsLeast(m, vs, used, n - 1, j);
    }
  }

  // Matches for the first `n` members, each taking the best that is left.
  function Greedy(ms: seq<Member>, vs: seq<Member>, n: nat): (r: Option<seq<nat>>)
    requires n <= |ms|
    ensures r.Some? ==> |r.value| == n
  {
    if n == 0 then Some([])
    else
      var front := Greedy(ms, vs, n - 1);
      if front.None? then None
      else
        var b := Best(ms[n - 1], vs, front.value, |vs|);
        if b.Some? && Gap(ms[n - 1], vs[b.value]) <= POSITION_EPSILON then Some(front.value + [b.value]) else None
  }

  function Match(l: Corridor, r: Corridor): Option<seq<nat>> {
    if |l.members| != |r.members| then None else Greedy(l.members, r.members, |l.members|)
  }

  /** A pairing of all members, one to one, of the same line and direction, with ranges
      that touch. */
  ghost predicate Perfect(ms: seq<Member>, vs: seq<Member>, matches: seq<nat>) {
    && |matches| == |ms| == |vs|
    && (forall i | 0 <= i < |ms| :: matches[i] < |vs| && Fits(ms[i], vs[matches[i]]))
    && (forall i, j | 0 <= i < j < |ms| :: matches[i] != matches[j])
  }

  lemma {:induction false} GreedyFits(ms: seq<Member>, vs: seq<Member>, n: nat)
    requires n <= |ms| && Greedy(ms, vs, n).Some?
    ensures var r := Greedy(ms, vs, n).value;
      && (forall i | 0 <= i < n :: r[i] < |vs| && Fits(ms[i], vs[r[i]]))
      && (forall i, j | 0 <= i < j < n :: r[i] != r[j])
  {
    if n > 0 {
      GreedyFits(ms, vs, n - 1);
    }
  }

  /** What matching returns is a perfect pairing, onto all members of the other side. */
  lemma MatchIsBijection(l: Corridor, r: Corridor)
    requires Match(l, r).Some?
    ensures Perfect(l.members, r.members, Match(l, r).value)
    ensures forall j | 0 <= j < |r.members| :: j in Match(l, r).value
  {
    GreedyFits(l.members, r.members, |l.members|);
    var matches := Match(l, r).value;
    forall j | 0 <= j < |r.members| ensures j in matches {
      Onto(matches, |r.members|, j);
    }
  }

  // `n` different numbers below `n` are all of them.
  lemma Onto(s: seq<nat>, n: nat, j: nat)
    requires |s| == n && j < n && forall i | 0 <= i < n :: s[i] < n
    requires forall i, k | 0 <= i < k < n :: s[i] != s[k]
    ensures j in s
  {
    var all, some := Numbers(n), Elements(s);
    assert some <= all;
    SubsetCard(some, all);
  }

  function Elements(s: seq<nat>): (r: set<nat>)
    requires forall i, k | 0 <= i < k < |s| :: s[i] != s[k]
    ensures |r| == |s| && forall x: nat :: x in r <==> x in s
  {
    if s == [] then {}
    else
      LastIsNew(s);
      Elements(s[..|s| - 1]) + {s[|s| - 1]}
  }

  lemma LastIsNew(s: seq<nat>)
    requires s != [] && forall i, k | 0 <= i < k < |s| :: s[i] != s[k]
    ensures var front, last := s[..|s| - 1], s[|s| - 1];
      last !in front && forall x: nat :: x in s <==> x in front || x == last
  {
    var front, last := s[..|s| - 1], s[|s| - 1];
    assert s == front + [last];
  }

  function Numbers(n: nat): (r: set<nat>)
    ensures |r| == n && forall x: nat :: x in r <==> x < n
  {
    if n == 0 then {} else Numbers(n - 1) + {n - 1}
  }

  lemma {:induction false} SubsetCard(s: set<nat>, t: set<nat>)
    requires s <= t && |s| == |t|
    ensures s == t
  {
    if s != t {
      var x :| x in t && x !in s;
      assert s <= t - {x};
      SubsetSmaller(s, t - {x});
    }
  }

  lemma SubsetSmaller(s: set<nat>, t: set<nat>)
    requires s <= t
    ensures |s| <= |t|
  {
    assert t == s + (t - s);
  }

  /** Nobody fits two members of the other side. */
  ghost predicate Unambiguous(ms: seq<Member>, vs: seq<Member>) {
    forall i, j, k | 0 <= i < |ms| && 0 <= j < |vs| && 0 <= k < |vs| && Fits(ms[i], vs[j]) && Fits(ms[i], vs[k]) ::
      j == k
  }

  lemma {:induction false} GreedyFindsPairing(ms: seq<Member>, vs: seq<Member>, matches: seq<nat>, n: nat)
    requires Perfect(ms, vs, matches) && Unambiguous(ms, vs) && n <= |ms|
    ensures Greedy(ms, vs, n) == Some(matches[..n])
  {
    if n > 0 {
      GreedyFindsPairing(ms, vs, matches, n - 1);
      var j := matches[n - 1];
      assert j !in matches[..n - 1];
      BestIsLeast(ms[n - 1], vs, matches[..n - 1], |vs|, j);
      var b := Best(ms[n - 1], vs, matches[..n - 1], |vs|).value;
      assert Fits(ms[n - 1], vs[b]) && Fits(ms[n - 1], vs[j]);
      assert matches[..n] == matches[..n - 1] + [j];
    }
  }

  /** When nobody fits two members, the greedy choice finds a perfect pairing if there is
      one, and otherwise none. */
  lemma UnambiguousMatch(l: Corridor, r: Corridor)
    requires Unambiguous(l.members, r.members)
    ensures Match(l, r).Some? <==> exists matches :: Perfect(l.members, r.members, matches)
  {
    if Match(l, r).Some? {
      MatchIsBijection(l, r);
    }
    if matches :| Perfect(l.members, r.members, matches) {
      GreedyFindsPairing(l.members, r.members, matches, |l.members|);
    }
  }

  /** Each member is paired with the nearest alike member that the ones before it left, the
      first of several as near. */
  ghost predicate NearestFirst(ms: seq<Member>, vs: seq<Member>, matches: seq<nat>) {
    |matches| == |ms| && forall i | 0 <= i < |ms| :: NearestAt(ms[i], vs, matches[..i], matches[i])
  }

  ghost predicate NearestAt(m: Member, vs: seq<Member>, used: seq<nat>, b: nat) {
    forall j | 0 <= j < |vs| && Alike(m, vs[j]) && j !in used :: b < |vs| && NearerOrFirst(m, vs, b, j)
  }

  lemma {:induction false} GreedyIsNearestFirst(ms: seq<Member>, vs: seq<Member>, n: nat, i: nat, j: nat)
    requires i < n <= |ms| && Greedy(ms, vs, n).Some?
    requires j < |vs| && Alike(ms[i], vs[j]) && j !in Greedy(ms, vs, n).value[..i]
    ensures var r := Greedy(ms, vs, n).value; r[i] < |vs| && NearerOrFirst(ms[i], vs, r[i], j)
  {
    var r, front := Greedy(ms, vs, n).value, Greedy(ms, vs, n - 1).value;
    assert r[..n - 1] == front;
    if i < n - 1 {
      assert r[..i] == front[..i];
      GreedyIsNearestFirst(ms, vs, n - 1, i, j);
    } else {
      BestIsLeast(ms[i], vs, front, |vs|, j);
    }
  }

  lemma NearestIsBest(m: Member, vs: seq<Member>, used: seq<nat>, j: nat)
    requires j < |vs| && j !in used && Alike(m, vs[j])
    requires NearestAt(m, vs, used, j)
    ensures Best(m, vs, used, |vs|) == Some(j)
  {
    BestIsLeast(m, vs, used, |vs|, j);
  }

  lemma PairIsBest(ms: seq<Member>, vs: seq<Member>, matches: seq<nat>, i: nat)
    requires Perfect(ms, vs, matches) && NearestFirst(ms, vs, matches) && i < |ms|
    ensures Best(ms[i], vs, matches[..i], |vs|) == Some(matches[i]) && Fits(ms[i], vs[matches[i]])
  {
    assert matches[i] !in matches[..i];
    NearestIsBest(ms[i], vs, matches[..i], matches[i]);
  }

  lemma GreedyNext(ms: seq<Member>, vs: seq<Member>, matches: seq<nat>, n: nat)
    requires 0 < n <= |ms| && n <= |matches| && Greedy(ms, vs, n - 1) == Some(matches[..n - 1])
    requires Best(ms[n - 1], vs, matches[..n - 1], |vs|) == Some(matches[n - 1])
    requires matches[n - 1] < |vs| && Fits(ms[n - 1], vs[matches[n - 1]])
    ensures Greedy(ms, vs, n) == Some(matches[..n])
  {
    assert matches[..n] == matches[..n - 1] + [matches[n - 1]];
  }

  lemma {:induction false} GreedyFindsNearestFirst(ms: seq<Member>, vs: seq<Member>, matches: seq<nat>, n: nat)
    requires Perfect(ms, vs, matches) && NearestFirst(ms, vs, matches) && n <= |ms|
    ensures Greedy(ms, vs, n) == Some(matches[..n])
  {
    if n > 0 {
      GreedyFindsNearestFirst(ms, vs, matches, n - 1);
      PairIsBest(ms, vs, matches, n - 1);
      GreedyNext(ms, vs, matches, n);
    }
  }

  /** Exactly which pairing is found: the perfect one that gives each member the nearest
      left. */
  lemma MatchIff(l: Corridor, r: Corridor, matches: seq<nat>)
    ensures Match(l, r) == Some(matches) <==>
      Perfect(l.members, r.members, matches) && NearestFirst(l.members, r.members, matches)
  {
    var ms, vs := l.members, r.members;
    if Match(l, r) == Some(matches) {
      MatchIsBijection(l, r);
      forall i | 0 <= i < |ms| ensures NearestAt(ms[i], vs, matches[..i], matches[i]) {
        forall j | 0 <= j < |vs| && Alike(ms[i], vs[j]) && j !in matches[..i]
          ensures matches[i] < |vs| && NearerOrFirst(ms[i], vs, matches[i], j)
        {
          GreedyIsNearestFirst(ms, vs, |ms|, i, j);
        }
      }
    }
    if Perfect(ms, vs, matches) && NearestFirst(ms, vs, matches) {
      GreedyFindsNearestFirst(ms, vs, matches, |ms|);
      assert matches[..|ms|] == matches;
    }
  }

  /** No match is found exactly when no perfect pairing is the greedy one.  A condition that
      can be tested on the members alone is only in `UnambiguousMatch`. */
  lemma PairingMissedIff(l: Corridor, r: Corridor)
    ensures Match(l, r).None? <==>
      forall matches :: Perfect(l.members, r.members, matches) ==> !NearestFirst(l.members, r.members, matches)
  {
    if Match(l, r).Some? {
      MatchIff(l, r, Match(l, r).value);
    } else {
      forall matches | Perfect(l.members, r.members, matches) ensures !NearestFirst(l.members, r.members, matches) {
        MatchIff(l, r, matches);
      }
    }
  }

  const Near0 := Point(0.0, 0.0, 0.0)
  const MissLeft := Corridor(
    Near0, Near0, 1.0, [], [Member("L", true, 0.0, 1.0, 0, 0), Member("L", true, 0.0, 1.00001, 0, 0)])
  const MissRight := Corridor(
    Near0, Near0, 1.0, [], [Member("L", true, 0.99999, 2.0, 0, 1), Member("L", true, 1.000002, 2.0, 1, 1)])

  lemma MissGaps()
    ensures var ms, vs := MissLeft.members, MissRight.members;
      && Gap(ms[0], vs[0]) == 0.00001 && Gap(ms[0], vs[1]) == 0.000002
      && Gap(ms[1], vs[0]) == 0.00002 && Gap(ms[1], vs[1]) == 0.000008
      && Gap(vs[0], ms[0]) == 0.00001 && Gap(vs[1], ms[0]) == 0.000002
      && Gap(vs[0], ms[1]) == 0.00002 && Gap(vs[1], ms[1]) == 0.000008
  {
  }

  /** The greedy choice can miss a pairing: the first member takes the nearer of its two
      fits, which is the only fit of the second member. */
  lemma GreedyCanMissPairing()
    ensures Perfect(MissLeft.members, MissRight.members, [0, 1]) && Match(MissLeft, MissRight).None?
  {
    var ms, vs := MissLeft.members, MissRight.members;
    MissGaps();
    assert Best(ms[0], vs, [], 1) == Some(0) && Best(ms[0], vs, [], 2) == Some(1);
    assert Greedy(ms, vs, 0) == Some([]);
    assert Greedy(ms, vs, 1) == Some([1]) by {
      assert [] + [1] == [1];
    }
    assert Best(ms[1], vs, [1], 1) == Some(0) && Best(ms[1], vs, [1], 2) == Some(0);
    assert Greedy(ms, vs, 2) == None;
  }

  /** The other way round the same pairing is found: the first member has only one fit. */
  lemma ReverseFindsPairing()
    ensures Match(MissRight, MissLeft) == Some([0, 1])
  {
    var ms, vs := MissRight.members, MissLeft.members;
    MissGaps();
    forall i, j | 0 <= i < |ms| && 0 <= j < |vs| && Alike(ms[i], vs[j]) && j !in [0, 1][..i]
      ensures NearerOrFirst(ms[i], vs, [0, 1][i], j)
    {
      assert i == 1 ==> [0, 1][..i] == [0];
    }
    MatchIff(MissRight, MissLeft, [0, 1]);
  }

  method MatchCorridorMembers(l: Corridor, r: Corridor) returns (matches: Option<seq<nat>>)
    ensures matches == Match(l, r)
  {
    if |l.members| != |r.members| {
      return None;
    }
    var found: seq<nat> := [];
    for i := 0 to |l.members|
      invariant Greedy(l.members, r.members, i) == Some(found)
    {
      var m := l.members[i];
      var best: Option<nat> := None;
      for j := 0 to |r.members|
        invariant best == Best(m, r.members, found, j)
      {
        if j !in found && Alike(m, r.members[j]) &&
           (best.None? || Gap(m, r.members[j]) < Gap(m, r.members[best.value])) {
          best := Some(j);
        }
      }
      if best.None? || Gap(m, r.members[best.value]) > POSITION_EPSILON {
        GreedyFailsOnward(l.members, r.members, i + 1, |l.members|);
        return None;
      }
      found := found + [best.value];
    }
    return Some(found);
  }

  lemma {:induction false} GreedyFailsOnward(ms: seq<Member>, vs: seq<Member>, i: nat, n: nat)
    requires i <= n <= |ms| && Greedy(ms, vs, i).None?
    ensures Greedy(ms, vs, n).None?
  {
    if i < n {
      GreedyFailsOnward(ms, vs, i, n - 1);
    }
  }

  // ----- absorbing one corridor into another -----

  // The smallest range around both.
  function Hull(m: Member, v: Member): Member {
    m.(start := MinReal(m.start, v.start), end := MaxReal(m.end, v.end),
       startSegment := if m.startSegment <= v.startSegment then m.startSegment else v.startSegment,
       endSegment := if m.endSegment <= v.endSegment then v.endSegment else m.endSegment)
  }

  function Hulls(ms: seq<Member>, vs: seq<Member>, matches: seq<nat>): seq<Member>
    requires |matches| == |ms| && forall i | 0 <= i < |ms| :: matches[i] < |vs|
  {
    seq(|ms|, i requires 0 <= i < |ms| => Hull(ms[i], vs[matches[i]]))
  }

  // Two polylines end to end, a shared joint taken once.
  function Joined(t: Tests, g: seq<Point>, h: seq<Point>): seq<Point> {
    if g != [] && h != [] && Coincide(t, g[|g| - 1], h[0]) then g + h[1..] else g + h
  }

  // The source drops the second polyline's first point when appending, the first one's
  // last point when prepending.
  function JoinedBefore(t: Tests, h: seq<Point>, g: seq<Point>): seq<Point> {
    if h != [] && g != [] && Coincide(t, h[|h| - 1], g[0]) then h[..|h| - 1] + g else h + g
  }

  function Absorbed(t: Tests, l: Corridor, r: Corridor, append: bool, matches: seq<nat>): Corridor
    requires |matches| == |l.members| && forall i | 0 <= i < |matches| :: matches[i] < |r.members|
  {
    Corridor(
      if append then l.start else r.start,
      if append then r.end else l.end,
      l.length + r.length,
      if append then Joined(t, l.geometry, r.geometry) else JoinedBefore(t, r.geometry, l.geometry),
      Hulls(l.members, r.members, matches))
  }

  /** The hull of two touching ranges is the two ranges and at most a gap of the allowed
      width between them. */
  lemma HullOfTouching(m: Member, v: Member, x: real)
    requires m.start <= m.end && v.start <= v.end && Fits(m, v)
    requires Hull(m, v).start <= x <= Hull(m, v).end
    ensures m.start <= x <= m.end || v.start <= x <= v.end
            || (m.end <= x <= v.start && v.start - m.end <= POSITION_EPSILON)
            || (v.end <= x <= m.start && m.start - v.end <= POSITION_EPSILON)
    ensures Hull(m, v).end - Hull(m, v).start <= (m.end - m.start) + (v.end - v.start) + POSITION_EPSILON
    ensures Hull(m, v).start <= m.start && m.end <= Hull(m, v).end
    ensures Hull(m, v).start <= v.start && v.end <= Hull(m, v).end
  {
  }

  method AbsorbCorridor(t: Tests, l: Corridor, r: Corridor, append: bool, matches: seq<nat>) returns (c: Corridor)
    requires |matches| == |l.members| && forall i | 0 <= i < |matches| :: matches[i] < |r.members|
    ensures c == Absorbed(t, l, r, append, matches)
  {
    c := l;
    if append {
      c := c.(end := r.end);
      if r.geometry != [] {
        var first := if c.geometry != [] && Coincide(t, c.geometry[|c.geometry| - 1], r.geometry[0]) then 1 else 0;
        c := c.(geometry := c.geometry + r.geometry[first..]);
      }
    } else {
      c := c.(start := r.start);
      var geometry := r.geometry;
      if geometry != [] && c.geometry != [] && Coincide(t, geometry[|geometry| - 1], c.geometry[0]) {
        geometry := geometry[..|geometry| - 1];
      }
      c := c.(geometry := geometry + c.geometry);
    }
    c := c.(length := c.length + r.length);
    for i := 0 to |l.members|
      invariant c == Absorbed(t, l, r, append, matches).(members := c.members) && |c.members| == |l.members|
      invariant forall k | 0 <= k < |l.members| ::
        c.members[k] == if k < i then Hull(l.members[k], r.members[matches[k]]) else l.members[k]
    {
      c := c.(members := c.members[i := Hull(c.members[i], r.members[matches[i]])]);
    }
    assert c.members == Hulls(l.members, r.members, matches);
  }

  // ----- merging until nothing fits -----

  predicate Appends(t: Tests, l: Corridor, r: Corridor) {
    Touch(t, l.end, r.start)
  }

  predicate Prepends(t: Tests, l: Corridor, r: Corridor) {
    Touch(t, l.start, r.end)
  }

  /** `r` continues `l` at one end, with members that all pair up. */
  predicate Mergeable(t: Tests, l: Corridor, r: Corridor) {
    (Appends(t, l, r) || Prepends(t, l, r)) && Match(l, r).Some?
  }

  function Merge(t: Tests, l: Corridor, r: Corridor): Corridor
    requires Mergeable(t, l, r)
  {
    MatchIsBijection(l, r);
    Absorbed(t, l, r, Appends(t, l, r), Match(l, r).value)
  }

  // The first mergeable pair in loop order from `(i, j)` on.
  function FirstFrom(t: Tests, cs: seq<Corridor>, i: nat, j: nat): (r: Option<(nat, nat)>)
    requires i < j
    ensures r.Some? ==> r.value.0 < r.value.1 < |cs| && Mergeable(t, cs[r.value.0], cs[r.value.1])
    decreases |cs| - i, |cs| - j
  {
    if i >= |cs| then None
    else if j >= |cs| then FirstFrom(t, cs, i + 1, i + 2)
    else if Mergeable(t, cs[i], cs[j]) then Some((i, j))
    else FirstFrom(t, cs, i, j + 1)
  }

  lemma {:induction false} NoneMergeable(t: Tests, cs: seq<Corridor>, i: nat, j: nat, x: nat, y: nat)
    requires i < j && FirstFrom(t, cs, i, j).None? && x < y < |cs|
    requires i < x || (i == x && j <= y)
    ensures !Mergeable(t, cs[x], cs[y])
    decreases |cs| - i, |cs| - j
  {
    if j >= |cs| {
      NoneMergeable(t, cs, i + 1, i + 2, x, y);
    } else if (i, j) != (x, y) {
      NoneMergeable(t, cs, i, j + 1, x, y);
    }
  }

  // `v` in place of the element at `i`, and the one at `j` removed.
  function Spliced<T>(s: seq<T>, i: nat, j: nat, v: T): (r: seq<T>)
    requires i < j < |s|
    ensures |r| == |s| - 1
    ensures forall k | 0 <= k < |r| :: r[k] == if k == i then v else if k < j then s[k] else s[k + 1]
  {
    s[..i] + [v] + s[i + 1..j] + s[j + 1..]
  }

  lemma ErasedIsSpliced<T>(s: seq<T>, i: nat, j: nat, v: T)
    requires i < j < |s|
    ensures s[i := v][..j] + s[j + 1..] == Spliced(s, i, j, v)
  {
  }

  function Inside<T>(front: seq<T>, v: T, mid: seq<T>, more: seq<T>, back: seq<T>): seq<T> {
    front + [v] + mid + more + back
  }

  lemma SplicedParts<T>(s: seq<T>, i: nat, j: nat, v: T)
    requires i < j < |s|
    ensures s == Inside(s[..i], s[i], s[i + 1..j], [s[j]], s[j + 1..])
    ensures Spliced(s, i, j, v) == Inside(s[..i], v, s[i + 1..j], [], s[j + 1..])
  {
  }

  // The pair `(i, j)` merged in place of `i`, and `j` removed.
  function Step(t: Tests, cs: seq<Corridor>, i: nat, j: nat): seq<Corridor>
    requires i < j < |cs| && Mergeable(t, cs[i], cs[j])
  {
    Spliced(cs, i, j, Merge(t, cs[i], cs[j]))
  }

  function Consolidated(t: Tests, cs: seq<Corridor>): seq<Corridor>
    decreases |cs|
  {
    var pair := FirstFrom(t, cs, 0, 1);
    if pair.None? then cs else Consolidated(t, Step(t, cs, pair.value.0, pair.value.1))
  }

  /** The merge loop ends and computes the consolidated list. */
  method ConsolidateAdjacentCorridors(t: Tests, corridors: seq<Corridor>) returns (cs: seq<Corridor>)
    ensures cs == Consolidated(t, corridors)
  {
    cs := corridors;
    var changed := true;
    while changed
      invariant Consolidated(t, cs) == Consolidated(t, corridors)
      invariant !changed ==> FirstFrom(t, cs, 0, 1).None?
      decreases |cs|, changed
    {
      cs, changed := MergeFirst(t, cs);
    }
  }

  // The merged corridor, if `r` continues `l` at one end and all members match.
  method TryMerge(t: Tests, l: Corridor, r: Corridor) returns (merged: Option<Corridor>)
    ensures merged == if Mergeable(t, l, r) then Some(Merge(t, l, r)) else None
  {
    var append := Touch(t, l.end, r.start);
    var prepend := Touch(t, l.start, r.end);
    if !append && !prepend {
      return None;
    }
    var matches := MatchCorridorMembers(l, r);
    if matches.None? {
      return None;
    }
    MatchIsBijection(l, r);
    var c := AbsorbCorridor(t, l, r, append, matches.value);
    return Some(c);
  }

  // One sweep: merges the first mergeable pair, if any.
  method MergeFirst(t: Tests, before: seq<Corridor>) returns (cs: seq<Corridor>, changed: bool)
    ensures var pair := FirstFrom(t, before, 0, 1);
      && changed == pair.Some?
      && cs == if changed then Step(t, before, pair.value.0, pair.value.1) else before
  {
    cs, changed := before, false;
    var i := 0;
    while i < |before|
      invariant i <= |before| && FirstFrom(t, before, 0, 1) == FirstFrom(t, before, i, i + 1)
    {
      for j := i + 1 to |before|
        invariant FirstFrom(t, before, 0, 1) == FirstFrom(t, before, i, j)
      {
        var merged := TryMerge(t, before[i], before[j]);
        if merged.None? {
          continue;
        }
        cs := before[i := merged.value][..j] + before[j + 1..];
        ErasedIsSpliced(before, i, j, merged.value);
        return cs, true;
      }
      i := i + 1;
    }
  }

  // ----- what merging keeps -----

  /** How a merged corridor was put together from the original list. */
  datatype Tree = Leaf(index: nat) | Join(left: Tree, right: Tree)

  ghost predicate Sound(t: Tests, cs: seq<Corridor>, tree: Tree) {
    match tree
    case Leaf(i) => i < |cs|
    case Join(l, r) => Sound(t, cs, l) && Sound(t, cs, r) && Mergeable(t, Value(t, cs, l), Value(t, cs, r))
  }

  // The corridor a tree stands for; `Sound` says every join was a legal merge.
  ghost function Value(t: Tests, cs: seq<Corridor>, tree: Tree): Corridor {
    match tree
    case Leaf(i) => if i < |cs| then cs[i] else Blank
    case Join(l, r) =>
      var x, y := Value(t, cs, l), Value(t, cs, r);
      if Mergeable(t, x, y) then Merge(t, x, y) else Blank
  }

  const Blank := Corridor(Point(0.0, 0.0, 0.0), Point(0.0, 0.0, 0.0), 0.0, [], [])

  // How often the original `x` occurs in the tree.
  ghost function Uses(tree: Tree, x: nat): nat {
    match tree
    case Leaf(i) => if i == x then 1 else 0
    case Join(l, r) => Uses(l, x) + Uses(r, x)
  }

  ghost function AllUses(trees: seq<Tree>, x: nat): nat {
    if trees == [] then 0 else AllUses(trees[..|trees| - 1], x) + Uses(trees[|trees| - 1], x)
  }

  /** Each of `cs` was put together by legal merges from `original`, and together they use
      every original exactly once. */
  ghost predicate Assembled(t: Tests, original: seq<Corridor>, cs: seq<Corridor>, trees: seq<Tree>) {
    && |trees| == |cs|
    && (forall k | 0 <= k < |cs| :: Sound(t, original, trees[k]) && cs[k] == Value(t, original, trees[k]))
    && forall x | 0 <= x < |original| :: AllUses(trees, x) == 1
  }

  lemma {:induction false} UsesAppend(p: seq<Tree>, q: seq<Tree>, x: nat)
    ensures AllUses(p + q, x) == AllUses(p, x) + AllUses(q, x)
  {
    if q == [] {
      assert p + q == p;
    } else {
      UsesAppend(p, q[..|q| - 1], x);
      assert (p + q)[..|p + q| - 1] == p + q[..|q| - 1];
    }
  }

  ghost function StepTrees(trees: seq<Tree>, i: nat, j: nat): seq<Tree>
    requires i < j < |trees|
  {
    Spliced(trees, i, j, Join(trees[i], trees[j]))
  }

  lemma StepKeepsUses(trees: seq<Tree>, i: nat, j: nat, x: nat)
    requires i < j < |trees|
    ensures AllUses(StepTrees(trees, i, j), x) == AllUses(trees, x)
  {
    var front, mid, back, join := trees[..i], trees[i + 1..j], trees[j + 1..], Join(trees[i], trees[j]);
    SplicedParts(trees, i, j, join);
    UsesInside(front, join, mid, [], back, x);
    UsesInside(front, trees[i], mid, [trees[j]], back, x);
    UsesOne(trees[j], x);
  }

  lemma UsesInside(front: seq<Tree>, tree: Tree, mid: seq<Tree>, more: seq<Tree>, back: seq<Tree>, x: nat)
    ensures AllUses(Inside(front, tree, mid, more, back), x)
         == AllUses(front, x) + Uses(tree, x) + AllUses(mid, x) + AllUses(more, x) + AllUses(back, x)
  {
    UsesAppend(front + [tree] + mid + more, back, x);
    UsesAppend(front + [tree] + mid, more, x);
    UsesAppend(front + [tree], mid, x);
    UsesAppend(front, [tree], x);
    UsesOne(tree, x);
  }

  lemma UsesOne(tree: Tree, x: nat)
    ensures AllUses([tree], x) == Uses(tree, x)
  {
    assert [tree][..0] == [];
  }

  lemma StepAssembles(t: Tests, original: seq<Corridor>, cs: seq<Corridor>, trees: seq<Tree>, i: nat, j: nat)
    requires Assembled(t, original, cs, trees) && i < j < |cs| && Mergeable(t, cs[i], cs[j])
    ensures Assembled(t, original, Step(t, cs, i, j), StepTrees(trees, i, j))
  {
    var next, more := Step(t, cs, i, j), StepTrees(trees, i, j);
    forall k | 0 <= k < |next| ensures Sound(t, original, more[k]) && next[k] == Value(t, original, more[k]) {
      if k == i {
        JoinIsSound(t, original, cs[i], cs[j], trees[i], trees[j]);
      } else {
        StepKeepsOther(t, cs, trees, i, j, k);
      }
    }
    forall x | 0 <= x < |original| ensures AllUses(more, x) == 1 {
      StepKeepsUses(trees, i, j, x);
    }
  }

  lemma StepKeepsOther(t: Tests, cs: seq<Corridor>, trees: seq<Tree>, i: nat, j: nat, k: nat)
    requires |trees| == |cs| && i < j < |cs| && Mergeable(t, cs[i], cs[j]) && k < |cs| - 1 && k != i
    ensures var was := if k < j then k else k + 1;
      Step(t, cs, i, j)[k] == cs[was] && StepTrees(trees, i, j)[k] == trees[was]
  {
  }

  lemma JoinIsSound(t: Tests, original: seq<Corridor>, c: Corridor, d: Corridor, x: Tree, y: Tree)
    requires Sound(t, original, x) && Sound(t, original, y)
    requires c == Value(t, original, x) && d == Value(t, original, y) && Mergeable(t, c, d)
    ensures Sound(t, original, Join(x, y)) && Value(t, original, Join(x, y)) == Merge(t, c, d)
  {
  }

  lemma {:induction false} ConsolidatedAssembles(t: Tests, original: seq<Corridor>, cs: seq<Corridor>, trees: seq<Tree>)
    returns (final: seq<Tree>)
    requires Assembled(t, original, cs, trees)
    ensures Assembled(t, original, Consolidated(t, cs), final)
    decreases |cs|
  {
    var pair := FirstFrom(t, cs, 0, 1);
    if pair.None? {
      final := trees;
    } else {
      var (i, j) := pair.value;
      StepAssembles(t, original, cs, trees, i, j);
      final := ConsolidatedAssembles(t, original, Step(t, cs, i, j), StepTrees(trees, i, j));
    }
  }

  ghost function SingleLeaves(n: nat): (trees: seq<Tree>)
    ensures |trees| == n && forall k | 0 <= k < n :: trees[k] == Leaf(k)
  {
    seq(n, (k: nat) => Leaf(k))
  }

  lemma {:induction false} SingleUses(n: nat, x: nat)
    ensures AllUses(SingleLeaves(n), x) == if x < n then 1 else 0
  {
    if n > 0 {
      SingleUses(n - 1, x);
      assert SingleLeaves(n)[..n - 1] == SingleLeaves(n - 1);
    }
  }

  /** Merging rearranges and loses nothing: every result was put together by legal merges
      and every original corridor went into exactly one of them. */
  lemma EveryPieceUsedOnce(t: Tests, cs: seq<Corridor>) returns (trees: seq<Tree>)
    ensures Assembled(t, cs, Consolidated(t, cs), trees)
  {
    forall x | 0 <= x < |cs| ensures AllUses(SingleLeaves(|cs|), x) == 1 {
      SingleUses(|cs|, x);
    }
    trees := ConsolidatedAssembles(t, cs, cs, SingleLeaves(|cs|));
  }

  /** Nothing mergeable is left. */
  lemma {:induction false} NothingLeftToMerge(t: Tests, cs: seq<Corridor>, x: nat, y: nat)
    requires x < y < |Consolidated(t, cs)|
    ensures !Mergeable(t, Consolidated(t, cs)[x], Consolidated(t, cs)[y])
    decreases |cs|
  {
    var pair := FirstFrom(t, cs, 0, 1);
    if pair.None? {
      NoneMergeable(t, cs, 0, 1, x, y);
    } else {
      NothingLeftToMerge(t, Step(t, cs, pair.value.0, pair.value.1), x, y);
    }
  }

  ghost predicate Symmetric(t: Tests) {
    forall p, q :: Touch(t, p, q) == Touch(t, q, p)
  }

  // Some end of one touches the matching end of the other.
  predicate EndToEnd(t: Tests, c: Corridor, d: Corridor) {
    Appends(t, c, d) || Prepends(t, c, d)
  }

  ghost predicate Pairs(c: Corridor, d: Corridor) {
    exists matches :: Perfect(c.members, d.members, matches) && NearestFirst(c.members, d.members, matches)
  }

  /** What is left could still be merged only taken the other way round: two that lie end to
      end, where the greedy pairing is perfect only from the later one's members. */
  lemma LeftOverIff(t: Tests, cs: seq<Corridor>, x: nat, y: nat)
    requires Symmetric(t) && x < y < |Consolidated(t, cs)|
    ensures var c, d := Consolidated(t, cs)[x], Consolidated(t, cs)[y];
      Mergeable(t, d, c) <==> EndToEnd(t, c, d) && Pairs(d, c) && !Pairs(c, d)
  {
    var c, d := Consolidated(t, cs)[x], Consolidated(t, cs)[y];
    NothingLeftToMerge(t, cs, x, y);
    PairingMissedIff(c, d);
    PairingMissedIff(d, c);
  }

  /** Two results can be left although they would merge the other way round. */
  lemma ReverseCanBeLeft(t: Tests)
    requires Touch(t, Near0, Near0)
    ensures var cs := [MissLeft, MissRight]; Consolidated(t, cs) == cs && Mergeable(t, cs[1], cs[0])
  {
    GreedyCanMissPairing();
    ReverseFindsPairing();
  }

  lemma InversePairing(ms: seq<Member>, vs: seq<Member>, matches: seq<nat>) returns (inverse: seq<nat>)
    requires Perfect(ms, vs, matches)
    ensures Perfect(vs, ms, inverse)
  {
    forall j | 0 <= j < |vs| ensures j in matches {
      Onto(matches, |vs|, j);
    }
    inverse := seq(|vs|, j requires 0 <= j < |vs| => PlaceOf(matches, j));
  }

  ghost function PlaceOf(matches: seq<nat>, j: nat): (i: nat)
    requires j in matches
    ensures i < |matches| && matches[i] == j
  {
    var i :| 0 <= i < |matches| && matches[i] == j;
    i
  }

  /** When nobody fits two members on either side, nothing is left that could be merged in
      either order. */
  lemma NothingLeftEitherWay(t: Tests, cs: seq<Corridor>, x: nat, y: nat)
    requires Symmetric(t) && x < y < |Consolidated(t, cs)|
    requires var c, d := Consolidated(t, cs)[x], Consolidated(t, cs)[y];
      Unambiguous(c.members, d.members) && Unambiguous(d.members, c.members)
    ensures var c, d := Consolidated(t, cs)[x], Consolidated(t, cs)[y]; !Mergeable(t, c, d) && !Mergeable(t, d, c)
  {
    var c, d := Consolidated(t, cs)[x], Consolidated(t, cs)[y];
    NothingLeftToMerge(t, cs, x, y);
    UnambiguousMatch(c, d);
    UnambiguousMatch(d, c);
    if matches :| Perfect(d.members, c.members, matches) {
      var inverse := InversePairing(d.members, c.members, matches);
    }
  }

  // ----- what a merged range is made of -----

  // The passages of the originals that make up passage `i`, in the order of the leaves.
  ghost function Pieces(t: Tests, cs: seq<Corridor>, tree: Tree, i: nat): seq<Member>
    requires Sound(t, cs, tree) && i < |Value(t, cs, tree).members|
  {
    match tree
    case Leaf(x) => [cs[x].members[i]]
    case Join(l, r) =>
      MatchIsBijection(Value(t, cs, l), Value(t, cs, r));
      Pieces(t, cs, l, i) + Pieces(t, cs, r, Match(Value(t, cs, l), Value(t, cs, r)).value[i])
  }

  ghost function Leaves(tree: Tree): seq<nat> {
    match tree
    case Leaf(x) => [x]
    case Join(l, r) => Leaves(l) + Leaves(r)
  }

  ghost function RangeSum(ps: seq<Member>): real {
    if ps == [] then 0.0 else RangeSum(ps[..|ps| - 1]) + (ps[|ps| - 1].end - ps[|ps| - 1].start)
  }

  lemma {:induction false} RangeSumAppend(p: seq<Member>, q: seq<Member>)
    ensures RangeSum(p + q) == RangeSum(p) + RangeSum(q)
  {
    if q == [] {
      assert p + q == p;
    } else {
      RangeSumAppend(p, q[..|q| - 1]);
      assert (p + q)[..|p + q| - 1] == p + q[..|q| - 1];
    }
  }

  ghost predicate WellOrdered(cs: seq<Corridor>) {
    forall c <- cs :: forall m <- c.members :: m.start <= m.end
  }

  predicate Covers(m: Member, v: Member) {
    Alike(m, v) && m.start <= v.start && v.end <= m.end
  }

  // Within the allowed gap of the piece.
  predicate Close(p: Member, x: real) {
    p.start - POSITION_EPSILON <= x <= p.end + POSITION_EPSILON
  }

  ghost predicate Reached(ps: seq<Member>, x: real) {
    exists k :: 0 <= k < |ps| && Close(ps[k], x)
  }

  ghost predicate Within(m: Member, ps: seq<Member>) {
    forall k | 0 <= k < |ps| :: ps[k].start <= ps[k].end && Covers(m, ps[k])
  }

  // Some piece starts where the passage starts and some piece ends where it ends.
  ghost predicate SameEnds(m: Member, ps: seq<Member>) {
    && (exists k :: 0 <= k < |ps| && ps[k].start == m.start)
    && (exists k :: 0 <= k < |ps| && ps[k].end == m.end)
  }

  ghost predicate NoWideGap(m: Member, ps: seq<Member>) {
    forall x: real :: m.start <= x <= m.end ==> Reached(ps, x)
  }

  /** `m` is the hull of the pieces, which leave at most a gap of the allowed width between
      neighbours. */
  ghost predicate MadeOf(m: Member, ps: seq<Member>) {
    && Within(m, ps) && SameEnds(m, ps) && NoWideGap(m, ps)
    && m.end - m.start <= RangeSum(ps) + POSITION_EPSILON * (|ps| - 1) as real
  }

  lemma HullIsMadeOf(m: Member, v: Member, ps: seq<Member>, qs: seq<Member>)
    requires MadeOf(m, ps) && MadeOf(v, qs) && m.start <= m.end && v.start <= v.end && Fits(m, v)
    ensures MadeOf(Hull(m, v), ps + qs)
  {
    HullWithin(m, v, ps, qs);
    HullEnds(m, v, ps, qs);
    HullNoWideGap(m, v, ps, qs);
    RangeSumAppend(ps, qs);
    GapsAdd(|ps|, |qs|);
    HullLength(m, v);
  }

  lemma GapsAdd(a: nat, b: nat)
    ensures POSITION_EPSILON * (a - 1) as real + POSITION_EPSILON * (b - 1) as real + POSITION_EPSILON
         == POSITION_EPSILON * (a + b - 1) as real
  {
  }

  lemma HullLength(m: Member, v: Member)
    requires m.start <= m.end && v.start <= v.end && Fits(m, v)
    ensures var h := Hull(m, v); h.end - h.start <= (m.end - m.start) + (v.end - v.start) + POSITION_EPSILON
  {
  }

  lemma HullWithin(m: Member, v: Member, ps: seq<Member>, qs: seq<Member>)
    requires Within(m, ps) && Within(v, qs) && Alike(m, v)
    ensures Within(Hull(m, v), ps + qs)
  {
    forall k | 0 <= k < |ps + qs|
      ensures (ps + qs)[k].start <= (ps + qs)[k].end && Covers(Hull(m, v), (ps + qs)[k])
    {
      if k < |ps| {
        assert Covers(m, ps[k]);
      } else {
        assert Covers(v, qs[k - |ps|]);
      }
    }
  }

  lemma HullEnds(m: Member, v: Member, ps: seq<Member>, qs: seq<Member>)
    requires SameEnds(m, ps) && SameEnds(v, qs)
    ensures SameEnds(Hull(m, v), ps + qs)
  {
    var a :| 0 <= a < |ps| && ps[a].start == m.start;
    var b :| 0 <= b < |ps| && ps[b].end == m.end;
    var c :| 0 <= c < |qs| && qs[c].start == v.start;
    var d :| 0 <= d < |qs| && qs[d].end == v.end;
    assert (ps + qs)[a] == ps[a] && (ps + qs)[b] == ps[b];
    assert (ps + qs)[|ps| + c] == qs[c] && (ps + qs)[|ps| + d] == qs[d];
  }

  lemma HullNoWideGap(m: Member, v: Member, ps: seq<Member>, qs: seq<Member>)
    requires MadeOf(m, ps) && MadeOf(v, qs) && m.start <= m.end && v.start <= v.end && Fits(m, v)
    ensures NoWideGap(Hull(m, v), ps + qs)
  {
    var b :| 0 <= b < |ps| && ps[b].end == m.end;
    var d :| 0 <= d < |qs| && qs[d].end == v.end;
    forall x: real | Hull(m, v).start <= x <= Hull(m, v).end ensures Reached(ps + qs, x) {
      if m.start <= x <= m.end {
        ReachedInEither(ps, qs, x);
      } else if v.start <= x <= v.end {
        ReachedInEither(ps, qs, x);
      } else if m.end <= x {
        assert Close(ps[b], x);
        ReachedInEither(ps, qs, x);
      } else {
        assert Close(qs[d], x);
        ReachedInEither(ps, qs, x);
      }
    }
  }

  lemma ReachedInEither(ps: seq<Member>, qs: seq<Member>, x: real)
    requires Reached(ps, x) || Reached(qs, x)
    ensures Reached(ps + qs, x)
  {
    if Reached(ps, x) {
      var k :| 0 <= k < |ps| && Close(ps[k], x);
      assert (ps + qs)[k] == ps[k];
    } else {
      var k :| 0 <= k < |qs| && Close(qs[k], x);
      assert (ps + qs)[|ps| + k] == qs[k];
    }
  }

  /** Every passage of a result is the hull of one passage from each corridor that went into
      it, of the same line and direction, with no more added than an allowed gap at every
      joint. */
  lemma {:induction false} PassagesMadeOfPieces(t: Tests, original: seq<Corridor>, tree: Tree, i: nat)
    requires Sound(t, original, tree) && WellOrdered(original) && i < |Value(t, original, tree).members|
    ensures var m := Value(t, original, tree).members[i]; m.start <= m.end && MadeOf(m, Pieces(t, original, tree, i))
    ensures OnePerLeaf(original, Pieces(t, original, tree, i), Leaves(tree))
  {
    match tree
    case Leaf(x) =>
      SinglePiece(original[x].members[i]);
    case Join(l, r) =>
      var lv, rv := Value(t, original, l), Value(t, original, r);
      MatchIsBijection(lv, rv);
      var j := Match(lv, rv).value[i];
      PassagesMadeOfPieces(t, original, l, i);
      PassagesMadeOfPieces(t, original, r, j);
      var ps, qs := Pieces(t, original, l, i), Pieces(t, original, r, j);
      HullIsMadeOf(lv.members[i], rv.members[j], ps, qs);
      LeavesJoin(original, ps, Leaves(l), qs, Leaves(r));
  }

  // One passage from each corridor that went into the tree.
  ghost predicate OnePerLeaf(original: seq<Corridor>, ps: seq<Member>, leaves: seq<nat>) {
    && |ps| == |leaves|
    && forall k | 0 <= k < |ps| :: leaves[k] < |original| && ps[k] in original[leaves[k]].members
  }

  lemma LeavesJoin(original: seq<Corridor>, ps: seq<Member>, ls: seq<nat>, qs: seq<Member>, rs: seq<nat>)
    requires OnePerLeaf(original, ps, ls) && OnePerLeaf(original, qs, rs)
    ensures OnePerLeaf(original, ps + qs, ls + rs)
  {
  }

  lemma SinglePiece(m: Member)
    requires m.start <= m.end
    ensures MadeOf(m, [m])
  {
    assert [m][..0] == [];
    assert [m][0] == m;
    forall x: real | m.start <= x <= m.end ensures Reached([m], x) {
      assert Close([m][0], x);
    }
  }

  lemma {:induction false} LeavesAreUses(tree: Tree, x: nat)
    ensures x in Leaves(tree) <==> Uses(tree, x) > 0
  {
    match tree
    case Leaf(_) =>
    case Join(l, r) =>
      LeavesAreUses(l, x);
      LeavesAreUses(r, x);
  }

  /** Every passage of a merged corridor covers a passage of each corridor that went into
      it, of the same line in the same direction. */
  lemma {:induction false} MembersCovered(t: Tests, original: seq<Corridor>, tree: Tree, x: nat, i: nat)
    requires Sound(t, original, tree) && x < |original| && Uses(tree, x) > 0
    requires i < |Value(t, original, tree).members|
    ensures |original[x].members| == |Value(t, original, tree).members|
    ensures exists j :: 0 <= j < |original[x].members|
                        && Covers(Value(t, original, tree).members[i], original[x].members[j])
  {
    match tree
    case Leaf(_) =>
      assert Covers(original[x].members[i], original[x].members[i]);
    case Join(l, r) =>
      var lv, rv := Value(t, original, l), Value(t, original, r);
      MatchIsBijection(lv, rv);
      var k := if Uses(l, x) > 0 then i else Match(lv, rv).value[i];
      var part := if Uses(l, x) > 0 then lv else rv;
      MembersCovered(t, original, if Uses(l, x) > 0 then l else r, x, k);
      var j :| 0 <= j < |original[x].members| && Covers(part.members[k], original[x].members[j]);
      assert Covers(Merge(t, lv, rv).members[i], original[x].members[j]);
  }

  /** The geometry runs from the corridor's start to its end. */
  predicate WellDrawn(c: Corridor) {
    |c.geometry| >= 2 && c.geometry[0] == c.start && c.geometry[|c.geometry| - 1] == c.end
  }

  lemma MergeIsWellDrawn(t: Tests, l: Corridor, r: Corridor)
    requires Mergeable(t, l, r) && WellDrawn(l) && WellDrawn(r)
    ensures WellDrawn(Merge(t, l, r))
  {
  }

  ghost predicate AllWellDrawn(cs: seq<Corridor>) {
    forall n | 0 <= n < |cs| :: WellDrawn(cs[n])
  }

  lemma StepWellDrawn(t: Tests, cs: seq<Corridor>, i: nat, j: nat)
    requires i < j < |cs| && Mergeable(t, cs[i], cs[j]) && AllWellDrawn(cs)
    ensures AllWellDrawn(Step(t, cs, i, j))
  {
    var merged := Merge(t, cs[i], cs[j]);
    MergeIsWellDrawn(t, cs[i], cs[j]);
    forall n | 0 <= n < |cs| - 1 ensures WellDrawn(Spliced(cs, i, j, merged)[n]) {
    }
  }

  /** Merging keeps every corridor drawn from its start to its end. */
  lemma {:induction false} ConsolidatedWellDrawn(t: Tests, cs: seq<Corridor>, k: nat)
    requires k < |Consolidated(t, cs)| && AllWellDrawn(cs)
    ensures WellDrawn(Consolidated(t, cs)[k])
    decreases |cs|
  {
    var pair := FirstFrom(t, cs, 0, 1);
    if pair.Some? {
      var (i, j) := pair.value;
      StepWellDrawn(t, cs, i, j);
      ConsolidatedWellDrawn(t, Step(t, cs, i, j), k);
    }
  }

  function TotalLength(cs: seq<Corridor>): real {
    if cs == [] then 0.0 else TotalLength(cs[..|cs| - 1]) + cs[|cs| - 1].length
  }

  lemma {:induction false} TotalAppend(p: seq<Corridor>, q: seq<Corridor>)
    ensures TotalLength(p + q) == TotalLength(p) + TotalLength(q)
  {
    if q == [] {
      assert p + q == p;
    } else {
      TotalAppend(p, q[..|q| - 1]);
      assert (p + q)[..|p + q| - 1] == p + q[..|q| - 1];
    }
  }

  lemma StepKeepsTotal(t: Tests, cs: seq<Corridor>, i: nat, j: nat)
    requires i < j < |cs| && Mergeable(t, cs[i], cs[j])
    ensures TotalLength(Step(t, cs, i, j)) == TotalLength(cs)
  {
    var front, mid, back, merged := cs[..i], cs[i + 1..j], cs[j + 1..], Merge(t, cs[i], cs[j]);
    SplicedParts(cs, i, j, merged);
    TotalInside(front, merged, mid, [], back);
    TotalInside(front, cs[i], mid, [cs[j]], back);
    TotalOne(cs[j]);
  }

  lemma TotalInside(front: seq<Corridor>, c: Corridor, mid: seq<Corridor>, more: seq<Corridor>, back: seq<Corridor>)
    ensures TotalLength(Inside(front, c, mid, more, back))
         == TotalLength(front) + c.length + TotalLength(mid) + TotalLength(more) + TotalLength(back)
  {
    TotalAppend(front + [c] + mid + more, back);
    TotalAppend(front + [c] + mid, more);
    TotalAppend(front + [c], mid);
    TotalAppend(front, [c]);
    TotalOne(c);
  }

  lemma TotalOne(c: Corridor)
    ensures TotalLength([c]) == c.length
  {
    assert [c][..0] == [];
  }

  /** Merging conserves the total length. */
  lemma {:induction false} LengthConserved(t: Tests, cs: seq<Corridor>)
    ensures TotalLength(Consolidated(t, cs)) == TotalLength(cs)
    decreases |cs|
  {
    var pair := FirstFrom(t, cs, 0, 1);
    if pair.Some? {
      StepKeepsTotal(t, cs, pair.value.0, pair.value.1);
      LengthConserved(t, Step(t, cs, pair.value.0, pair.value.1));
    }
  }

  // ----- dropping short components -----

  // Any end of one is near any end of the other.
  predicate EndsNear(t: Tests, c: Corridor, d: Corridor) {
    || Touch(t, c.start, d.start) || Touch(t, c.start, d.end)
    || Touch(t, c.end, d.start) || Touch(t, c.end, d.end)
  }

  function Nearness(t: Tests, cs: seq<Corridor>): UnionFind.Nearness {
    (i: nat, j: nat) => i < |cs| && j < |cs| && EndsNear(t, cs[i], cs[j])
  }

  function Lengths(cs: seq<Corridor>): seq<real> {
    seq(|cs|, i requires 0 <= i < |cs| => cs[i].length)
  }

  /** A corridor survives exactly when its whole connected component is long enough, and
      survivors keep their order. */
  method FilterShortSharedComponents(t: Tests, cs: seq<Corridor>, minimum: real) returns (kept: seq<Corridor>)
    ensures kept == UnionFind.Survivors(cs, Nearness(t, cs), Lengths(cs), minimum, |cs|)
  {
    kept := UnionFind.FilterShort(cs, Lengths(cs), Nearness(t, cs), minimum);
  }
}
