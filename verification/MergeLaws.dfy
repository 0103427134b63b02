/** What consolidation and filtering of shared corridors do, on the fields of the corridors:
    ends, lengths, geometry and the members' ranges. */
module MergeLaws {
  import opened Basics
  import opened GridIndex
  import opened CorridorMerge
  import UF = UnionFind

  // ----- when two corridors merge -----

  function Between(x: real, y: real): real {
    if x < y then y - x else x - y
  }

  // How far the ranges are apart where one ends and the other starts.
  function Apart(m: Member, v: Member): real {
    if Between(m.end, v.start) < Between(v.end, m.start) then Between(m.end, v.start) else Between(v.end, m.start)
  }

  predicate SameWay(m: Member, v: Member) {
    m.lineId == v.lineId && m.sameDirection == v.sameDirection
  }

  // Every member has one of its own of the same line and direction, at most a
  // hundred-thousandth of a segment apart.
  ghost predicate AllFit(ms: seq<Member>, vs: seq<Member>, matches: seq<nat>) {
    && |matches| == |ms| == |vs|
    && (forall i, j | 0 <= i < j < |ms| :: matches[i] != matches[j])
    && (forall i | 0 <= i < |ms| :: matches[i] < |vs| && SameWay(ms[i], vs[matches[i]])
                                    && Apart(ms[i], vs[matches[i]]) <= 0.00001)
  }

  predicate ComesFirst(m: Member, vs: seq<Member>, b: nat, j: nat) {
    b < |vs| && j < |vs| && (Apart(m, vs[b]) < Apart(m, vs[j]) || (Apart(m, vs[b]) == Apart(m, vs[j]) && b <= j))
  }

  // It is the nearest that the members before left, the first of several.
  ghost predicate NearestLeft(ms: seq<Member>, vs: seq<Member>, matches: seq<nat>)
    requires |matches| == |ms|
  {
    forall i, j | 0 <= i < |ms| && 0 <= j < |vs| && SameWay(ms[i], vs[j]) && j !in matches[..i] ::
      ComesFirst(ms[i], vs, matches[i], j)
  }

  ghost predicate PairedUp(ms: seq<Member>, vs: seq<Member>, matches: seq<nat>) {
    AllFit(ms, vs, matches) && NearestLeft(ms, vs, matches)
  }

  lemma PairedUpIff(l: Corridor, r: Corridor, matches: seq<nat>)
    ensures Match(l, r) == Some(matches) <==> PairedUp(l.members, r.members, matches)
  {
    MatchIff(l, r, matches);
    AllFitIff(l.members, r.members, matches);
    if AllFit(l.members, r.members, matches) {
      NearestIff(l.members, r.members, matches);
    }
  }

  lemma SameGap(m: Member, v: Member)
    ensures Gap(m, v) == Apart(m, v) && (Alike(m, v) <==> SameWay(m, v))
  {
  }

  lemma AllFitIff(ms: seq<Member>, vs: seq<Member>, matches: seq<nat>)
    ensures Perfect(ms, vs, matches) <==> AllFit(ms, vs, matches)
  {
    forall i | 0 <= i < |ms| && |matches| == |ms| && matches[i] < |vs|
      ensures Fits(ms[i], vs[matches[i]])
              <==> SameWay(ms[i], vs[matches[i]]) && Apart(ms[i], vs[matches[i]]) <= 0.00001
    {
      SameGap(ms[i], vs[matches[i]]);
    }
  }

  lemma NearestIff(ms: seq<Member>, vs: seq<Member>, matches: seq<nat>)
    requires |matches| == |ms| && forall i | 0 <= i < |ms| :: matches[i] < |vs|
    ensures NearestFirst(ms, vs, matches) <==> NearestLeft(ms, vs, matches)
  {
    forall i, j | 0 <= i < |ms| && 0 <= j < |vs|
      ensures NearerOrFirst(ms[i], vs, matches[i], j) <==> ComesFirst(ms[i], vs, matches[i], j)
      ensures Alike(ms[i], vs[j]) <==> SameWay(ms[i], vs[j])
    {
      SameGap(ms[i], vs[j]);
      SameGap(ms[i], vs[matches[i]]);
    }
    if NearestFirst(ms, vs, matches) {
      forall i, j | 0 <= i < |ms| && 0 <= j < |vs| && SameWay(ms[i], vs[j]) && j !in matches[..i]
        ensures ComesFirst(ms[i], vs, matches[i], j)
      {
        assert NearestAt(ms[i], vs, matches[..i], matches[i]);
      }
    }
  }

  ghost predicate CanPair(c: Corridor, d: Corridor) {
    exists matches :: PairedUp(c.members, d.members, matches)
  }

  /** Exactly which corridors merge: two whose ends touch, the end of one with the start of the
      other, and whose members pair up. */
  lemma MergesIff(t: Tests, c: Corridor, d: Corridor)
    ensures Mergeable(t, c, d) <==> (t.touch(c.end, d.start) || t.touch(c.start, d.end)) && CanPair(c, d)
  {
    if Match(c, d).Some? {
      PairedUpIff(c, d, Match(c, d).value);
    }
    if matches :| PairedUp(c.members, d.members, matches) {
      PairedUpIff(c, d, matches);
    }
  }

  // ----- what they merge into -----

  // Two polylines end to end; a joint they share is taken once.
  predicate EndToEnd(t: Tests, g: seq<Point>, p: seq<Point>, q: seq<Point>) {
    || (p != [] && q != [] && t.coincide(p[|p| - 1], q[0])
        && |g| == |p| + |q| - 1 && g[..|p| - 1] == p[..|p| - 1] && g[|p|..] == q[1..]
        && (g[|p| - 1] == p[|p| - 1] || g[|p| - 1] == q[0]))
    || (!(p != [] && q != [] && t.coincide(p[|p| - 1], q[0])) && g == p + q)
  }

  predicate WidestOf(h: Member, m: Member, v: Member) {
    && h.lineId == m.lineId && h.sameDirection == m.sameDirection
    && h.start <= m.start && h.start <= v.start && (h.start == m.start || h.start == v.start)
    && h.end >= m.end && h.end >= v.end && (h.end == m.end || h.end == v.end)
    && h.startSegment <= m.startSegment && h.startSegment <= v.startSegment
    && (h.startSegment == m.startSegment || h.startSegment == v.startSegment)
    && h.endSegment >= m.endSegment && h.endSegment >= v.endSegment
    && (h.endSegment == m.endSegment || h.endSegment == v.endSegment)
  }

  // `e` is `c` followed by `d`.
  predicate Follows(t: Tests, e: Corridor, c: Corridor, d: Corridor) {
    e.start == c.start && e.end == d.end && EndToEnd(t, e.geometry, c.geometry, d.geometry)
  }

  /** What two corridors merge into: one after the other where they touch, their lengths added,
      and every member widened to cover the one it is paired with. */
  lemma MergedOnFields(t: Tests, c: Corridor, d: Corridor) returns (matches: seq<nat>)
    requires Mergeable(t, c, d)
    ensures PairedUp(c.members, d.members, matches)
    ensures var e := Merge(t, c, d);
      && (if t.touch(c.end, d.start) then Follows(t, e, c, d) else t.touch(c.start, d.end) && Follows(t, e, d, c))
      && e.length == c.length + d.length && |e.members| == |c.members|
      && forall i | 0 <= i < |e.members| :: WidestOf(e.members[i], c.members[i], d.members[matches[i]])
  {
    matches := Match(c, d).value;
    PairedUpIff(c, d, matches);
    assert t.touch(c.end, d.start) <==> Appends(t, c, d);
    assert t.touch(c.start, d.end) <==> Prepends(t, c, d);
    JoinedOnFields(t, c.geometry, d.geometry);
    JoinedOnFields(t, d.geometry, c.geometry);
  }

  lemma JoinedOnFields(t: Tests, p: seq<Point>, q: seq<Point>)
    ensures EndToEnd(t, Joined(t, p, q), p, q) && EndToEnd(t, JoinedBefore(t, p, q), p, q)
  {
    if p != [] && q != [] {
      assert Coincide(t, p[|p| - 1], q[0]) <==> t.coincide(p[|p| - 1], q[0]);
    }
  }

  // ----- the order of merging -----

  // No pair before `(i, j)` in loop order merges.
  ghost predicate NoneBefore(t: Tests, cs: seq<Corridor>, i: nat, j: nat) {
    forall x, y | 0 <= x < y < |cs| && (x < i || (x == i && y < j)) :: !Mergeable(t, cs[x], cs[y])
  }

  lemma {:induction false} FirstIs(t: Tests, cs: seq<Corridor>, x: nat, y: nat, i: nat, j: nat)
    requires x < y && i < j < |cs| && Mergeable(t, cs[i], cs[j]) && NoneBefore(t, cs, i, j)
    requires x < i || (x == i && y <= j)
    ensures FirstFrom(t, cs, x, y) == Some((i, j))
    decreases |cs| - x, |cs| - y
  {
    if y >= |cs| {
      FirstIs(t, cs, x + 1, x + 2, i, j);
    } else if (x, y) != (i, j) {
      FirstIs(t, cs, x, y + 1, i, j);
    }
  }

  /** Consolidation step by step: the first pair in loop order that merges is merged in the
      place of its first corridor, and the pass starts again on what is left. */
  lemma FirstPairMerges(t: Tests, cs: seq<Corridor>, i: nat, j: nat)
    requires i < j < |cs| && Mergeable(t, cs[i], cs[j]) && NoneBefore(t, cs, i, j)
    ensures Consolidated(t, cs)
         == Consolidated(t, cs[..i] + [Merge(t, cs[i], cs[j])] + cs[i + 1..j] + cs[j + 1..])
  {
    FirstIs(t, cs, 0, 1, i, j);
    StepReplaces(t, cs, i, j);
  }

  lemma StepReplaces(t: Tests, cs: seq<Corridor>, i: nat, j: nat)
    requires i < j < |cs| && Mergeable(t, cs[i], cs[j])
    ensures Step(t, cs, i, j) == cs[..i] + [Merge(t, cs[i], cs[j])] + cs[i + 1..j] + cs[j + 1..]
  {
  }

  /** It ends when no pair is left that merges. */
  lemma NoPairNoChange(t: Tests, cs: seq<Corridor>)
    requires NoneBefore(t, cs, |cs|, 0)
    ensures Consolidated(t, cs) == cs
  {
    assert FirstFrom(t, cs, 0, 1).None?;
  }

  // ----- the filter -----

  // Some end of one corridor touches some end of the other.
  predicate Adjoin(t: Tests, c: Corridor, d: Corridor) {
    t.touch(c.start, d.start) || t.touch(c.start, d.end) || t.touch(c.end, d.start) || t.touch(c.end, d.end)
  }

  // A chain of corridors from `u` to `v`, each adjoining the next; the test is asked of the
  // earlier corridor first.
  ghost predicate Chain(t: Tests, cs: seq<Corridor>, u: nat, v: nat, s: seq<nat>) {
    && s != [] && s[0] == u && s[|s| - 1] == v && (forall k | 0 <= k < |s| :: s[k] < |cs|)
    && forall k | 0 <= k < |s| - 1 :: Linked(t, cs, s[k], s[k + 1])
  }

  predicate Linked(t: Tests, cs: seq<Corridor>, u: nat, v: nat) {
    u < |cs| && v < |cs| && ((u < v && Adjoin(t, cs[u], cs[v])) || (v < u && Adjoin(t, cs[v], cs[u])))
  }

  ghost predicate Together(t: Tests, cs: seq<Corridor>, u: nat, v: nat) {
    exists s :: Chain(t, cs, u, v, s)
  }

  lemma TogetherIff(t: Tests, cs: seq<Corridor>, u: nat, v: nat)
    requires u < |cs| && v < |cs|
    ensures UF.Connected(Nearness(t, cs), |cs|, u, v) <==> Together(t, cs, u, v)
  {
    var near, n := Nearness(t, cs), |cs|;
    forall x: nat, y: nat | x < n && y < n ensures UF.Edge(near, n, n + 1, x, y) <==> Linked(t, cs, x, y) {
      EdgeIff(t, cs, x, y);
    }
    if s :| UF.IsPath(near, n, n, n + 1, s) && s[0] == u && s[|s| - 1] == v {
      assert Chain(t, cs, u, v, s);
    }
    if s :| Chain(t, cs, u, v, s) {
      assert UF.IsPath(near, n, n, n + 1, s);
    }
  }

  lemma EdgeIff(t: Tests, cs: seq<Corridor>, x: nat, y: nat)
    requires x < |cs| && y < |cs|
    ensures UF.Edge(Nearness(t, cs), |cs|, |cs| + 1, x, y) <==> Linked(t, cs, x, y)
  {
    assert UF.Near(Nearness(t, cs), x, y) == EndsNear(t, cs[x], cs[y]) == Adjoin(t, cs[x], cs[y]);
    assert UF.Near(Nearness(t, cs), y, x) == EndsNear(t, cs[y], cs[x]) == Adjoin(t, cs[y], cs[x]);
  }

  // The total length of the corridors below `m` that a chain joins to `u`.
  ghost function LengthAround(t: Tests, cs: seq<Corridor>, u: nat, m: nat): real
    requires m <= |cs|
  {
    if m == 0 then 0.0
    else LengthAround(t, cs, u, m - 1) + (if Together(t, cs, u, m - 1) then cs[m - 1].length else 0.0)
  }

  lemma {:induction false} LengthAroundIs(t: Tests, cs: seq<Corridor>, u: nat, m: nat)
    requires u < |cs| && m <= |cs|
    ensures UF.LengthBelow(Nearness(t, cs), Lengths(cs), u, m) == LengthAround(t, cs, u, m)
  {
    if m > 0 {
      LengthAroundIs(t, cs, u, m - 1);
      TogetherIff(t, cs, u, m - 1);
    }
  }

  // The places below `m` of the corridors whose surroundings are long enough.
  ghost function LongPlaces(t: Tests, cs: seq<Corridor>, minimum: real, m: nat): seq<nat>
    requires m <= |cs|
  {
    if m == 0 then []
    else
      var front := LongPlaces(t, cs, minimum, m - 1);
      if LengthAround(t, cs, m - 1, |cs|) + 0.0000001 >= minimum then front + [m - 1] else front
  }

  lemma {:induction false} LongPlacesAre(t: Tests, cs: seq<Corridor>, minimum: real, m: nat)
    requires m <= |cs|
    ensures var who := LongPlaces(t, cs, minimum, m);
      && (forall k, l | 0 <= k < l < |who| :: who[k] < who[l])
      && (forall n :: n in who <==> 0 <= n < m && LengthAround(t, cs, n, |cs|) + 0.0000001 >= minimum)
  {
    if m > 0 {
      LongPlacesAre(t, cs, minimum, m - 1);
      var front := LongPlaces(t, cs, minimum, m - 1);
      assert forall k | 0 <= k < |front| :: front[k] in front;
    }
  }

  lemma {:induction false} SurvivorsAtPlaces(t: Tests, cs: seq<Corridor>, minimum: real, m: nat)
    requires m <= |cs|
    ensures var who, kept := LongPlaces(t, cs, minimum, m), UF.Survivors(cs, Nearness(t, cs), Lengths(cs), minimum, m);
      |who| == |kept| && forall k | 0 <= k < |who| :: who[k] < m && kept[k] == cs[who[k]]
  {
    if m > 0 {
      SurvivorsAtPlaces(t, cs, minimum, m - 1);
      LengthAroundIs(t, cs, m - 1, |cs|);
    }
  }

  /** Exactly which corridors the filter keeps, in their order: those that, with all that chains
      of touching ends join to them, are long enough. */
  lemma KeptIff(t: Tests, cs: seq<Corridor>, minimum: real) returns (who: seq<nat>)
    ensures forall k, l | 0 <= k < l < |who| :: who[k] < who[l]
    ensures forall n :: n in who <==> 0 <= n < |cs| && LengthAround(t, cs, n, |cs|) + 0.0000001 >= minimum
    ensures var kept := UF.Survivors(cs, Nearness(t, cs), Lengths(cs), minimum, |cs|);
      |kept| == |who| && forall k | 0 <= k < |who| :: who[k] < |cs| && kept[k] == cs[who[k]]
  {
    who := LongPlaces(t, cs, minimum, |cs|);
    LongPlacesAre(t, cs, minimum, |cs|);
    SurvivorsAtPlaces(t, cs, minimum, |cs|);
  }
}
