/** The rolling planner for one resource: arrivals sorted by ETA, a bounded reordering, and
    entry slots at a minimum spacing.  Times are unsigned 64-bit, scores are reals. */
module Planner {
  import opened Basics

  const U64_MAX := 0xFFFF_FFFF_FFFF_FFFF

  type U64 = n: nat | n <= U64_MAX

  datatype PlannerConfig = PlannerConfig(
    horizon: U64,
    minimumSpeed: real,
    tolerance: U64,
    spacing: U64,
    sameLinePenalty: real)

  predicate ValidConfig(cfg: PlannerConfig) {
    cfg.horizon > 0 && cfg.tolerance > 0 && cfg.spacing > 0 && cfg.minimumSpeed > 0.0 && cfg.sameLinePenalty >= 0.0
  }

  // A train on its way to the resource: its distance and speed.
  datatype Approach = Approach(trainId: string, lineId: string, distance: real, speed: real, targetHeadway: U64)

  datatype Arrival = Arrival(
    trainId: string,
    lineId: string,
    eta: U64,
    targetHeadway: U64,
    inHorizon: bool,
    need: real,
    rank: Option<nat>,
    planned: U64,
    priority: real)

  function AddSaturated(l: U64, r: U64): (s: U64)
    ensures s == if l + r <= U64_MAX then l + r else U64_MAX
  {
    if r > U64_MAX - l then U64_MAX else l + r
  }

  // ----- estimates -----

  function Ceiling(x: real): int {
    -((-x).Floor)
  }

  // Whole milliseconds of travel, saturating.
  function TravelTime(cfg: PlannerConfig, a: Approach): (t: U64)
    requires ValidConfig(cfg) && a.distance >= 0.0
  {
    var ms := a.distance / SpeedOf(cfg, a) * 1000.0;
    if ms >= U64_MAX as real then U64_MAX
    else
      assert a.distance / SpeedOf(cfg, a) >= 0.0;
      Ceiling(ms)
  }

  function Estimate(cfg: PlannerConfig, now: U64, a: Approach): Arrival
    requires ValidConfig(cfg) && a.distance >= 0.0
  {
    var travel := TravelTime(cfg, a);
    Arrival(a.trainId, a.lineId, AddSaturated(now, travel), a.targetHeadway, travel <= cfg.horizon,
            0.0, None, 0, 0.0)
  }

  function SpeedOf(cfg: PlannerConfig, a: Approach): (s: real)
    requires ValidConfig(cfg)
    ensures s >= cfg.minimumSpeed
  {
    MaxReal(if a.speed < 0.0 then -a.speed else a.speed, cfg.minimumSpeed)
  }

  /** The travel time is the first whole millisecond at which the distance is covered, or
      the end of time. */
  lemma TravelTimeCovers(cfg: PlannerConfig, a: Approach)
    requires ValidConfig(cfg) && a.distance >= 0.0
    ensures var t, ms := TravelTime(cfg, a), a.distance / SpeedOf(cfg, a) * 1000.0;
      if ms >= U64_MAX as real then t == U64_MAX else t as real - 1.0 < ms <= t as real
  {
  }

  /** No estimate lies in the past, so the planner's time differences never underflow. */
  predicate NotBefore(now: U64, states: seq<Arrival>) {
    forall s <- states :: s.eta >= now
  }

  // ----- sorting by ETA -----

  predicate ComesFirst(a: Arrival, b: Arrival) {
    if a.eta != b.eta then a.eta < b.eta else StringLess(a.trainId, b.trainId)
  }

  predicate Sorted(states: seq<Arrival>) {
    forall i, j | 0 <= i < j < |states| :: !ComesFirst(states[j], states[i])
  }

  lemma SortedByEta(states: seq<Arrival>, i: nat, j: nat)
    requires Sorted(states) && i <= j < |states|
    ensures states[i].eta <= states[j].eta
  {
    if i < j {
      assert !ComesFirst(states[j], states[i]);
    }
  }

  method SortByEta(arrivals: seq<Arrival>) returns (states: seq<Arrival>)
    ensures Sorted(states) && multiset(states) == multiset(arrivals)
  {
    states := [];
    for i := 0 to |arrivals|
      invariant Sorted(states) && multiset(states) == multiset(arrivals[..i])
    {
      assert arrivals[..i + 1] == arrivals[..i] + [arrivals[i]];
      states := InsertByEta(states, arrivals[i]);
    }
    assert arrivals[..|arrivals|] == arrivals;
  }

  method InsertByEta(states: seq<Arrival>, a: Arrival) returns (r: seq<Arrival>)
    requires Sorted(states)
    ensures Sorted(r) && multiset(r) == multiset(states) + multiset{a}
  {
    var i: nat := |states|;
    while i > 0 && ComesFirst(a, states[i - 1])
      invariant i <= |states| && forall k | i <= k < |states| :: ComesFirst(a, states[k])
    {
      i := i - 1;
    }
    r := states[..i] + [a] + states[i..];
    assert states == states[..i] + states[i..];
    forall p, q | 0 <= p < q < |r| ensures !ComesFirst(r[q], r[p]) {
      InsertedOrder(states, a, i, p, q);
    }
  }

  lemma InsertedOrder(states: seq<Arrival>, a: Arrival, i: nat, p: nat, q: nat)
    requires Sorted(states) && i <= |states| && p < q <= |states|
    requires i > 0 ==> !ComesFirst(a, states[i - 1])
    requires forall k | i <= k < |states| :: ComesFirst(a, states[k])
    ensures var r := states[..i] + [a] + states[i..]; !ComesFirst(r[q], r[p])
  {
    var r := states[..i] + [a] + states[i..];
    if p == i {
      assert r[q] == states[q - 1];
      OrderIsStrict(a, states[q - 1], a);
    } else if q == i {
      assert r[p] == states[p];
      if p < i - 1 {
        assert !ComesFirst(states[i - 1], states[p]);
        NotAfterTrans(a, states[i - 1], states[p]);
      }
    } else {
      assert r[p] == states[if p < i then p else p - 1] && r[q] == states[if q < i then q else q - 1];
    }
  }

  lemma OrderIsStrict(a: Arrival, b: Arrival, c: Arrival)
    ensures ComesFirst(a, b) ==> !ComesFirst(b, a)
  {
    StringLessIrreflexive(a.trainId);
    if StringLess(a.trainId, b.trainId) && StringLess(b.trainId, a.trainId) {
      StringLessTransitive(a.trainId, b.trainId, a.trainId);
    }
  }

  lemma NotAfterTrans(a: Arrival, b: Arrival, c: Arrival)
    requires !ComesFirst(a, b) && !ComesFirst(b, c)
    ensures !ComesFirst(a, c)
  {
    StringLessTrichotomy(a.trainId, b.trainId);
    StringLessTrichotomy(b.trainId, c.trainId);
    if StringLess(a.trainId, c.trainId) {
      if StringLess(b.trainId, a.trainId) {
        StringLessTransitive(b.trainId, a.trainId, c.trainId);
      }
    }
  }

  // ----- spreading the trains of one line -----

  // The nearest earlier and later arrivals of the same line.
  function Previous(states: seq<Arrival>, i: nat, n: nat): (p: Option<nat>)
    requires i < |states| && n <= i
    ensures p.Some? ==> p.value < n && states[p.value].lineId == states[i].lineId
  {
    if n == 0 then None
    else if states[n - 1].lineId == states[i].lineId then Some(n - 1)
    else Previous(states, i, n - 1)
  }

  function Following(states: seq<Arrival>, i: nat, n: nat): (p: Option<nat>)
    requires i < n <= |states|
    ensures p.Some? ==> n <= p.value < |states| && states[p.value].lineId == states[i].lineId
    decreases |states| - n
  {
    if n == |states| then None
    else if states[n].lineId == states[i].lineId then Some(n)
    else Following(states, i, n + 1)
  }

  // How much of the target headway is missing in a gap.
  function Shortfall(gap: nat, target: U64): (f: real)
    ensures 0.0 <= f <= 1.0
  {
    if gap < target then
      assert 0.0 <= gap as real / target as real <= 1.0;
      1.0 - gap as real / target as real
    else 0.0
  }

  // The time between two arrivals in ETA order; it cannot underflow.
  function Gap(states: seq<Arrival>, i: nat, j: nat): nat
    requires Sorted(states) && i <= j < |states|
  {
    SortedByEta(states, i, j);
    states[j].eta - states[i].eta
  }

  /** A leader followed too closely gains, a follower too close behind loses. */
  function Need(states: seq<Arrival>, i: nat): (need: real)
    requires Sorted(states) && i < |states|
    ensures -1.0 <= need <= 1.0
  {
    var p, f := Previous(states, i, i), Following(states, i, i + 1);
    var behind := if p.None? then 0.0 else Shortfall(Gap(states, p.value, i), states[i].targetHeadway);
    var before := if f.None? then 0.0 else Shortfall(Gap(states, i, f.value), states[i].targetHeadway);
    MaxReal(-1.0, MinReal(1.0, before - behind))
  }

  /** The need spreads a line's trains: it is negative for a train too close behind its
      leader, positive for one whose follower is too close, and zero with room on both sides. */
  lemma NeedSpreads(states: seq<Arrival>, i: nat)
    requires Sorted(states) && i < |states|
    ensures var p, f, target := Previous(states, i, i), Following(states, i, i + 1), states[i].targetHeadway;
      var leaderNear := p.Some? && Gap(states, p.value, i) < target;
      var followerNear := f.Some? && Gap(states, i, f.value) < target;
      && (leaderNear && !followerNear ==> Need(states, i) < 0.0)
      && (!leaderNear && followerNear ==> Need(states, i) > 0.0)
      && (!leaderNear && !followerNear ==> Need(states, i) == 0.0)
  {
    var p, f, target := Previous(states, i, i), Following(states, i, i + 1), states[i].targetHeadway;
    if p.Some? {
      ShortfallIff(Gap(states, p.value, i), target);
    }
    if f.Some? {
      ShortfallIff(Gap(states, i, f.value), target);
    }
  }

  lemma ShortfallIff(gap: nat, target: U64)
    ensures Shortfall(gap, target) > 0.0 <==> gap < target
  {
    if gap < target {
      BelowOne(gap as real, target as real);
    }
  }

  lemma BelowOne(x: real, y: real)
    requires 0.0 <= x < y
    ensures x / y < 1.0
  {
    var q := x / y;
    assert q * y == x;
  }

  // The indices of line `l` below `n`, ascending.
  function IndicesOf(states: seq<Arrival>, l: string, n: nat): seq<nat>
    requires n <= |states|
  {
    if n == 0 then []
    else IndicesOf(states, l, n - 1) + (if states[n - 1].lineId == l then [n - 1] else [])
  }

  lemma {:induction false} Listed(states: seq<Arrival>, l: string, n: nat)
    requires n <= |states|
    ensures forall k | 0 <= k < |IndicesOf(states, l, n)| ::
      IndicesOf(states, l, n)[k] < n && states[IndicesOf(states, l, n)[k]].lineId == l
  {
    if n > 0 {
      Listed(states, l, n - 1);
    }
  }

  // Neighbours in the list of a line's indices are the nearest arrivals of that line.
  lemma {:induction false} NeighboursInList(states: seq<Arrival>, l: string, n: nat, k: nat)
    requires n <= |states| && k < |IndicesOf(states, l, n)|
    ensures var r := IndicesOf(states, l, n);
      && r[k] < n && states[r[k]].lineId == l
      && Previous(states, r[k], r[k]) == (if k == 0 then None else Some(r[k - 1]))
      && (n == |states| ==>
            Following(states, r[k], r[k] + 1) == if k + 1 == |r| then None else Some(r[k + 1]))
  {
    Listed(states, l, n);
    ListSteps(states, l, n, k);
    var r := IndicesOf(states, l, n);
    PreviousSkips(states, r[k], r[k], if k == 0 then 0 else r[k - 1] + 1);
    if n == |states| {
      FollowingSkips(states, r[k], r[k] + 1, if k + 1 == |r| then |states| else r[k + 1]);
    }
  }

  // The list ascends and between its entries there is no other arrival of the line.
  lemma {:induction false} ListSteps(states: seq<Arrival>, l: string, n: nat, k: nat)
    requires n <= |states| && k < |IndicesOf(states, l, n)|
    ensures var r := IndicesOf(states, l, n);
      && r[k] < n && states[r[k]].lineId == l
      && (k > 0 ==> r[k - 1] < r[k])
      && (forall m | (if k == 0 then 0 else r[k - 1] + 1) <= m < r[k] :: states[m].lineId != l)
      && (k + 1 < |r| ==> r[k] < r[k + 1] < n)
      && (forall m | r[k] < m < (if k + 1 == |r| then n else r[k + 1]) :: states[m].lineId != l)
  {
    var front := IndicesOf(states, l, n - 1);
    Listed(states, l, n);
    if k < |front| {
      ListSteps(states, l, n - 1, k);
    } else if front != [] {
      ListSteps(states, l, n - 1, |front| - 1);
    } else {
      NoneListed(states, l, n - 1);
    }
  }

  lemma {:induction false} NoneListed(states: seq<Arrival>, l: string, n: nat)
    requires n <= |states| && IndicesOf(states, l, n) == []
    ensures forall m | 0 <= m < n :: states[m].lineId != l
  {
    if n > 0 {
      NoneListed(states, l, n - 1);
    }
  }

  lemma {:induction false} PreviousSkips(states: seq<Arrival>, i: nat, n: nat, m: nat)
    requires i < |states| && m <= n <= i && forall k | m <= k < n :: states[k].lineId != states[i].lineId
    ensures Previous(states, i, n) == Previous(states, i, m)
  {
    if m < n {
      PreviousSkips(states, i, n - 1, m);
    }
  }

  lemma {:induction false} FollowingSkips(states: seq<Arrival>, i: nat, n: nat, m: nat)
    requires i < n <= m <= |states| && forall k | n <= k < m :: states[k].lineId != states[i].lineId
    ensures Following(states, i, n) == Following(states, i, m)
    decreases m - n
  {
    if n < m {
      FollowingSkips(states, i, n + 1, m);
    }
  }

  lemma {:induction false} NoIndices(states: seq<Arrival>, l: string, n: nat)
    requires n <= |states| && forall m | 0 <= m < n :: states[m].lineId != l
    ensures IndicesOf(states, l, n) == []
  {
    if n > 0 {
      NoIndices(states, l, n - 1);
    }
  }

  // The indices below `n`, by line.
  ghost predicate GroupedBelow(states: seq<Arrival>, byLine: map<string, seq<nat>>, n: nat)
    requires n <= |states|
  {
    && (forall l <- byLine :: byLine[l] == IndicesOf(states, l, n))
    && forall k | 0 <= k < n :: states[k].lineId in byLine
  }

  method GroupByLine(states: seq<Arrival>) returns (byLine: map<string, seq<nat>>)
    ensures GroupedBelow(states, byLine, |states|)
  {
    byLine := map[];
    for i := 0 to |states|
      invariant GroupedBelow(states, byLine, i)
    {
      GroupedNext(states, byLine, i);
      var l := states[i].lineId;
      byLine := byLine[l := (if l in byLine then byLine[l] else []) + [i]];
    }
  }

  lemma GroupedNext(states: seq<Arrival>, byLine: map<string, seq<nat>>, i: nat)
    requires i < |states| && GroupedBelow(states, byLine, i)
    ensures var l := states[i].lineId;
      GroupedBelow(states, byLine[l := (if l in byLine then byLine[l] else []) + [i]], i + 1)
  {
    var l := states[i].lineId;
    if l !in byLine {
      NoIndices(states, l, i);
    }
    var more := byLine[l := (if l in byLine then byLine[l] else []) + [i]];
    forall m | m in more ensures more[m] == IndicesOf(states, m, i + 1) {
      IndicesNext(states, m, i);
    }
  }

  lemma IndicesNext(states: seq<Arrival>, l: string, i: nat)
    requires i < |states|
    ensures IndicesOf(states, l, i + 1) == IndicesOf(states, l, i) + (if states[i].lineId == l then [i] else [])
  {
  }

  /** Gives every arrival its need and changes nothing else. */
  method Distribute(sorted: seq<Arrival>) returns (states: seq<Arrival>)
    requires Sorted(sorted)
    ensures |states| == |sorted|
    ensures forall i | 0 <= i < |sorted| :: states[i] == sorted[i].(need := Need(sorted, i))
  {
    var byLine := GroupByLine(sorted);
    states := sorted;
    var left := byLine.Keys;
    while left != {}
      invariant left <= byLine.Keys && |states| == |sorted|
      invariant forall i | 0 <= i < |sorted| ::
        states[i] == if sorted[i].lineId in left then sorted[i] else sorted[i].(need := Need(sorted, i))
    {
      var l :| l in left;
      states := DistributeLine(sorted, states, l, byLine[l]);
      left := left - {l};
    }
  }

  method NeedAt(sorted: seq<Arrival>, l: string, indices: seq<nat>, p: nat) returns (need: real)
    requires Sorted(sorted) && indices == IndicesOf(sorted, l, |sorted|) && p < |indices|
    ensures indices[p] < |sorted| && need == Need(sorted, indices[p])
  {
    var i := indices[p];
    NeighboursInList(sorted, l, |sorted|, p);
    need := 0.0;
    if p > 0 {
      SortedByEta(sorted, indices[p - 1], i);
      var gap := sorted[i].eta - sorted[indices[p - 1]].eta;
      if gap < sorted[i].targetHeadway {
        need := need - (1.0 - gap as real / sorted[i].targetHeadway as real);
      }
    }
    if p + 1 < |indices| {
      SortedByEta(sorted, i, indices[p + 1]);
      var gap := sorted[indices[p + 1]].eta - sorted[i].eta;
      if gap < sorted[i].targetHeadway {
        need := need + (1.0 - gap as real / sorted[i].targetHeadway as real);
      }
    }
    need := MaxReal(-1.0, MinReal(1.0, need));
  }

  method DistributeLine(sorted: seq<Arrival>, before: seq<Arrival>, l: string, indices: seq<nat>)
    returns (states: seq<Arrival>)
    requires Sorted(sorted) && |before| == |sorted| && indices == IndicesOf(sorted, l, |sorted|)
    requires forall i | 0 <= i < |sorted| && sorted[i].lineId == l :: before[i] == sorted[i]
    ensures |states| == |sorted|
    ensures forall i | 0 <= i < |sorted| ::
      states[i] == if sorted[i].lineId == l then sorted[i].(need := Need(sorted, i)) else before[i]
  {
    states := before;
    for p := 0 to |indices|
      invariant |states| == |sorted|
      invariant forall i | 0 <= i < |sorted| ::
        states[i] == if i in indices[..p] then sorted[i].(need := Need(sorted, i)) else before[i]
    {
      var i := indices[p];
      var need := NeedAt(sorted, l, indices, p);
      assert indices[..p + 1] == indices[..p] + [i];
      states := states[i := sorted[i].(need := need)];
    }
    assert indices[..|indices|] == indices;
    forall i | 0 <= i < |sorted| ensures i in indices <==> sorted[i].lineId == l {
      ListedIff(sorted, l, |sorted|, i);
    }
  }

  lemma {:induction false} ListedIff(states: seq<Arrival>, l: string, n: nat, i: nat)
    requires i < n <= |states|
    ensures i in IndicesOf(states, l, n) <==> states[i].lineId == l
  {
    Listed(states, l, n - 1);
    if i < n - 1 {
      ListedIff(states, l, n - 1, i);
    }
  }

  // ----- ordering inside the tolerance window -----

  predicate Open(states: seq<Arrival>, done: seq<nat>, i: nat) {
    i < |states| && states[i].inHorizon && i !in done
  }

  // The first open arrival from `i` on, which has the earliest ETA.
  function FirstOpen(states: seq<Arrival>, done: seq<nat>, i: nat): (e: Option<nat>)
    requires i <= |states|
    ensures e.Some? ==> i <= e.value && Open(states, done, e.value)
    ensures forall k | i <= k < (if e.Some? then e.value else |states|) :: !Open(states, done, k)
    decreases |states| - i
  {
    if i == |states| then None
    else if states[i].inHorizon && i !in done then Some(i)
    else FirstOpen(states, done, i + 1)
  }

  function LastLine(states: seq<Arrival>, done: seq<nat>): string {
    if done == [] || done[|done| - 1] >= |states| then "" else states[done[|done| - 1]].lineId
  }

  function Score(cfg: PlannerConfig, now: U64, s: Arrival, lastLine: string): real
    requires ValidConfig(cfg) && s.eta >= now
  {
    var urgency := 1.0 - MinReal(1.0, (s.eta - now) as real / cfg.horizon as real);
    var score := 0.6 * urgency + 0.4 * s.need;
    if lastLine != "" && s.lineId == lastLine then score - cfg.sameLinePenalty else score
  }

  predicate Beats(p: real, a: string, q: real, b: string) {
    p > q || (p == q && StringLess(a, b))
  }

  lemma BeatsTrans(p: real, a: string, q: real, b: string, r: real, c: string)
    requires Beats(p, a, q, b) && Beats(q, b, r, c)
    ensures Beats(p, a, r, c)
  {
    if p == q == r {
      StringLessTransitive(a, b, c);
    }
  }

  // Open arrivals whose ETA is within tolerance of the earliest.
  ghost predicate InWindow(cfg: PlannerConfig, states: seq<Arrival>, done: seq<nat>, i: nat) {
    var e := FirstOpen(states, done, 0);
    Open(states, done, i) && e.Some? && states[i].eta <= AddSaturated(states[e.value].eta, cfg.tolerance)
  }

  /** `b` is chosen next: it is in the window and nobody in the window beats it. */
  ghost predicate Pick(cfg: PlannerConfig, now: U64, states: seq<Arrival>, done: seq<nat>, b: nat)
    requires ValidConfig(cfg) && NotBefore(now, states)
  {
    && InWindow(cfg, states, done, b)
    && forall i: nat | InWindow(cfg, states, done, i) ::
         !Beats(Score(cfg, now, states[i], LastLine(states, done)), states[i].trainId,
                Score(cfg, now, states[b], LastLine(states, done)), states[b].trainId)
  }

  // Every position of `order` is a pick after the ones before it.
  ghost predicate Picked(cfg: PlannerConfig, now: U64, states: seq<Arrival>, order: seq<nat>)
    requires ValidConfig(cfg) && NotBefore(now, states)
  {
    order == [] ||
    var front, last := order[..|order| - 1], order[|order| - 1];
    Picked(cfg, now, states, front) && Pick(cfg, now, states, front, last)
  }

  lemma {:induction false} PickedAt(cfg: PlannerConfig, now: U64, states: seq<Arrival>, order: seq<nat>, p: nat)
    requires ValidConfig(cfg) && NotBefore(now, states) && Picked(cfg, now, states, order) && p < |order|
    ensures Pick(cfg, now, states, order[..p], order[p])
  {
    if p < |order| - 1 {
      PickedAt(cfg, now, states, order[..|order| - 1], p);
      assert order[..|order| - 1][..p] == order[..p];
    }
  }

  /** `order` is a complete suggested order: every position is a pick, and nobody in the
      horizon is left. */
  ghost predicate Ordered(cfg: PlannerConfig, now: U64, states: seq<Arrival>, order: seq<nat>)
    requires ValidConfig(cfg) && NotBefore(now, states)
  {
    Picked(cfg, now, states, order) && FirstOpen(states, order, 0).None?
  }

  lemma PickedDistinct(cfg: PlannerConfig, now: U64, states: seq<Arrival>, order: seq<nat>)
    requires ValidConfig(cfg) && NotBefore(now, states) && Picked(cfg, now, states, order)
    ensures forall q | 0 <= q < |order| :: order[q] < |states| && states[order[q]].inHorizon
    ensures forall p, q | 0 <= p < q < |order| :: order[p] != order[q]
  {
    forall q | 0 <= q < |order| ensures order[q] !in order[..q] && order[q] < |states| && states[order[q]].inHorizon {
      PickedAt(cfg, now, states, order, q);
    }
    forall p, q | 0 <= p < q < |order| ensures order[p] != order[q] {
      assert order[p] == order[..q][p];
      assert order[p] in order[..q];
    }
  }

  /** The order lists exactly the trains within the horizon, each once. */
  lemma RanksOnce(cfg: PlannerConfig, now: U64, states: seq<Arrival>, order: seq<nat>)
    requires ValidConfig(cfg) && NotBefore(now, states) && Ordered(cfg, now, states, order)
    ensures forall i: nat :: i in order <==> i < |states| && states[i].inHorizon
    ensures forall p, q | 0 <= p < q < |order| :: order[p] != order[q]
  {
    PickedDistinct(cfg, now, states, order);
    forall i: nat ensures i in order <==> i < |states| && states[i].inHorizon {
      if i < |states| && i !in order {
        assert !Open(states, order, i);
      }
    }
  }

  /** Reordering stays within the tolerance: a train ranked later has an ETA at most the
      tolerance earlier. */
  lemma ReordersWithinTolerance(
    cfg: PlannerConfig, now: U64, states: seq<Arrival>, order: seq<nat>, p: nat, q: nat)
    requires ValidConfig(cfg) && NotBefore(now, states) && Ordered(cfg, now, states, order) && Sorted(states)
    requires p < q < |order|
    ensures order[p] < |states| && order[q] < |states|
    ensures states[order[p]].eta <= AddSaturated(states[order[q]].eta, cfg.tolerance)
  {
    RanksOnce(cfg, now, states, order);
    PickedAt(cfg, now, states, order, p);
    assert order[q] in order;
    LaterIsOpen(order, p, q);
    WindowReaches(cfg, states, order[..p], order[p], order[q]);
  }

  lemma LaterIsOpen(order: seq<nat>, p: nat, q: nat)
    requires p < q < |order| && forall i, j | 0 <= i < j < |order| :: order[i] != order[j]
    ensures order[q] !in order[..p]
  {
  }

  // Everybody in the window is within tolerance of everybody still open.
  lemma WindowReaches(cfg: PlannerConfig, states: seq<Arrival>, done: seq<nat>, i: nat, j: nat)
    requires Sorted(states) && InWindow(cfg, states, done, i) && Open(states, done, j)
    ensures states[i].eta <= AddSaturated(states[j].eta, cfg.tolerance)
  {
    var e := FirstOpen(states, done, 0).value;
    SortedByEta(states, e, j);
  }

  // ----- entry slots -----

  /** The planned entry of rank `k`: not before its ETA and, once the previous entry is
      not the zero marker, at least the spacing after it. */
  function Slot(etas: seq<U64>, spacing: U64, k: nat): U64
    requires k < |etas|
  {
    var last := if k == 0 then 0 else Slot(etas, spacing, k - 1);
    var earliest := if last == 0 then etas[k] else AddSaturated(last, spacing);
    if etas[k] < earliest then earliest else etas[k]
  }

  predicate InRange(states: seq<Arrival>, order: seq<nat>) {
    forall p | 0 <= p < |order| :: order[p] < |states|
  }

  function Etas(states: seq<Arrival>, order: seq<nat>): (etas: seq<U64>)
    requires InRange(states, order)
    ensures |etas| == |order| && forall p | 0 <= p < |order| :: etas[p] == states[order[p]].eta
  {
    if order == [] then [] else Etas(states, order[..|order| - 1]) + [states[order[|order| - 1]].eta]
  }

  function Suggested(a: Arrival, rank: nat, slot: U64): Arrival {
    a.(rank := Some(rank), planned := slot, priority := 1.0 / (rank + 1) as real + 0.5 * a.need)
  }

  // The slot of the last rank given, zero when there is none.
  function LastSlot(spacing: U64, given: seq<Arrival>, order: seq<nat>): U64
    requires InRange(given, order)
  {
    if order == [] then 0 else Slot(Etas(given, order), spacing, |order| - 1)
  }

  /** The arrivals once the ranks of `order` are given. */
  function Suggestions(spacing: U64, given: seq<Arrival>, order: seq<nat>): (states: seq<Arrival>)
    requires InRange(given, order)
    ensures |states| == |given|
  {
    if order == [] then given
    else
      var front, last := order[..|order| - 1], order[|order| - 1];
      Suggestions(spacing, given, front)[last := Suggested(given[last], |front|, LastSlot(spacing, given, order))]
  }

  /** Trains outside the order are left as they are. */
  lemma {:induction false} SuggestionsKeep(spacing: U64, given: seq<Arrival>, order: seq<nat>, i: nat)
    requires InRange(given, order) && i < |given| && i !in order
    ensures Suggestions(spacing, given, order)[i] == given[i]
  {
    if order != [] {
      SuggestionsKeep(spacing, given, order[..|order| - 1], i);
    }
  }

  /** Each train gets the rank of its place in the order and the slot of that rank. */
  lemma {:induction false} SuggestionsAt(spacing: U64, given: seq<Arrival>, order: seq<nat>, p: nat)
    requires InRange(given, order) && p < |order|
    requires forall q, r | 0 <= q < r < |order| :: order[q] != order[r]
    ensures Suggestions(spacing, given, order)[order[p]]
         == Suggested(given[order[p]], p, Slot(Etas(given, order), spacing, p))
  {
    var n := |order| - 1;
    if p < n {
      SuggestionsAt(spacing, given, order[..n], p);
      SlotOfPrefix(Etas(given, order[..n]), Etas(given, order), spacing, p);
    }
  }

  lemma {:induction false} SlotOfPrefix(etas: seq<U64>, more: seq<U64>, spacing: U64, k: nat)
    requires k < |etas| && etas <= more
    ensures Slot(more, spacing, k) == Slot(etas, spacing, k)
  {
    if k > 0 {
      SlotOfPrefix(etas, more, spacing, k - 1);
    }
  }

  ghost predicate SuggestedBy(
    cfg: PlannerConfig, now: U64, given: seq<Arrival>, states: seq<Arrival>, order: seq<nat>)
    requires ValidConfig(cfg) && NotBefore(now, given)
  {
    Ordered(cfg, now, given, order) && InRange(given, order) && states == Suggestions(cfg.spacing, given, order)
  }

  /** `states` are the arrivals with rank, slot and priority by some complete order. */
  ghost predicate Scheduled(cfg: PlannerConfig, now: U64, given: seq<Arrival>, states: seq<Arrival>)
    requires ValidConfig(cfg) && NotBefore(now, given)
  {
    exists order :: SuggestedBy(cfg, now, given, states, order)
  }

  /** The ordering loop ends; it computes a complete order and gives each train its rank,
      slot and priority by that order. */
  method Schedule(cfg: PlannerConfig, now: U64, given: seq<Arrival>) returns (states: seq<Arrival>)
    requires ValidConfig(cfg) && Sorted(given) && NotBefore(now, given)
    ensures Scheduled(cfg, now, given, states)
  {
    states := given;
    ghost var order: seq<nat> := [];
    var selected := new bool[|given|](i => false);
    var lastLine, lastPlanned, rank := "", 0, 0;
    ghost var open := Below(|given|);
    while true
      invariant |order| == rank && (forall i: nat :: i in open <==> i < |given| && i !in order)
      invariant Marks(selected[..], order, |given|) && Suggesting(cfg, now, given, states, order, lastLine, lastPlanned)
      decreases |open|
    {
      var earliest := FindOpen(given, selected, order);
      if earliest == |given| {
        break;
      }
      var best;
      best, states, lastPlanned := Advance(cfg, now, given, states, selected, earliest, lastLine, lastPlanned, rank, order);
      rank := rank + 1;
      lastLine := given[best].lineId;
      order := order + [best];
      open := open - {best};
    }
    assert SuggestedBy(cfg, now, given, states, order);
  }

  ghost predicate Marks(selected: seq<bool>, order: seq<nat>, n: nat) {
    |selected| == n && forall i | 0 <= i < n :: selected[i] == (i in order)
  }

  // Midway through the loop, with `order` given so far.
  ghost predicate Suggesting(cfg: PlannerConfig, now: U64, given: seq<Arrival>, states: seq<Arrival>, order: seq<nat>,
                             lastLine: string, lastPlanned: U64)
    requires ValidConfig(cfg) && NotBefore(now, given)
  {
    && Picked(cfg, now, given, order) && InRange(given, order)
    && states == Suggestions(cfg.spacing, given, order)
    && lastLine == LastLine(given, order) && lastPlanned == LastSlot(cfg.spacing, given, order)
  }

  // One round of the loop: picks the best open arrival and gives it the next rank.
  method Advance(cfg: PlannerConfig, now: U64, given: seq<Arrival>, before: seq<Arrival>, selected: array<bool>,
                 earliest: nat, lastLine: string, lastPlanned: U64, rank: nat, ghost order: seq<nat>)
    returns (best: nat, states: seq<Arrival>, planned: U64)
    requires ValidConfig(cfg) && Sorted(given) && NotBefore(now, given) && rank == |order|
    requires Marks(selected[..], order, |given|) && Suggesting(cfg, now, given, before, order, lastLine, lastPlanned)
    requires FirstOpen(given, order, 0) == Some(earliest)
    modifies selected
    ensures best < |given| && best !in order && Marks(selected[..], order + [best], |given|)
    ensures Suggesting(cfg, now, given, states, order + [best], given[best].lineId, planned)
  {
    best := PickBest(cfg, now, given, selected, earliest, lastLine, order);
    NextPick(cfg, now, given, order, best);
    selected[best] := true;
    PickedDistinct(cfg, now, given, order);
    SuggestionsKeep(cfg.spacing, given, order, best);
    states, planned := GiveSlot(cfg.spacing, given, before, best, rank, lastPlanned, order);
  }

  lemma NextPick(cfg: PlannerConfig, now: U64, given: seq<Arrival>, order: seq<nat>, best: nat)
    requires ValidConfig(cfg) && NotBefore(now, given) && Picked(cfg, now, given, order)
    requires Pick(cfg, now, given, order, best)
    ensures best < |given| && best !in order && Picked(cfg, now, given, order + [best])
    ensures LastLine(given, order + [best]) == given[best].lineId
  {
    assert (order + [best])[..|order|] == order;
  }

  // Gives the next rank and its entry slot.
  method GiveSlot(spacing: U64, given: seq<Arrival>, before: seq<Arrival>, best: nat, rank: nat,
                  lastPlanned: U64, ghost order: seq<nat>) returns (states: seq<Arrival>, planned: U64)
    requires InRange(given, order) && before == Suggestions(spacing, given, order) && best < |given| && best !in order
    requires rank == |order| && lastPlanned == LastSlot(spacing, given, order)
    requires before[best] == given[best]
    ensures InRange(given, order + [best]) && states == Suggestions(spacing, given, order + [best])
    ensures planned == LastSlot(spacing, given, order + [best])
  {
    SlotNext(spacing, given, order, best);
    assert (order + [best])[..|order|] == order;
    var slot := if lastPlanned == 0 then given[best].eta else AddSaturated(lastPlanned, spacing);
    planned := if given[best].eta < slot then slot else given[best].eta;
    states := before[best := Suggested(before[best], rank, planned)];
  }

  function Below(n: nat): (r: set<nat>)
    ensures forall i: nat :: i in r <==> i < n
  {
    if n == 0 then {} else Below(n - 1) + {n - 1}
  }

  lemma SlotNext(spacing: U64, given: seq<Arrival>, order: seq<nat>, best: nat)
    requires InRange(given, order) && best < |given|
    ensures InRange(given, order + [best])
    ensures var last := LastSlot(spacing, given, order);
      var slot := if last == 0 then given[best].eta else AddSaturated(last, spacing);
      LastSlot(spacing, given, order + [best]) == if given[best].eta < slot then slot else given[best].eta
  {
    var more := order + [best];
    assert more[..|order|] == order;
    if order != [] {
      SlotOfPrefix(Etas(given, order), Etas(given, more), spacing, |order| - 1);
    }
  }

  // The index of the first open arrival, or the number of arrivals.
  method FindOpen(given: seq<Arrival>, selected: array<bool>, ghost order: seq<nat>) returns (earliest: nat)
    requires Marks(selected[..], order, |given|)
    ensures earliest == var e := FirstOpen(given, order, 0); if e.Some? then e.value else |given|
  {
    for i := 0 to |given|
      invariant FirstOpen(given, order, 0) == FirstOpen(given, order, i)
    {
      if !selected[i] && given[i].inHorizon {
        return i;
      }
    }
    return |given|;
  }

  method PickBest(cfg: PlannerConfig, now: U64, given: seq<Arrival>, selected: array<bool>, earliest: nat,
                  lastLine: string, ghost order: seq<nat>) returns (best: nat)
    requires ValidConfig(cfg) && Sorted(given) && NotBefore(now, given)
    requires Marks(selected[..], order, |given|)
    requires FirstOpen(given, order, 0) == Some(earliest) && lastLine == LastLine(given, order)
    ensures Pick(cfg, now, given, order, best)
  {
    var cutoff := AddSaturated(given[earliest].eta, cfg.tolerance);
    best := earliest;
    var bestScore: Option<real> := None;
    for i := earliest to |given|
      invariant bestScore.None? ==> i == earliest
      invariant bestScore.Some? ==> InWindow(cfg, given, order, best)
                                    && bestScore.value == Score(cfg, now, given[best], lastLine)
      invariant forall k | earliest <= k < i && InWindow(cfg, given, order, k) ::
        bestScore.Some? && !Beats(Score(cfg, now, given[k], lastLine), given[k].trainId,
                                  bestScore.value, given[best].trainId)
    {
      if given[i].eta > cutoff {
        forall k: nat | i <= k < |given| ensures !InWindow(cfg, given, order, k) {
          SortedByEta(given, i, k);
        }
        break;
      }
      if selected[i] || !given[i].inHorizon {
        continue;
      }
      assert given[i] in given && InWindow(cfg, given, order, i);
      var score := Score(cfg, now, given[i], lastLine);
      if bestScore.None? || score > bestScore.value ||
         (score == bestScore.value && StringLess(given[i].trainId, given[best].trainId)) {
        forall k | earliest <= k < i && InWindow(cfg, given, order, k)
          ensures !Beats(Score(cfg, now, given[k], lastLine), given[k].trainId, score, given[i].trainId)
        {
          if Beats(Score(cfg, now, given[k], lastLine), given[k].trainId, score, given[i].trainId) {
            BeatsTrans(Score(cfg, now, given[k], lastLine), given[k].trainId, score, given[i].trainId,
                       bestScore.value, given[best].trainId);
          }
        }
        StringLessIrreflexive(given[i].trainId);
        best := i;
        bestScore := Some(score);
      }
    }
  }

  // ----- what the slots are -----

  /** The entry at rank `k` when every earlier entry is as early as it can be. */
  function Ideal(etas: seq<U64>, spacing: U64, k: nat): nat
    requires k < |etas|
  {
    if k == 0 then etas[0] else Max(etas[k], Ideal(etas, spacing, k - 1) + spacing)
  }

  /** In closed form: the latest that any earlier train pushes it, over all earlier ranks
      `j`, to the ETA of `j` plus one spacing per rank between. */
  lemma {:induction false} IdealIsMaximum(etas: seq<U64>, spacing: U64, k: nat)
    requires k < |etas|
    ensures forall j | 0 <= j <= k :: etas[j] + (k - j) * spacing <= Ideal(etas, spacing, k)
    ensures exists j :: 0 <= j <= k && etas[j] + (k - j) * spacing == Ideal(etas, spacing, k)
  {
    if k == 0 || etas[k] >= Ideal(etas, spacing, k - 1) + spacing {
      assert etas[k] + (k - k) * spacing == Ideal(etas, spacing, k);
    }
    if k > 0 {
      IdealIsMaximum(etas, spacing, k - 1);
      forall j | 0 <= j < k
        ensures etas[j] + (k - j) * spacing == etas[j] + (k - 1 - j) * spacing + spacing
      {
      }
      var j :| 0 <= j <= k - 1 && etas[j] + (k - 1 - j) * spacing == Ideal(etas, spacing, k - 1);
      assert etas[j] + (k - j) * spacing == Ideal(etas, spacing, k - 1) + spacing;
    }
  }

  /** With a first ETA of at least one, the slots are exactly these, saturated. */
  lemma {:induction false} SlotIsIdeal(etas: seq<U64>, spacing: U64, k: nat)
    requires k < |etas| && etas[0] > 0
    ensures Slot(etas, spacing, k) == if Ideal(etas, spacing, k) <= U64_MAX then Ideal(etas, spacing, k) else U64_MAX
    ensures Slot(etas, spacing, k) > 0
  {
    if k > 0 {
      SlotIsIdeal(etas, spacing, k - 1);
    }
  }

  // A schedule that respects every ETA and the spacing.
  ghost predicate Respects(etas: seq<U64>, spacing: U64, entries: seq<nat>) {
    && |entries| == |etas|
    && (forall k | 0 <= k < |etas| :: entries[k] >= etas[k])
    && forall k | 0 < k < |etas| :: entries[k] >= entries[k - 1] + spacing
  }

  /** No schedule respecting the ETAs and the spacing has an earlier entry anywhere. */
  lemma {:induction false} SlotsAreEarliest(etas: seq<U64>, spacing: U64, entries: seq<nat>, k: nat)
    requires Respects(etas, spacing, entries) && k < |etas|
    ensures etas[k] <= Slot(etas, spacing, k) <= entries[k]
  {
    if k > 0 {
      SlotsAreEarliest(etas, spacing, entries, k - 1);
    }
  }

  // Successive slots are a spacing apart, or at the end of time.
  ghost predicate SpacedAt(etas: seq<U64>, spacing: U64, k: nat)
    requires 0 < k < |etas|
  {
    Slot(etas, spacing, k) >= AddSaturated(Slot(etas, spacing, k - 1), spacing)
  }

  lemma {:induction false} SlotsStayPositive(etas: seq<U64>, spacing: U64, m: nat, k: nat)
    requires m <= k < |etas| && Slot(etas, spacing, m) > 0
    ensures Slot(etas, spacing, k) > 0
    ensures k > m ==> SpacedAt(etas, spacing, k)
  {
    if m < k {
      SlotsStayPositive(etas, spacing, m, k - 1);
    }
  }

  /** The zero marker: slots keep the spacing exactly when the first ETA is not zero or
      the second leaves the spacing by itself. */
  lemma SpacingHoldsIff(etas: seq<U64>, spacing: U64)
    requires spacing > 0
    ensures (forall k | 0 < k < |etas| :: SpacedAt(etas, spacing, k)) <==>
      |etas| < 2 || etas[0] != 0 || etas[1] >= spacing
  {
    if |etas| >= 2 {
      if etas[0] == 0 && etas[1] < spacing {
        assert !SpacedAt(etas, spacing, 1);
      } else {
        forall k | 0 < k < |etas| ensures SpacedAt(etas, spacing, k) {
          if etas[0] != 0 {
            SlotsStayPositive(etas, spacing, 0, k);
          } else {
            SlotsStayPositive(etas, spacing, 1, k);
          }
        }
      }
    }
  }

  // ----- one resource from estimate to suggestion -----

  /** One planning round: estimates sorted by ETA, needs, then the suggested order. */
  method PlanResource(cfg: PlannerConfig, now: U64, approaches: seq<Approach>) returns (states: seq<Arrival>)
    requires ValidConfig(cfg) && forall a <- approaches :: a.distance >= 0.0
    ensures exists given :: Prepared(cfg, now, approaches, given) && Scheduled(cfg, now, given, states)
  {
    var estimated: seq<Arrival> := [];
    for i := 0 to |approaches|
      invariant estimated == Estimates(cfg, now, approaches[..i])
    {
      assert approaches[i] in approaches;
      assert approaches[..i + 1][..i] == approaches[..i];
      estimated := estimated + [Estimate(cfg, now, approaches[i])];
    }
    assert approaches[..|approaches|] == approaches;
    var sorted := SortByEta(estimated);
    var distributed := Distribute(sorted);
    DistributedKeeps(cfg, now, approaches, sorted, distributed);
    assert Prepared(cfg, now, approaches, distributed);
    states := Schedule(cfg, now, distributed);
  }

  /** The estimates, sorted by ETA, none in the past, each with its need. */
  ghost predicate Prepared(cfg: PlannerConfig, now: U64, approaches: seq<Approach>, given: seq<Arrival>)
    requires ValidConfig(cfg) && forall a <- approaches :: a.distance >= 0.0
  {
    && Sorted(given) && NotBefore(now, given)
    && multiset(Plain(given)) == multiset(Estimates(cfg, now, approaches))
    && forall i | 0 <= i < |given| :: given[i].need == Need(given, i)
  }

  function Estimates(cfg: PlannerConfig, now: U64, approaches: seq<Approach>): (r: seq<Arrival>)
    requires ValidConfig(cfg) && forall a <- approaches :: a.distance >= 0.0
    ensures |r| == |approaches|
    ensures forall s <- r :: s.eta >= now && s.need == 0.0
  {
    if approaches == [] then []
    else
      assert approaches[|approaches| - 1] in approaches;
      Estimates(cfg, now, approaches[..|approaches| - 1]) + [Estimate(cfg, now, approaches[|approaches| - 1])]
  }

  // The arrivals as estimated, without their needs.
  function Plain(states: seq<Arrival>): seq<Arrival> {
    seq(|states|, i requires 0 <= i < |states| => states[i].(need := 0.0))
  }

  lemma SortedEstimates(cfg: PlannerConfig, now: U64, approaches: seq<Approach>, sorted: seq<Arrival>)
    requires ValidConfig(cfg) && forall a <- approaches :: a.distance >= 0.0
    requires multiset(sorted) == multiset(Estimates(cfg, now, approaches))
    ensures |sorted| == |approaches|
    ensures forall i | 0 <= i < |sorted| :: sorted[i].eta >= now && sorted[i].need == 0.0
  {
    var estimates := Estimates(cfg, now, approaches);
    assert |sorted| == |multiset(sorted)| == |estimates|;
    forall i | 0 <= i < |sorted| ensures sorted[i].eta >= now && sorted[i].need == 0.0 {
      assert sorted[i] in multiset(sorted);
      assert sorted[i] in estimates;
    }
  }

  lemma DistributedSorted(sorted: seq<Arrival>, distributed: seq<Arrival>)
    requires Sorted(sorted) && |distributed| == |sorted|
    requires forall i | 0 <= i < |sorted| :: distributed[i] == sorted[i].(need := distributed[i].need)
    ensures Sorted(distributed)
  {
    forall i, j | 0 <= i < j < |distributed| ensures !ComesFirst(distributed[j], distributed[i]) {
      assert !ComesFirst(sorted[j], sorted[i]);
    }
  }

  lemma DistributedKeeps(
    cfg: PlannerConfig, now: U64, approaches: seq<Approach>, sorted: seq<Arrival>, distributed: seq<Arrival>)
    requires ValidConfig(cfg) && forall a <- approaches :: a.distance >= 0.0
    requires Sorted(sorted) && multiset(sorted) == multiset(Estimates(cfg, now, approaches))
    requires |distributed| == |sorted|
    requires forall i | 0 <= i < |sorted| :: distributed[i] == sorted[i].(need := Need(sorted, i))
    ensures |distributed| == |approaches| && Sorted(distributed) && NotBefore(now, distributed)
    ensures multiset(Plain(distributed)) == multiset(Estimates(cfg, now, approaches))
    ensures forall i | 0 <= i < |distributed| :: distributed[i].need == Need(distributed, i)
  {
    SortedEstimates(cfg, now, approaches, sorted);
    DistributedSorted(sorted, distributed);
    assert Plain(distributed) == sorted;
    forall i | 0 <= i < |sorted| ensures Need(distributed, i) == Need(sorted, i) {
      SameNeighbours(sorted, distributed, i);
    }
  }

  lemma SameNeighbours(s: seq<Arrival>, t: seq<Arrival>, i: nat)
    requires |t| == |s| && i < |s| && Sorted(s) && Sorted(t)
    requires forall k | 0 <= k < |s| ::
      t[k].lineId == s[k].lineId && t[k].eta == s[k].eta && t[k].targetHeadway == s[k].targetHeadway
    ensures Need(t, i) == Need(s, i)
  {
    SamePrevious(s, t, i, i);
    SameFollowing(s, t, i, i + 1);
  }

  lemma {:induction false} SamePrevious(s: seq<Arrival>, t: seq<Arrival>, i: nat, n: nat)
    requires |t| == |s| && n <= i < |s| && forall k | 0 <= k < |s| :: t[k].lineId == s[k].lineId
    ensures Previous(t, i, n) == Previous(s, i, n)
  {
    if n > 0 {
      SamePrevious(s, t, i, n - 1);
    }
  }

  lemma {:induction false} SameFollowing(s: seq<Arrival>, t: seq<Arrival>, i: nat, n: nat)
    requires |t| == |s| && i < n <= |s| && forall k | 0 <= k < |s| :: t[k].lineId == s[k].lineId
    ensures Following(t, i, n) == Following(s, i, n)
    decreases |s| - n
  {
    if n < |s| {
      SameFollowing(s, t, i, n + 1);
    }
  }
}
