/** What the rolling plan promises, on the fields of the approaches and arrivals: estimates,
    needs, and which arrival is ranked next. */
module PlannerLaws {
  import opened Basics
  import opened Planner

  // ----- estimates -----

  function Faster(x: real, y: real): real {
    if x < y then y else x
  }

  // The speed reckoned with: the train's, in either direction, but no less than the least.
  function Speed(cfg: PlannerConfig, a: Approach): real {
    Faster(if a.speed < 0.0 then -a.speed else a.speed, cfg.minimumSpeed)
  }

  // The distance is covered at `t` milliseconds and not before.
  predicate Covers(distance: real, speed: real, t: nat) {
    t as real * speed >= 1000.0 * distance && (t > 0 ==> (t as real - 1.0) * speed < 1000.0 * distance)
  }

  lemma CoversAtSpeed(distance: real, speed: real, x: real, t: nat)
    requires speed > 0.0 && distance >= 0.0 && x * speed == distance && t as real - 1.0 < x * 1000.0 <= t as real
    ensures Covers(distance, speed, t)
  {
    assert (x * 1000.0) * speed == 1000.0 * distance;
    NoLess(t as real, x * 1000.0, speed);
    NoMore(t as real - 1.0, x * 1000.0, speed);
  }

  lemma NoLess(p: real, q: real, w: real)
    requires p >= q && w > 0.0
    ensures p * w >= q * w
  {
  }

  lemma NoMore(p: real, q: real, w: real)
    requires p < q && w > 0.0
    ensures p * w < q * w
  {
  }

  /** An estimate is for the first whole millisecond at which the distance is covered, no later
      than the end of time; it is within the horizon if the travel is; all else is copied or
      still empty. */
  lemma EstimateOnFields(cfg: PlannerConfig, now: U64, a: Approach) returns (t: nat)
    requires ValidConfig(cfg) && a.distance >= 0.0
    ensures Covers(a.distance, Speed(cfg, a), t)
    ensures var e := Estimate(cfg, now, a);
      && e == Arrival(a.trainId, a.lineId, e.eta, a.targetHeadway, e.inHorizon, 0.0, None, 0, 0.0)
      && e.eta == (if now + t <= U64_MAX then now + t else U64_MAX)
      && (e.inHorizon <==> t <= cfg.horizon || cfg.horizon == U64_MAX)
  {
    var speed := Speed(cfg, a);
    assert SpeedOf(cfg, a) == speed;
    var x := a.distance / speed;
    assert x * speed == a.distance;
    NotNegative(a.distance, speed);
    t := Ceiling(x * 1000.0);
    CoversAtSpeed(a.distance, speed, x, t);
    TravelTimeCovers(cfg, a);
  }

  lemma NotNegative(x: real, y: real)
    requires x >= 0.0 && y > 0.0
    ensures x / y >= 0.0
  {
  }

  // ----- the order of arrival -----

  // One arrives earlier, or both at once and its train id is no greater.
  predicate NoLater(a: Arrival, b: Arrival) {
    a.eta < b.eta || (a.eta == b.eta && (a.trainId == b.trainId || StringLess(a.trainId, b.trainId)))
  }

  /** Sorted arrivals: by time, then by train id. */
  lemma SortedIff(states: seq<Arrival>)
    ensures Sorted(states) <==> forall i, j | 0 <= i < j < |states| :: NoLater(states[i], states[j])
  {
    forall a, b ensures NoLater(a, b) <==> !ComesFirst(b, a) {
      NoLaterIff(a, b);
    }
  }

  lemma NoLaterIff(a: Arrival, b: Arrival)
    ensures NoLater(a, b) <==> !ComesFirst(b, a)
  {
    StringLessTrichotomy(a.trainId, b.trainId);
    StringLessIrreflexive(a.trainId);
    if StringLess(a.trainId, b.trainId) && StringLess(b.trainId, a.trainId) {
      StringLessTransitive(a.trainId, b.trainId, a.trainId);
    }
  }

  // ----- needs -----

  // How much of the target headway is missing.
  function Missing(gap: int, target: nat): real {
    if 0 <= gap < target then 1.0 - gap as real / target as real else 0.0
  }

  // The nearest arrival of the line before, or none.
  ghost predicate IsLeader(states: seq<Arrival>, i: nat, p: Option<nat>)
    requires i < |states|
  {
    match p
    case None => forall j | 0 <= j < i :: states[j].lineId != states[i].lineId
    case Some(j) =>
      && j < i && states[j].lineId == states[i].lineId
      && forall k | j < k < i :: states[k].lineId != states[i].lineId
  }

  ghost predicate IsFollower(states: seq<Arrival>, i: nat, f: Option<nat>)
    requires i < |states|
  {
    match f
    case None => forall j | i < j < |states| :: states[j].lineId != states[i].lineId
    case Some(j) =>
      && i < j < |states| && states[j].lineId == states[i].lineId
      && forall k | i < k < j :: states[k].lineId != states[i].lineId
  }

  lemma LeaderIsPrevious(states: seq<Arrival>, i: nat, p: Option<nat>)
    requires i < |states| && IsLeader(states, i, p)
    ensures Previous(states, i, i) == p
  {
    PreviousSkips(states, i, i, if p.None? then 0 else p.value + 1);
  }

  lemma FollowerIsFollowing(states: seq<Arrival>, i: nat, f: Option<nat>)
    requires i < |states| && IsFollower(states, i, f)
    ensures Following(states, i, i + 1) == f
  {
    FollowingSkips(states, i, i + 1, if f.None? then |states| else f.value);
  }

  /** An arrival's need is what its follower lacks to the target headway less what it lacks
      itself to its leader, each as a part of its target, between minus one and one. */
  lemma NeedOnFields(states: seq<Arrival>, i: nat, p: Option<nat>, f: Option<nat>)
    requires Sorted(states) && i < |states| && IsLeader(states, i, p) && IsFollower(states, i, f)
    ensures var a := states[i];
      var behind := if p.None? then 0.0 else Missing(a.eta - states[p.value].eta, a.targetHeadway);
      var before := if f.None? then 0.0 else Missing(states[f.value].eta - a.eta, a.targetHeadway);
      Need(states, i) == if before - behind > 1.0 then 1.0 else if before - behind < -1.0 then -1.0 else before - behind
  {
    LeaderIsPrevious(states, i, p);
    FollowerIsFollowing(states, i, f);
    if p.Some? {
      SortedByEta(states, p.value, i);
    }
    if f.Some? {
      SortedByEta(states, i, f.value);
    }
  }

  // ----- ranks -----

  /** The train at place `p` of the order gets rank `p`, the slot of that rank, and the
      priority one over the places so far plus half its need; nothing else changes. */
  lemma RankedOnFields(spacing: U64, given: seq<Arrival>, order: seq<nat>, p: nat)
    requires InRange(given, order) && p < |order|
    requires forall q, r | 0 <= q < r < |order| :: order[q] != order[r]
    ensures var a, b := given[order[p]], Suggestions(spacing, given, order)[order[p]];
      && b.rank == Some(p) && b.planned == Slot(Etas(given, order), spacing, p)
      && b.priority == 1.0 / (p + 1) as real + a.need / 2.0
      && b == a.(rank := b.rank, planned := b.planned, priority := b.priority)
  {
    SuggestionsAt(spacing, given, order, p);
  }

  // ----- the window -----

  // Not ranked yet and within the horizon.
  predicate Waits(states: seq<Arrival>, done: seq<nat>, i: nat) {
    i < |states| && states[i].inHorizon && i !in done
  }

  /** The window holds exactly the waiting arrivals whose ETA is at most the tolerance after
      every waiting one's. */
  lemma WindowOnFields(cfg: PlannerConfig, states: seq<Arrival>, done: seq<nat>, i: nat)
    requires Sorted(states)
    ensures InWindow(cfg, states, done, i) <==>
      && Waits(states, done, i)
      && forall j: nat | Waits(states, done, j) :: states[i].eta <= states[j].eta + cfg.tolerance
  {
    var e := FirstOpen(states, done, 0);
    if Waits(states, done, i) {
      assert Open(states, done, i);
      forall j: nat | Waits(states, done, j) ensures states[e.value].eta <= states[j].eta {
        assert Open(states, done, j);
        SortedByEta(states, e.value, j);
      }
      assert Waits(states, done, e.value);
    }
  }

  // ----- the weighing -----

  /** What is weighed of an arrival: how far off it is, in horizons and at most one; its need;
      and whether its line is the one ranked last. */
  datatype Claim = Claim(far: real, need: real, follows: bool)

  function ClaimOf(cfg: PlannerConfig, now: U64, a: Arrival, lastLine: string): Claim
    requires ValidConfig(cfg) && a.eta >= now
  {
    Claim(if a.eta - now >= cfg.horizon then 1.0 else (a.eta - now) as real / cfg.horizon as real,
          a.need, lastLine != "" && a.lineId == lastLine)
  }

  /** By how much one comes before the other: six tenths of how much nearer it is and four
      tenths of how much greater its need is, and the penalty for the one that follows its line. */
  function Lead(cfg: PlannerConfig, p: Claim, q: Claim): real {
    0.6 * (q.far - p.far) + 0.4 * (p.need - q.need)
    + (if q.follows then cfg.sameLinePenalty else 0.0) - (if p.follows then cfg.sameLinePenalty else 0.0)
  }

  function Sum(cfg: PlannerConfig, p: Claim): real {
    0.6 * (1.0 - p.far) + 0.4 * p.need - (if p.follows then cfg.sameLinePenalty else 0.0)
  }

  lemma ScoreIsSum(cfg: PlannerConfig, now: U64, a: Arrival, lastLine: string)
    requires ValidConfig(cfg) && a.eta >= now
    ensures Score(cfg, now, a, lastLine) == Sum(cfg, ClaimOf(cfg, now, a, lastLine))
  {
    FractionBelowOne(a.eta - now, cfg.horizon);
  }

  lemma FractionBelowOne(x: nat, y: nat)
    requires y > 0
    ensures x >= y <==> x as real / y as real >= 1.0
  {
    var q := x as real / y as real;
    assert q * y as real == x as real;
    if x >= y && q < 1.0 {
      BelowWhole(q, y as real);
    }
    if x < y && q >= 1.0 {
      AboveWhole(q, y as real);
    }
  }

  lemma BelowWhole(q: real, y: real)
    requires q < 1.0 && y > 0.0
    ensures q * y < y
  {
  }

  lemma AboveWhole(q: real, y: real)
    requires q >= 1.0 && y > 0.0
    ensures q * y >= y
  {
  }

  function Ahead(cfg: PlannerConfig, now: U64, a: Arrival, b: Arrival, lastLine: string): real
    requires ValidConfig(cfg) && a.eta >= now && b.eta >= now
  {
    Lead(cfg, ClaimOf(cfg, now, a, lastLine), ClaimOf(cfg, now, b, lastLine))
  }

  lemma AheadIsDifference(cfg: PlannerConfig, now: U64, a: Arrival, b: Arrival, lastLine: string)
    requires ValidConfig(cfg) && a.eta >= now && b.eta >= now
    ensures Ahead(cfg, now, a, b, lastLine) == Score(cfg, now, a, lastLine) - Score(cfg, now, b, lastLine)
  {
    ScoreIsSum(cfg, now, a, lastLine);
    ScoreIsSum(cfg, now, b, lastLine);
  }

  // The line ranked last, none at first.
  function RankedLast(states: seq<Arrival>, done: seq<nat>): string
    requires InRange(states, done)
  {
    if done == [] then "" else states[done[|done| - 1]].lineId
  }

  /** Which arrival is ranked next, exactly: the one in the window that comes before every
      other there, the smaller id of equal ones. */
  lemma PickedIff(cfg: PlannerConfig, now: U64, states: seq<Arrival>, done: seq<nat>, b: nat)
    requires ValidConfig(cfg) && NotBefore(now, states) && InRange(states, done)
    ensures Pick(cfg, now, states, done, b) <==>
      && InWindow(cfg, states, done, b)
      && forall i: nat | InWindow(cfg, states, done, i) :: ComesBefore(cfg, now, states, RankedLast(states, done), b, i)
  {
    var last := RankedLast(states, done);
    assert last == LastLine(states, done);
    if InWindow(cfg, states, done, b) {
      forall i: nat | InWindow(cfg, states, done, i)
        ensures ComesBefore(cfg, now, states, last, b, i) <==>
          !Beats(Score(cfg, now, states[i], last), states[i].trainId, Score(cfg, now, states[b], last), states[b].trainId)
      {
        assert states[i] in states && states[b] in states;
        AheadIsDifference(cfg, now, states[b], states[i], last);
      }
    }
  }

  predicate ComesBefore(cfg: PlannerConfig, now: U64, states: seq<Arrival>, last: string, b: nat, i: nat)
    requires ValidConfig(cfg)
  {
    && b < |states| && i < |states| && states[b].eta >= now && states[i].eta >= now
    && var lead := Ahead(cfg, now, states[b], states[i], last);
       lead > 0.0 || (lead == 0.0 && !StringLess(states[i].trainId, states[b].trainId))
  }

  /** Of two arrivals in the window, one that comes no earlier, has no more need and does not
      leave its line where the other follows it is not ranked next if it is worse in one of
      these: it follows the line ranked last and the other does not, with a penalty; it has
      less need; or it comes later, the other within the horizon. */
  lemma WorseIsNotPicked(cfg: PlannerConfig, now: U64, states: seq<Arrival>, done: seq<nat>, c: nat, e: nat)
    requires ValidConfig(cfg) && NotBefore(now, states) && InRange(states, done)
    requires InWindow(cfg, states, done, c) && InWindow(cfg, states, done, e)
    requires states[c].eta <= states[e].eta && states[c].need >= states[e].need
    requires var last := RankedLast(states, done);
      var cFollows, eFollows := last != "" && states[c].lineId == last, last != "" && states[e].lineId == last;
      && (cFollows ==> eFollows)
      && ((eFollows && !cFollows && cfg.sameLinePenalty > 0.0) || states[c].need > states[e].need
          || (states[c].eta < states[e].eta && states[c].eta < now + cfg.horizon))
    ensures !Pick(cfg, now, states, done, e)
  {
    var last := RankedLast(states, done);
    assert states[c] in states && states[e] in states;
    NearerIsLess(cfg, now, states[c].eta, states[e].eta);
    ClaimsCompare(cfg, ClaimOf(cfg, now, states[c], last), ClaimOf(cfg, now, states[e], last));
    LeadIsOpposite(cfg, ClaimOf(cfg, now, states[c], last), ClaimOf(cfg, now, states[e], last));
    PickedIff(cfg, now, states, done, e);
    assert !ComesBefore(cfg, now, states, last, e, c);
  }

  lemma LeadIsOpposite(cfg: PlannerConfig, p: Claim, q: Claim)
    ensures Lead(cfg, p, q) == -Lead(cfg, q, p)
  {
  }

  lemma ClaimsCompare(cfg: PlannerConfig, p: Claim, q: Claim)
    requires cfg.sameLinePenalty >= 0.0 && p.far <= q.far && p.need >= q.need && (p.follows ==> q.follows)
    requires (q.follows && !p.follows && cfg.sameLinePenalty > 0.0) || p.need > q.need || p.far < q.far
    ensures Lead(cfg, p, q) > 0.0
  {
  }

  // How far off an ETA is, as it is weighed.
  function Far(cfg: PlannerConfig, x: nat): real
    requires cfg.horizon > 0
  {
    if x >= cfg.horizon then 1.0 else x as real / cfg.horizon as real
  }

  lemma NearerIsLess(cfg: PlannerConfig, now: U64, x: U64, y: U64)
    requires cfg.horizon > 0 && now <= x <= y
    ensures Far(cfg, x - now) <= Far(cfg, y - now)
    ensures x < y && x < now + cfg.horizon ==> Far(cfg, x - now) < Far(cfg, y - now)
  {
    var h := cfg.horizon as real;
    FractionBelowOne(x - now, cfg.horizon);
    Divided((x - now) as real, (y - now) as real, h);
  }

  lemma Divided(x: real, y: real, h: real)
    requires h > 0.0 && x <= y
    ensures x / h <= y / h && (x < y ==> x / h < y / h)
  {
    var p, q := x / h, y / h;
    assert p * h == x && q * h == y;
    if p > q {
      Multiplied(p, q, h);
    }
  }

  lemma Multiplied(p: real, q: real, h: real)
    requires p > q && h > 0.0
    ensures p * h > q * h
  {
  }
}
