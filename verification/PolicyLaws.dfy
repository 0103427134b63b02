/** What a decision promises, on the fields of the resource, its candidates and their lines:
    when somebody is released, who, and how every part of the weighing counts. */
module PolicyLaws {
  import opened Basics
  import opened Policy

  // ----- whether somebody is released -----

  // A report that is neither missing, from the future nor too old.
  predicate Recent(received: nat, wallNow: nat, stale: nat) {
    0 < received <= wallNow && wallNow <= received + stale
  }

  predicate Fit(cfg: PolicyConfig, ctx: Context, c: Candidate) {
    && c.trainId != "" && c.lineId != ""
    && c.resourceId == ctx.corridor.resourceId && c.direction == ctx.corridor.direction
    && 0 < c.arrivedAt <= ctx.simulationNow && Recent(c.receivedWall, ctx.wallNow, cfg.staleWall)
    && c.planPriority != None && c.lineId in ctx.lines && ctx.lines[c.lineId].targetHeadway != 0
  }

  lemma FitIffFeasible(cfg: PolicyConfig, ctx: Context, c: Candidate)
    ensures Fit(cfg, ctx, c) <==> Feasible(cfg, ctx, c)
  {
  }

  predicate HeadwayKept(cfg: PolicyConfig, c: Corridor, now: nat) {
    c.lastEntry == 0 || now >= c.lastEntry + (if c.minimumHeadway == 0 then cfg.defaultMinimumHeadway else c.minimumHeadway)
  }

  /** Somebody is released exactly when the resource was reported recently, has no pending
      command, a free way out and room, the last entry is a minimum headway ago, and some
      candidate fits. */
  lemma ReleasesOnFieldsIff(cfg: PolicyConfig, ctx: Context, d: Decision)
    requires ValidConfig(cfg) && Decides(cfg, ctx, d)
    ensures var c := ctx.corridor;
      d.action == Release <==>
        && Recent(c.receivedWall, ctx.wallNow, cfg.staleWall) && !c.commandPending && c.downstreamAvailable
        && c.occupancy < c.capacity && HeadwayKept(cfg, c, ctx.simulationNow)
        && exists x :: x in c.candidates && Fit(cfg, ctx, x)
  {
    forall x ensures Fit(cfg, ctx, x) <==> Feasible(cfg, ctx, x) {
      FitIffFeasible(cfg, ctx, x);
    }
  }

  /** What a decision says when nobody is released: the first obstacle, and no train. */
  lemma HoldNamesFirstObstacle(cfg: PolicyConfig, ctx: Context, d: Decision)
    requires ValidConfig(cfg) && Decides(cfg, ctx, d) && d.action != Release
    ensures var c := ctx.corridor;
      (d.action, d.reason) ==
        if !Recent(c.receivedWall, ctx.wallNow, cfg.staleWall) then (HoldAll, CorridorStateStale)
        else if c.commandPending then (NoAction, CommandPending)
        else if !c.downstreamAvailable then (HoldAll, DownstreamUnavailable)
        else if c.occupancy >= c.capacity then (HoldAll, CorridorAtCapacity)
        else if !HeadwayKept(cfg, c, ctx.simulationNow) then (HoldAll, MinimumHeadwayNotMet)
        else (NoAction, NoFeasibleCandidate)
    ensures d.trainId == "" && d.lineId == "" && d.movementIds == []
    ensures OfResource(d, ctx.corridor)
  {
  }

  predicate OfResource(d: Decision, c: Corridor) {
    d.resourceId == c.resourceId && d.corridorId == c.corridorId && d.direction == c.direction
  }

  /** A release carries its train's line and movements, and says whether the train had waited
      the longest time allowed. */
  lemma ReleaseNamesTrain(cfg: PolicyConfig, ctx: Context, d: Decision) returns (c: Candidate)
    requires ValidConfig(cfg) && Decides(cfg, ctx, d) && d.action == Release
    ensures c in ctx.corridor.candidates && Fit(cfg, ctx, c) && OfResource(d, ctx.corridor)
    ensures d.trainId == c.trainId && d.lineId == c.lineId && d.movementIds == c.movementIds
    ensures d.reason == if ctx.simulationNow - c.arrivedAt >= cfg.maximumWait then MaximumWaitExceeded
                        else HighestDynamicPriority
  {
    c := ReleasedCandidate(cfg, ctx, d);
    FitIffFeasible(cfg, ctx, c);
  }

  // ----- who competes -----

  // The candidate has waited the longest time allowed.
  predicate HasWaited(cfg: PolicyConfig, ctx: Context, c: Candidate) {
    ctx.simulationNow >= c.arrivedAt + cfg.maximumWait
  }

  ghost predicate SomebodyHasWaited(cfg: PolicyConfig, ctx: Context) {
    exists c :: c in ctx.corridor.candidates && Fit(cfg, ctx, c) && HasWaited(cfg, ctx, c)
  }

  // Some candidate of another line than the last released one fits.
  ghost predicate OtherLineFits(cfg: PolicyConfig, ctx: Context) {
    exists c :: c in ctx.corridor.candidates && Fit(cfg, ctx, c) && c.lineId != ctx.lastReleasedLine
  }

  /** Once somebody has waited too long only such trains compete; before, everybody but a
      line that was released the allowed number of times running, if another line fits. */
  lemma ContendersOnFields(cfg: PolicyConfig, ctx: Context, c: Candidate)
    ensures Contender(cfg, ctx, c) <==>
      && c in ctx.corridor.candidates && Fit(cfg, ctx, c)
      && if SomebodyHasWaited(cfg, ctx) then HasWaited(cfg, ctx, c)
         else !(cfg.maxConsecutiveRelease > 0 && c.lineId == ctx.lastReleasedLine
                && ctx.consecutiveReleases >= cfg.maxConsecutiveRelease && OtherLineFits(cfg, ctx))
    ensures SomebodyHasWaited(cfg, ctx) <==> OverdueTier(cfg, ctx)
  {
    forall x ensures Fit(cfg, ctx, x) <==> Feasible(cfg, ctx, x) {
      FitIffFeasible(cfg, ctx, x);
    }
    assert forall x | x in ctx.corridor.candidates && Fit(cfg, ctx, x) ::
      HasWaited(cfg, ctx, x) <==> Overdue(cfg, ctx, x);
  }

  // ----- how the parts of the weighing count -----

  /** What is weighed of a candidate: how due its line is, in target headways since its last
      release, one if it had none; how long it has waited, in longest waits; the line's credit;
      the priority in the rolling plan; and how often running its line was the one released. */
  datatype Merits = Merits(due: real, waited: real, credit: real, plan: real, run: real)

  function MeritsOf(cfg: PolicyConfig, ctx: Context, c: Candidate): Merits
    requires ValidConfig(cfg) && Fit(cfg, ctx, c)
  {
    var line, now := ctx.lines[c.lineId], ctx.simulationNow;
    Merits(
      if line.lastRelease == 0 then 1.0
      else if now < line.lastRelease then 0.0
      else (now - line.lastRelease) as real / line.targetHeadway as real,
      (now - c.arrivedAt) as real / cfg.maximumWait as real,
      line.credit,
      c.planPriority.value,
      if c.lineId == ctx.lastReleasedLine then ctx.consecutiveReleases as real else 0.0)
  }

  /** By how much one comes before the other: how much more it has of each merit, less how much
      longer its line's run is, each by its weight. */
  function Lead(cfg: PolicyConfig, p: Merits, q: Merits): real {
    cfg.headwayWeight * (p.due - q.due) + cfg.waitingWeight * (p.waited - q.waited)
    + cfg.creditWeight * (p.credit - q.credit) + cfg.planWeight * (p.plan - q.plan)
    - cfg.consecutivePenaltyWeight * (p.run - q.run)
  }

  function Sum(cfg: PolicyConfig, p: Merits): real {
    cfg.headwayWeight * p.due + cfg.waitingWeight * p.waited + cfg.creditWeight * p.credit
    + cfg.planWeight * p.plan - cfg.consecutivePenaltyWeight * p.run
  }

  lemma ScoreIsSum(cfg: PolicyConfig, ctx: Context, c: Candidate)
    requires ValidConfig(cfg) && Fit(cfg, ctx, c)
    ensures Feasible(cfg, ctx, c) && RankOf(cfg, ctx, c).score == Sum(cfg, MeritsOf(cfg, ctx, c))
  {
    var line, now := ctx.lines[c.lineId], ctx.simulationNow;
    var since := if line.lastRelease == 0 then line.targetHeadway else ElapsedSince(now, line.lastRelease);
    assert MeritsOf(cfg, ctx, c).due == since as real / line.targetHeadway as real;
  }

  lemma WeightedDifference(w: real, x: real, y: real)
    ensures w * (x - y) == w * x - w * y
  {
  }

  lemma LeadOfSums(cfg: PolicyConfig, p: Merits, q: Merits)
    ensures Lead(cfg, p, q) == Sum(cfg, p) - Sum(cfg, q)
  {
    WeightedDifference(cfg.headwayWeight, p.due, q.due);
    WeightedDifference(cfg.waitingWeight, p.waited, q.waited);
    WeightedDifference(cfg.creditWeight, p.credit, q.credit);
    WeightedDifference(cfg.planWeight, p.plan, q.plan);
    WeightedDifference(cfg.consecutivePenaltyWeight, p.run, q.run);
  }

  // By how much `c` comes before `e` in the weighing.
  function Ahead(cfg: PolicyConfig, ctx: Context, c: Candidate, e: Candidate): real
    requires ValidConfig(cfg) && Fit(cfg, ctx, c) && Fit(cfg, ctx, e)
  {
    Lead(cfg, MeritsOf(cfg, ctx, c), MeritsOf(cfg, ctx, e))
  }

  lemma AheadIsDifference(cfg: PolicyConfig, ctx: Context, c: Candidate, e: Candidate)
    requires ValidConfig(cfg) && Fit(cfg, ctx, c) && Fit(cfg, ctx, e)
    ensures Feasible(cfg, ctx, c) && Feasible(cfg, ctx, e)
    ensures Ahead(cfg, ctx, c, e) == RankOf(cfg, ctx, c).score - RankOf(cfg, ctx, e).score
  {
    ScoreIsSum(cfg, ctx, c);
    ScoreIsSum(cfg, ctx, e);
    LeadOfSums(cfg, MeritsOf(cfg, ctx, c), MeritsOf(cfg, ctx, e));
  }

  // ----- who is released -----

  predicate OneEach(cs: seq<Candidate>) {
    forall i, j | 0 <= i < j < |cs| :: cs[i].trainId != cs[j].trainId
  }

  // The `i`-th candidate comes before the `j`-th.
  predicate Precedes(cfg: PolicyConfig, ctx: Context, tier: bool, i: nat, j: nat)
    requires ValidConfig(cfg) && i < |ctx.corridor.candidates| && j < |ctx.corridor.candidates|
    requires Fit(cfg, ctx, ctx.corridor.candidates[i]) && Fit(cfg, ctx, ctx.corridor.candidates[j])
  {
    var c, e := ctx.corridor.candidates[i], ctx.corridor.candidates[j];
    var lead := Ahead(cfg, ctx, c, e);
    if tier then c.arrivedAt < e.arrivedAt || (c.arrivedAt == e.arrivedAt && (lead > 0.0 || (lead == 0.0 && i < j)))
    else lead > 0.0 || (lead == 0.0 && (c.arrivedAt < e.arrivedAt
                                        || (c.arrivedAt == e.arrivedAt && StringLess(c.trainId, e.trainId))))
  }

  lemma PrecedesIffBetter(cfg: PolicyConfig, ctx: Context, tier: bool, i: nat, j: nat)
    requires ValidConfig(cfg) && i < |ctx.corridor.candidates| && j < |ctx.corridor.candidates| && i != j
    requires Fit(cfg, ctx, ctx.corridor.candidates[i]) && Fit(cfg, ctx, ctx.corridor.candidates[j])
    requires OneEach(ctx.corridor.candidates)
    ensures var c, e := ctx.corridor.candidates[i], ctx.corridor.candidates[j];
      && Feasible(cfg, ctx, c) && Feasible(cfg, ctx, e)
      && (Precedes(cfg, ctx, tier, i, j) <==>
            if i < j then !Better(tier, RankOf(cfg, ctx, e), RankOf(cfg, ctx, c))
            else Better(tier, RankOf(cfg, ctx, c), RankOf(cfg, ctx, e)))
  {
    var c, e := ctx.corridor.candidates[i], ctx.corridor.candidates[j];
    AheadIsDifference(cfg, ctx, c, e);
    StringLessTrichotomy(c.trainId, e.trainId);
    if StringLess(c.trainId, e.trainId) && StringLess(e.trainId, c.trainId) {
      StringLessTransitive(c.trainId, e.trainId, c.trainId);
    }
    StringLessIrreflexive(c.trainId);
    assert c.trainId != e.trainId;
  }

  /** Who is released, exactly: of candidates of different trains, the contender that comes
      before every other.  Once somebody has waited too long that is the one that came first,
      then the one with the lead, then the one listed first; before, the one with the lead,
      then the one that came first, then the smallest id. */
  lemma ReleasedIff(cfg: PolicyConfig, ctx: Context, d: Decision, i: nat)
    requires ValidConfig(cfg) && Decides(cfg, ctx, d) && d.action == Release && OneEach(ctx.corridor.candidates)
    requires i < |ctx.corridor.candidates|
    ensures var cs, tier := ctx.corridor.candidates, SomebodyHasWaited(cfg, ctx);
      d.trainId == cs[i].trainId <==>
        && Contender(cfg, ctx, cs[i]) && Fit(cfg, ctx, cs[i])
        && forall j | 0 <= j < |cs| && j != i && Contender(cfg, ctx, cs[j]) && Fit(cfg, ctx, cs[j]) ::
             Precedes(cfg, ctx, tier, i, j)
  {
    var cs, tier := ctx.corridor.candidates, OverdueTier(cfg, ctx);
    ContendersOnFields(cfg, ctx, cs[i]);
    var n :| Chosen(cfg, ctx, n) && d == ReleaseOf(cfg, ctx, cs[n]);
    if n == i {
      forall j | 0 <= j < |cs| && j != i && Contender(cfg, ctx, cs[j]) && Fit(cfg, ctx, cs[j])
        ensures Precedes(cfg, ctx, tier, i, j)
      {
        PrecedesIffBetter(cfg, ctx, tier, i, j);
      }
    } else {
      assert cs[n].trainId != cs[i].trainId by {
        assert n < i || i < n;
      }
      NotBeforeTheChosen(cfg, ctx, n, i);
    }
  }

  lemma NotBeforeTheChosen(cfg: PolicyConfig, ctx: Context, n: int, i: nat)
    requires ValidConfig(cfg) && Chosen(cfg, ctx, n) && i < |ctx.corridor.candidates| && i != n
    requires OneEach(ctx.corridor.candidates)
    ensures Contender(cfg, ctx, ctx.corridor.candidates[n]) && Fit(cfg, ctx, ctx.corridor.candidates[n])
    ensures Contender(cfg, ctx, ctx.corridor.candidates[i]) && Fit(cfg, ctx, ctx.corridor.candidates[i]) ==>
      !Precedes(cfg, ctx, OverdueTier(cfg, ctx), i, n)
  {
    var cs, tier := ctx.corridor.candidates, OverdueTier(cfg, ctx);
    FitIffFeasible(cfg, ctx, cs[n]);
    if Contender(cfg, ctx, cs[i]) && Fit(cfg, ctx, cs[i]) {
      PrecedesIffBetter(cfg, ctx, tier, i, n);
      BetterIsStrict(tier, RankOf(cfg, ctx, cs[i]), RankOf(cfg, ctx, cs[n]), RankOf(cfg, ctx, cs[i]));
    }
  }

  // ----- each part by itself -----

  /** Of two contenders none of whom has waited too long, the one behind in the weighing is
      not released. */
  lemma BehindIsNotReleased(cfg: PolicyConfig, ctx: Context, d: Decision, c: Candidate, e: Candidate)
    requires ValidConfig(cfg) && Decides(cfg, ctx, d) && d.action == Release && OneEach(ctx.corridor.candidates)
    requires !SomebodyHasWaited(cfg, ctx) && Contender(cfg, ctx, c) && Contender(cfg, ctx, e)
    requires Fit(cfg, ctx, c) && Fit(cfg, ctx, e) && Ahead(cfg, ctx, c, e) > 0.0
    ensures d.trainId != e.trainId
  {
    var r := ReleasedCandidate(cfg, ctx, d);
    ContendersOnFields(cfg, ctx, c);
    AheadIsDifference(cfg, ctx, c, e);
    if r.trainId == e.trainId {
      SameTrainSameCandidate(ctx.corridor.candidates, r, e);
    }
  }

  lemma SameTrainSameCandidate(cs: seq<Candidate>, c: Candidate, e: Candidate)
    requires OneEach(cs) && c in cs && e in cs && c.trainId == e.trainId
    ensures c == e
  {
    var i :| 0 <= i < |cs| && cs[i] == c;
    var j :| 0 <= j < |cs| && cs[j] == e;
    assert !(i < j) && !(j < i);
  }

  // Time since the line's last release; a line without one counts as just due.
  function SinceRelease(now: nat, line: LineState): nat {
    if line.lastRelease == 0 then line.targetHeadway else if now < line.lastRelease then 0 else now - line.lastRelease
  }

  lemma FractionsCompare(a: nat, b: nat, c: nat, d: nat)
    requires b > 0 && d > 0
    ensures a * d >= c * b ==> a as real / b as real >= c as real / d as real
    ensures a * d > c * b ==> a as real / b as real > c as real / d as real
  {
    var x, y, p, q := a as real / b as real, c as real / d as real, b as real, d as real;
    assert x * p == a as real && y * q == c as real;
    assert (a * d) as real == a as real * q && (c * b) as real == c as real * p;
    assert a as real * q == x * (p * q) && c as real * p == y * (p * q);
    assert p * q > 0.0;
    if x < y {
      Scaled(y, x, p * q);
    }
    if x == y {
      assert a as real * q == c as real * p;
    }
  }

  lemma Scaled(x: real, y: real, w: real)
    requires w > 0.0 && x > y
    ensures w * x > w * y && x * w > y * w
  {
  }

  // `c` is at least as good as `e` in every respect.
  predicate NoWorse(ctx: Context, c: Candidate, e: Candidate)
    requires c.lineId in ctx.lines && e.lineId in ctx.lines && c.planPriority.Some? && e.planPriority.Some?
  {
    var p, q, now := ctx.lines[c.lineId], ctx.lines[e.lineId], ctx.simulationNow;
    && SinceRelease(now, p) * q.targetHeadway >= SinceRelease(now, q) * p.targetHeadway
    && c.arrivedAt <= e.arrivedAt && p.credit >= q.credit && c.planPriority.value >= e.planPriority.value
    && (c.lineId == ctx.lastReleasedLine ==> e.lineId == ctx.lastReleasedLine || ctx.consecutiveReleases == 0)
  }

  // It is better in a respect that has weight.
  predicate BetterInOne(cfg: PolicyConfig, ctx: Context, c: Candidate, e: Candidate)
    requires c.lineId in ctx.lines && e.lineId in ctx.lines && c.planPriority.Some? && e.planPriority.Some?
  {
    var p, q, now := ctx.lines[c.lineId], ctx.lines[e.lineId], ctx.simulationNow;
    || (cfg.headwayWeight > 0.0
        && SinceRelease(now, p) * q.targetHeadway > SinceRelease(now, q) * p.targetHeadway)
    || (cfg.waitingWeight > 0.0 && c.arrivedAt < e.arrivedAt)
    || (cfg.creditWeight > 0.0 && p.credit > q.credit)
    || (cfg.planWeight > 0.0 && c.planPriority.value > e.planPriority.value)
    || (cfg.consecutivePenaltyWeight > 0.0 && ctx.consecutiveReleases > 0
        && c.lineId != ctx.lastReleasedLine && e.lineId == ctx.lastReleasedLine)
  }

  predicate NoNegativeWeight(cfg: PolicyConfig) {
    && cfg.headwayWeight >= 0.0 && cfg.waitingWeight >= 0.0 && cfg.creditWeight >= 0.0
    && cfg.planWeight >= 0.0 && cfg.consecutivePenaltyWeight >= 0.0
  }

  lemma MeritsCompare(cfg: PolicyConfig, ctx: Context, c: Candidate, e: Candidate)
    requires ValidConfig(cfg) && Fit(cfg, ctx, c) && Fit(cfg, ctx, e) && NoWorse(ctx, c, e)
    ensures var p, q := MeritsOf(cfg, ctx, c), MeritsOf(cfg, ctx, e);
      p.due >= q.due && p.waited >= q.waited && p.credit >= q.credit && p.plan >= q.plan && p.run <= q.run
    ensures BetterInOne(cfg, ctx, c, e) ==>
      var p, q := MeritsOf(cfg, ctx, c), MeritsOf(cfg, ctx, e);
      || (cfg.headwayWeight > 0.0 && p.due > q.due) || (cfg.waitingWeight > 0.0 && p.waited > q.waited)
      || (cfg.creditWeight > 0.0 && p.credit > q.credit) || (cfg.planWeight > 0.0 && p.plan > q.plan)
      || (cfg.consecutivePenaltyWeight > 0.0 && p.run < q.run)
  {
    var now, l, m := ctx.simulationNow, ctx.lines[c.lineId], ctx.lines[e.lineId];
    FractionsCompare(SinceRelease(now, l), l.targetHeadway, SinceRelease(now, m), m.targetHeadway);
    DueIsFraction(cfg, ctx, c);
    DueIsFraction(cfg, ctx, e);
    FractionsCompare(now - c.arrivedAt, cfg.maximumWait, now - e.arrivedAt, cfg.maximumWait);
    SameFactor(now - c.arrivedAt, now - e.arrivedAt, cfg.maximumWait);
  }

  lemma SameFactor(a: nat, b: nat, f: nat)
    requires f > 0
    ensures (a >= b <==> a * f >= b * f) && (a > b <==> a * f > b * f)
  {
  }

  lemma DueIsFraction(cfg: PolicyConfig, ctx: Context, c: Candidate)
    requires ValidConfig(cfg) && Fit(cfg, ctx, c)
    ensures var line := ctx.lines[c.lineId];
      MeritsOf(cfg, ctx, c).due == SinceRelease(ctx.simulationNow, line) as real / line.targetHeadway as real
  {
  }

  lemma BetterMeritsLead(cfg: PolicyConfig, p: Merits, q: Merits)
    requires NoNegativeWeight(cfg)
    requires p.due >= q.due && p.waited >= q.waited && p.credit >= q.credit && p.plan >= q.plan && p.run <= q.run
    requires || (cfg.headwayWeight > 0.0 && p.due > q.due) || (cfg.waitingWeight > 0.0 && p.waited > q.waited)
             || (cfg.creditWeight > 0.0 && p.credit > q.credit) || (cfg.planWeight > 0.0 && p.plan > q.plan)
             || (cfg.consecutivePenaltyWeight > 0.0 && p.run < q.run)
    ensures Lead(cfg, p, q) > 0.0
  {
    var a := Weighed(cfg.headwayWeight, p.due - q.due);
    var b := Weighed(cfg.waitingWeight, p.waited - q.waited);
    var c := Weighed(cfg.creditWeight, p.credit - q.credit);
    var e := Weighed(cfg.planWeight, p.plan - q.plan);
    var f := Weighed(cfg.consecutivePenaltyWeight, q.run - p.run);
    Negated(cfg.consecutivePenaltyWeight, p.run, q.run);
    assert Lead(cfg, p, q) == a + b + c + e + f;
  }

  // What a weight makes of an advantage.
  lemma Weighed(w: real, x: real) returns (product: real)
    requires w >= 0.0 && x >= 0.0
    ensures product == w * x && product >= 0.0 && (w > 0.0 && x > 0.0 ==> product > 0.0)
  {
    product := w * x;
  }

  lemma Negated(w: real, x: real, y: real)
    ensures w * (x - y) == -(w * (y - x))
  {
  }

  /** No weight being negative, of two contenders none of whom has waited too long, one that is
      no better in any respect and worse in one that has weight is not released: its line less
      due, it came later, its line has less credit, it has less priority in the plan, or its
      line was the one released last and the other's was not. */
  lemma WorseIsNotReleased(cfg: PolicyConfig, ctx: Context, d: Decision, c: Candidate, e: Candidate)
    requires ValidConfig(cfg) && Decides(cfg, ctx, d) && d.action == Release && OneEach(ctx.corridor.candidates)
    requires !SomebodyHasWaited(cfg, ctx) && Contender(cfg, ctx, c) && Contender(cfg, ctx, e)
    requires Fit(cfg, ctx, c) && Fit(cfg, ctx, e) && NoNegativeWeight(cfg)
    requires NoWorse(ctx, c, e) && BetterInOne(cfg, ctx, c, e)
    ensures d.trainId != e.trainId
  {
    MeritsCompare(cfg, ctx, c, e);
    BetterMeritsLead(cfg, MeritsOf(cfg, ctx, c), MeritsOf(cfg, ctx, e));
    BehindIsNotReleased(cfg, ctx, d, c, e);
  }
}
