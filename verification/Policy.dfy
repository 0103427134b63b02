/** The dynamic priority policy: hard constraints first, then the longest-waiting train
    once some train is overdue, otherwise the best score with stable tie-breaks. */
module Policy {
  import opened Basics
  import opened Reservations

  datatype Direction = Forward | Reverse

  datatype Action = NoAction | HoldAll | Release

  // A train waiting for one directional resource.  `planPriority` is None for a
  // non-finite suggestion from the rolling plan.
  datatype Candidate = Candidate(
    trainId: string,
    lineId: string,
    direction: Direction,
    resourceId: string,
    movementIds: seq<string>,
    arrivedAt: nat,
    receivedWall: nat,
    planPriority: Option<real>)

  datatype LineState = LineState(
    targetHeadway: nat,
    lastRelease: nat,
    lastCreditUpdate: nat,
    credit: real)

  // One direction of one shared corridor.
  datatype Corridor = Corridor(
    resourceId: string,
    corridorId: string,
    direction: Direction,
    receivedWall: nat,
    lastEntry: nat,
    minimumHeadway: nat,
    occupancy: nat,
    capacity: nat,
    downstreamAvailable: bool,
    commandPending: bool,
    candidates: seq<Candidate>)

  datatype Context = Context(
    corridor: Corridor,
    lines: map<string, LineState>,
    lastReleasedLine: string,
    consecutiveReleases: nat,
    simulationNow: nat,
    wallNow: nat)

  datatype PolicyConfig = PolicyConfig(
    defaultMinimumHeadway: nat,
    maximumWait: nat,
    staleWall: nat,
    maxConsecutiveRelease: nat,
    headwayWeight: real,
    waitingWeight: real,
    creditWeight: real,
    planWeight: real,
    consecutivePenaltyWeight: real)

  datatype Reason =
    | NoReason
    | UnknownResource
    | OpposingDirectionOccupied
    | OpposingDirectionPending
    | IntersectionRefused(refusal: Refusal)
    | CorridorStateStale
    | CommandPending
    | DownstreamUnavailable
    | CorridorAtCapacity
    | MinimumHeadwayNotMet
    | NoFeasibleCandidate
    | MaximumWaitExceeded
    | HighestDynamicPriority

  datatype Decision = Decision(
    action: Action,
    commandId: nat,
    resourceId: string,
    corridorId: string,
    direction: Direction,
    trainId: string,
    lineId: string,
    topologyRevision: nat,
    issuedAt: nat,
    movementIds: seq<string>,
    reason: Reason,
    score: real)

  predicate ValidConfig(cfg: PolicyConfig) {
    cfg.defaultMinimumHeadway > 0 && cfg.maximumWait > 0
  }

  // A time difference that is zero when the clock went back.
  function ElapsedSince(now: nat, then_: nat): nat {
    if now >= then_ then now - then_ else 0
  }

  predicate WallStateStale(received: nat, wallNow: nat, stale: nat) {
    received == 0 || received > wallNow || ElapsedSince(wallNow, received) > stale
  }

  function MakeDecision(action: Action, corridor: Corridor, reason: Reason): Decision {
    Decision(action, 0, corridor.resourceId, corridor.corridorId, corridor.direction,
             "", "", 0, 0, [], reason, 0.0)
  }

  function EffectiveHeadway(cfg: PolicyConfig, c: Corridor): nat {
    if c.minimumHeadway == 0 then cfg.defaultMinimumHeadway else c.minimumHeadway
  }

  /** The hard constraints of a directional resource, as one condition. */
  predicate Open(cfg: PolicyConfig, ctx: Context) {
    var c := ctx.corridor;
    && !WallStateStale(c.receivedWall, ctx.wallNow, cfg.staleWall)
    && !c.commandPending && c.downstreamAvailable && c.occupancy < c.capacity
    && (c.lastEntry == 0 || c.lastEntry + EffectiveHeadway(cfg, c) <= ctx.simulationNow)
  }

  // The first violated hard constraint, in checking order.
  function Closure(cfg: PolicyConfig, ctx: Context): (Action, Reason) {
    var c := ctx.corridor;
    if WallStateStale(c.receivedWall, ctx.wallNow, cfg.staleWall) then (HoldAll, CorridorStateStale)
    else if c.commandPending then (NoAction, CommandPending)
    else if !c.downstreamAvailable then (HoldAll, DownstreamUnavailable)
    else if c.occupancy >= c.capacity then (HoldAll, CorridorAtCapacity)
    else (HoldAll, MinimumHeadwayNotMet)
  }

  /** The candidate is consistent with the resource, fresh, and its line is known. */
  predicate Feasible(cfg: PolicyConfig, ctx: Context, c: Candidate) {
    && c.trainId != "" && c.lineId != ""
    && c.resourceId == ctx.corridor.resourceId && c.direction == ctx.corridor.direction
    && 0 < c.arrivedAt <= ctx.simulationNow
    && !WallStateStale(c.receivedWall, ctx.wallNow, cfg.staleWall)
    && c.planPriority.Some?
    && c.lineId in ctx.lines && ctx.lines[c.lineId].targetHeadway > 0
  }

  function Waiting(ctx: Context, c: Candidate): nat {
    ElapsedSince(ctx.simulationNow, c.arrivedAt)
  }

  predicate Overdue(cfg: PolicyConfig, ctx: Context, c: Candidate) {
    Waiting(ctx, c) >= cfg.maximumWait
  }

  predicate LimitReached(cfg: PolicyConfig, ctx: Context, c: Candidate) {
    && cfg.maxConsecutiveRelease > 0
    && c.lineId == ctx.lastReleasedLine
    && ctx.consecutiveReleases >= cfg.maxConsecutiveRelease
  }

  function Score(cfg: PolicyConfig, ctx: Context, c: Candidate): real
    requires ValidConfig(cfg) && Feasible(cfg, ctx, c)
  {
    var line := ctx.lines[c.lineId];
    var sinceRelease := if line.lastRelease == 0 then line.targetHeadway
                        else ElapsedSince(ctx.simulationNow, line.lastRelease);
    var penalty := if c.lineId == ctx.lastReleasedLine then ctx.consecutiveReleases else 0;
    cfg.headwayWeight * (sinceRelease as real / line.targetHeadway as real)
    + cfg.waitingWeight * (Waiting(ctx, c) as real / cfg.maximumWait as real)
    + cfg.creditWeight * line.credit
    + cfg.planWeight * c.planPriority.value
    - cfg.consecutivePenaltyWeight * (penalty as real)
  }

  ghost predicate HasAlternative(cfg: PolicyConfig, ctx: Context) {
    exists c :: c in ctx.corridor.candidates && Feasible(cfg, ctx, c) && c.lineId != ctx.lastReleasedLine
  }

  ghost predicate Eligible(cfg: PolicyConfig, ctx: Context, c: Candidate) {
    Overdue(cfg, ctx, c) || !(LimitReached(cfg, ctx, c) && HasAlternative(cfg, ctx))
  }

  // ----- the two rankings -----

  datatype Rank = Rank(score: real, waiting: nat, trainId: string)

  function RankOf(cfg: PolicyConfig, ctx: Context, c: Candidate): Rank
    requires ValidConfig(cfg) && Feasible(cfg, ctx, c)
  {
    Rank(Score(cfg, ctx, c), Waiting(ctx, c), c.trainId)
  }

  // Among overdue trains: longer wait, then higher score.
  predicate OverdueBetter(a: Rank, b: Rank) {
    a.waiting > b.waiting || (a.waiting == b.waiting && a.score > b.score)
  }

  // Otherwise: higher score, then longer wait, then smaller train id.
  predicate NormalBetter(a: Rank, b: Rank) {
    || a.score > b.score
    || (a.score == b.score && a.waiting > b.waiting)
    || (a.score == b.score && a.waiting == b.waiting && StringLess(a.trainId, b.trainId))
  }

  predicate Better(overdueTier: bool, a: Rank, b: Rank) {
    if overdueTier then OverdueBetter(a, b) else NormalBetter(a, b)
  }

  lemma BetterIsStrict(tier: bool, a: Rank, b: Rank, c: Rank)
    ensures !Better(tier, a, a)
    ensures Better(tier, a, b) && Better(tier, b, c) ==> Better(tier, a, c)
    ensures !Better(tier, a, b) && !Better(tier, b, c) ==> !Better(tier, a, c)
  {
    StringLessIrreflexive(a.trainId);
    StringLessTrichotomy(a.trainId, b.trainId);
    StringLessTrichotomy(b.trainId, c.trainId);
    StringLessTrichotomy(a.trainId, c.trainId);
    if StringLess(a.trainId, b.trainId) && StringLess(b.trainId, c.trainId) {
      StringLessTransitive(a.trainId, b.trainId, c.trainId);
    }
    if StringLess(a.trainId, c.trainId) && StringLess(c.trainId, b.trainId) {
      StringLessTransitive(a.trainId, c.trainId, b.trainId);
    }
    if StringLess(b.trainId, a.trainId) && StringLess(a.trainId, c.trainId) {
      StringLessTransitive(b.trainId, a.trainId, c.trainId);
    }
    if StringLess(b.trainId, a.trainId) && StringLess(a.trainId, b.trainId) {
      StringLessTransitive(b.trainId, a.trainId, b.trainId);
      StringLessIrreflexive(b.trainId);
    }
    if StringLess(c.trainId, b.trainId) && StringLess(b.trainId, c.trainId) {
      StringLessTransitive(c.trainId, b.trainId, c.trainId);
      StringLessIrreflexive(c.trainId);
    }
  }

  // ----- what a decision is -----

  ghost predicate OverdueTier(cfg: PolicyConfig, ctx: Context) {
    exists c :: c in ctx.corridor.candidates && Feasible(cfg, ctx, c) && Overdue(cfg, ctx, c)
  }

  /** `c` competes in the tier that decides this round. */
  ghost predicate Contender(cfg: PolicyConfig, ctx: Context, c: Candidate) {
    && c in ctx.corridor.candidates && Feasible(cfg, ctx, c)
    && (if OverdueTier(cfg, ctx) then Overdue(cfg, ctx, c) else Eligible(cfg, ctx, c))
  }

  /** The candidate at `i` is the first of the best contenders of the deciding tier. */
  ghost predicate Chosen(cfg: PolicyConfig, ctx: Context, i: int)
    requires ValidConfig(cfg)
  {
    var cs := ctx.corridor.candidates;
    var tier := OverdueTier(cfg, ctx);
    && 0 <= i < |cs| && Contender(cfg, ctx, cs[i])
    && forall j | 0 <= j < |cs| && Contender(cfg, ctx, cs[j]) ::
         && !Better(tier, RankOf(cfg, ctx, cs[j]), RankOf(cfg, ctx, cs[i]))
         && (j < i ==> Better(tier, RankOf(cfg, ctx, cs[i]), RankOf(cfg, ctx, cs[j])))
  }

  function ReleaseOf(cfg: PolicyConfig, ctx: Context, c: Candidate): Decision
    requires ValidConfig(cfg) && Feasible(cfg, ctx, c)
  {
    MakeDecision(Release, ctx.corridor,
                 if Overdue(cfg, ctx, c) then MaximumWaitExceeded else HighestDynamicPriority)
      .(trainId := c.trainId, lineId := c.lineId, movementIds := c.movementIds, score := Score(cfg, ctx, c))
  }

  ghost predicate AnyFeasible(cfg: PolicyConfig, ctx: Context) {
    exists c :: c in ctx.corridor.candidates && Feasible(cfg, ctx, c)
  }

  ghost predicate Decides(cfg: PolicyConfig, ctx: Context, d: Decision)
    requires ValidConfig(cfg)
  {
    if !Open(cfg, ctx) then
      d == MakeDecision(Closure(cfg, ctx).0, ctx.corridor, Closure(cfg, ctx).1)
    else if !AnyFeasible(cfg, ctx) then
      d == MakeDecision(NoAction, ctx.corridor, NoFeasibleCandidate)
    else
      exists i :: Chosen(cfg, ctx, i) && d == ReleaseOf(cfg, ctx, ctx.corridor.candidates[i])
  }

  // ----- the algorithm -----

  datatype Scored = Scored(candidate: Candidate, rank: Rank, overdue: bool, limitReached: bool)

  // `s` is what scoring `c` yields.
  ghost predicate ScoredRight(cfg: PolicyConfig, ctx: Context, s: Scored)
    requires ValidConfig(cfg)
  {
    && s.candidate in ctx.corridor.candidates && Feasible(cfg, ctx, s.candidate)
    && s.rank == RankOf(cfg, ctx, s.candidate)
    && s.overdue == Overdue(cfg, ctx, s.candidate)
    && s.limitReached == LimitReached(cfg, ctx, s.candidate)
  }

  // Scores the feasible candidates in order.
  method ScoreAll(cfg: PolicyConfig, ctx: Context) returns (scored: seq<Scored>)
    requires ValidConfig(cfg)
    ensures exists at :: ScoringOf(cfg, ctx, scored, at)
  {
    var cs := ctx.corridor.candidates;
    scored := [];
    ghost var at: seq<nat> := [];
    for i := 0 to |cs|
      invariant |at| == |scored|
      invariant forall n | 0 <= n < |scored| ::
        at[n] < i && scored[n].candidate == cs[at[n]] && ScoredRight(cfg, ctx, scored[n])
      invariant forall m, n | 0 <= m < n < |at| :: at[m] < at[n]
      invariant forall j | 0 <= j < i :: Feasible(cfg, ctx, cs[j]) ==> j in at
    {
      var c := cs[i];
      if !Feasible(cfg, ctx, c) {
        continue;
      }
      var item := Scored(c, RankOf(cfg, ctx, c), Overdue(cfg, ctx, c), LimitReached(cfg, ctx, c));
      scored := scored + [item];
      at := at + [i];
    }
    assert ScoringOf(cfg, ctx, scored, at);
  }

  // The first best item among those that compete; -1 when none does.
  method SelectBest(scored: seq<Scored>, tier: bool, alternative: bool) returns (selected: int)
    ensures -1 <= selected < |scored|
    ensures selected == -1 <==> forall n | 0 <= n < |scored| :: !Competes(scored[n], tier, alternative)
    ensures selected >= 0 ==> Competes(scored[selected], tier, alternative)
    ensures forall n | 0 <= n < |scored| && Competes(scored[n], tier, alternative) ::
      && !Better(tier, scored[n].rank, scored[selected].rank)
      && (n < selected ==> Better(tier, scored[selected].rank, scored[n].rank))
  {
    selected := -1;
    for i := 0 to |scored|
      invariant -1 <= selected < i
      invariant selected == -1 <==> forall n | 0 <= n < i :: !Competes(scored[n], tier, alternative)
      invariant selected >= 0 ==> Competes(scored[selected], tier, alternative)
      invariant forall n | 0 <= n < i && Competes(scored[n], tier, alternative) ::
        && !Better(tier, scored[n].rank, scored[selected].rank)
        && (n < selected ==> Better(tier, scored[selected].rank, scored[n].rank))
    {
      if !Competes(scored[i], tier, alternative) {
        continue;
      }
      BetterIsStrict(tier, scored[i].rank, scored[i].rank, scored[i].rank);
      if selected == -1 || Better(tier, scored[i].rank, scored[selected].rank) {
        forall n | 0 <= n < i && Competes(scored[n], tier, alternative)
          ensures Better(tier, scored[i].rank, scored[n].rank) && !Better(tier, scored[n].rank, scored[i].rank)
        {
          BetterOverRest(tier, scored[i].rank, scored[selected].rank, scored[n].rank);
        }
        selected := i;
      }
    }
  }

  predicate Competes(s: Scored, tier: bool, alternative: bool) {
    if tier then s.overdue else s.overdue || !(s.limitReached && alternative)
  }

  lemma BetterOverRest(tier: bool, a: Rank, b: Rank, c: Rank)
    requires Better(tier, a, b) && !Better(tier, c, b)
    ensures Better(tier, a, c) && !Better(tier, c, a)
  {
    BetterIsStrict(tier, c, a, b);
    BetterIsStrict(tier, a, c, b);
  }

  method Decide(cfg: PolicyConfig, ctx: Context) returns (d: Decision)
    requires ValidConfig(cfg)
    ensures Decides(cfg, ctx, d)
  {
    var corridor := ctx.corridor;
    if WallStateStale(corridor.receivedWall, ctx.wallNow, cfg.staleWall) {
      return MakeDecision(HoldAll, corridor, CorridorStateStale);
    }
    if corridor.commandPending {
      return MakeDecision(NoAction, corridor, CommandPending);
    }
    if !corridor.downstreamAvailable {
      return MakeDecision(HoldAll, corridor, DownstreamUnavailable);
    }
    if corridor.capacity == 0 || corridor.occupancy >= corridor.capacity {
      return MakeDecision(HoldAll, corridor, CorridorAtCapacity);
    }
    if corridor.lastEntry != 0 &&
       ElapsedSince(ctx.simulationNow, corridor.lastEntry) < EffectiveHeadway(cfg, corridor) {
      return MakeDecision(HoldAll, corridor, MinimumHeadwayNotMet);
    }
    d := DecideAmong(cfg, ctx);
  }

  // The soft half of the decision: every hard constraint holds.
  method DecideAmong(cfg: PolicyConfig, ctx: Context) returns (d: Decision)
    requires ValidConfig(cfg) && Open(cfg, ctx)
    ensures Decides(cfg, ctx, d)
  {
    var corridor := ctx.corridor;
    var scored := ScoreAll(cfg, ctx);
    ghost var at :| ScoringOf(cfg, ctx, scored, at);
    ScoredCovers(cfg, ctx, scored, at);
    if scored == [] {
      return MakeDecision(NoAction, corridor, NoFeasibleCandidate);
    }
    assert AnyFeasible(cfg, ctx) by {
      assert ScoredRight(cfg, ctx, scored[0]);
    }
    var selected := SelectFrom(cfg, ctx, scored, at);
    var item := scored[selected];
    d := MakeDecision(Release, corridor, if item.overdue then MaximumWaitExceeded else HighestDynamicPriority);
    d := d.(trainId := item.candidate.trainId, lineId := item.candidate.lineId,
            movementIds := item.candidate.movementIds, score := item.rank.score);
    assert d == ReleaseOf(cfg, ctx, corridor.candidates[at[selected]]);
  }

  // The item that is released: the first best overdue one or, without any, the first best
  // eligible one.
  method SelectFrom(cfg: PolicyConfig, ctx: Context, scored: seq<Scored>, ghost at: seq<nat>) returns (selected: int)
    requires ValidConfig(cfg) && ScoringOf(cfg, ctx, scored, at) && scored != []
    ensures 0 <= selected < |scored| && Chosen(cfg, ctx, at[selected])
  {
    var alternative := false;
    for n := 0 to |scored|
      invariant alternative <==> exists m :: 0 <= m < n && scored[m].candidate.lineId != ctx.lastReleasedLine
    {
      if scored[n].candidate.lineId != ctx.lastReleasedLine {
        alternative := true;
      }
    }
    ScoredCovers(cfg, ctx, scored, at);
    assert alternative <==> HasAlternative(cfg, ctx);

    selected := SelectBest(scored, true, alternative);
    ghost var tier := selected >= 0;
    assert tier <==> OverdueTier(cfg, ctx);
    if selected == -1 {
      SomeoneCompetes(cfg, ctx, scored, alternative);
      selected := SelectBest(scored, false, alternative);
    }
    if selected == -1 {
      // The source's "no eligible candidate" result: some line is always eligible.
      assert false;
    }
    SelectedIsChosen(cfg, ctx, scored, at, selected);
  }

  // `scored` is the scoring of the feasible candidates; `at[n]` is where the n-th came from.
  ghost predicate ScoringOf(cfg: PolicyConfig, ctx: Context, scored: seq<Scored>, at: seq<nat>)
    requires ValidConfig(cfg)
  {
    && |at| == |scored|
    && (forall n | 0 <= n < |scored| ::
          && at[n] < |ctx.corridor.candidates| && scored[n].candidate == ctx.corridor.candidates[at[n]]
          && ScoredRight(cfg, ctx, scored[n]))
    && (forall m, n | 0 <= m < n < |at| :: at[m] < at[n])
    && (forall j | 0 <= j < |ctx.corridor.candidates| :: Feasible(cfg, ctx, ctx.corridor.candidates[j]) ==> j in at)
  }

  lemma SomeoneCompetes(cfg: PolicyConfig, ctx: Context, scored: seq<Scored>, alternative: bool)
    requires ValidConfig(cfg) && scored != []
    requires forall n | 0 <= n < |scored| :: ScoredRight(cfg, ctx, scored[n])
    requires alternative <==> exists m :: 0 <= m < |scored| && scored[m].candidate.lineId != ctx.lastReleasedLine
    ensures exists n :: 0 <= n < |scored| && Competes(scored[n], false, alternative)
  {
    if alternative {
      var m :| 0 <= m < |scored| && scored[m].candidate.lineId != ctx.lastReleasedLine;
      assert ScoredRight(cfg, ctx, scored[m]);
      assert Competes(scored[m], false, alternative);
    } else {
      assert Competes(scored[0], false, alternative);
    }
  }

  lemma ScoredCovers(cfg: PolicyConfig, ctx: Context, scored: seq<Scored>, at: seq<nat>)
    requires ValidConfig(cfg) && ScoringOf(cfg, ctx, scored, at)
    ensures forall c | c in ctx.corridor.candidates && Feasible(cfg, ctx, c) ::
      exists n :: 0 <= n < |scored| && scored[n].candidate == c
  {
    forall c | c in ctx.corridor.candidates && Feasible(cfg, ctx, c)
      ensures exists n :: 0 <= n < |scored| && scored[n].candidate == c
    {
      var j :| 0 <= j < |ctx.corridor.candidates| && ctx.corridor.candidates[j] == c;
      var n :| 0 <= n < |at| && at[n] == j;
    }
  }

  lemma SelectedIsChosen(cfg: PolicyConfig, ctx: Context, scored: seq<Scored>, at: seq<nat>, selected: int)
    requires ValidConfig(cfg) && ScoringOf(cfg, ctx, scored, at)
    requires 0 <= selected < |scored|
    requires var tier, alternative := OverdueTier(cfg, ctx), HasAlternative(cfg, ctx);
      && Competes(scored[selected], tier, alternative)
      && forall n | 0 <= n < |scored| && Competes(scored[n], tier, alternative) ::
           && !Better(tier, scored[n].rank, scored[selected].rank)
           && (n < selected ==> Better(tier, scored[selected].rank, scored[n].rank))
    ensures Chosen(cfg, ctx, at[selected])
  {
    var cs, i := ctx.corridor.candidates, at[selected];
    var tier := OverdueTier(cfg, ctx);
    assert Contender(cfg, ctx, cs[i]);
    forall j | 0 <= j < |cs| && Contender(cfg, ctx, cs[j])
      ensures !Better(tier, RankOf(cfg, ctx, cs[j]), RankOf(cfg, ctx, cs[i]))
      ensures j < i ==> Better(tier, RankOf(cfg, ctx, cs[i]), RankOf(cfg, ctx, cs[j]))
    {
      var n :| 0 <= n < |at| && at[n] == j;
      assert ScoredRight(cfg, ctx, scored[n]);
    }
  }

  // ----- properties of decisions -----

  lemma ChosenIsFirst(cfg: PolicyConfig, ctx: Context, i: int, j: int)
    requires ValidConfig(cfg) && Chosen(cfg, ctx, i) && Chosen(cfg, ctx, j)
    ensures i <= j
  {
    var cs, tier := ctx.corridor.candidates, OverdueTier(cfg, ctx);
    assert !Better(tier, RankOf(cfg, ctx, cs[i]), RankOf(cfg, ctx, cs[j]));
  }

  /** The constraints and the candidates determine the decision. */
  lemma DecisionIsUnique(cfg: PolicyConfig, ctx: Context, d: Decision, e: Decision)
    requires ValidConfig(cfg) && Decides(cfg, ctx, d) && Decides(cfg, ctx, e)
    ensures d == e
  {
    if Open(cfg, ctx) && AnyFeasible(cfg, ctx) {
      var i :| Chosen(cfg, ctx, i) && d == ReleaseOf(cfg, ctx, ctx.corridor.candidates[i]);
      var j :| Chosen(cfg, ctx, j) && e == ReleaseOf(cfg, ctx, ctx.corridor.candidates[j]);
      ChosenIsFirst(cfg, ctx, i, j);
      ChosenIsFirst(cfg, ctx, j, i);
    }
  }

  /** A release happens exactly when the resource is open and somebody is feasible. */
  lemma ReleasesIff(cfg: PolicyConfig, ctx: Context, d: Decision)
    requires ValidConfig(cfg) && Decides(cfg, ctx, d)
    ensures d.action == Release <==> Open(cfg, ctx) && AnyFeasible(cfg, ctx)
  {
  }

  lemma ReleasedCandidate(cfg: PolicyConfig, ctx: Context, d: Decision) returns (c: Candidate)
    requires ValidConfig(cfg) && Decides(cfg, ctx, d) && d.action == Release
    ensures c in ctx.corridor.candidates && Contender(cfg, ctx, c) && d == ReleaseOf(cfg, ctx, c)
    ensures forall other | Contender(cfg, ctx, other) ::
      !Better(OverdueTier(cfg, ctx), RankOf(cfg, ctx, other), RankOf(cfg, ctx, c))
  {
    var i :| Chosen(cfg, ctx, i) && d == ReleaseOf(cfg, ctx, ctx.corridor.candidates[i]);
    c := ctx.corridor.candidates[i];
    forall other | Contender(cfg, ctx, other)
      ensures !Better(OverdueTier(cfg, ctx), RankOf(cfg, ctx, other), RankOf(cfg, ctx, c))
    {
      var j :| 0 <= j < |ctx.corridor.candidates| && ctx.corridor.candidates[j] == other;
    }
  }

  /** Anti-starvation: while an overdue train is feasible, whoever is released arrived
      no later than it did. */
  lemma NobodyOvertakesOverdue(cfg: PolicyConfig, ctx: Context, d: Decision, t: Candidate) returns (c: Candidate)
    requires ValidConfig(cfg) && Decides(cfg, ctx, d) && d.action == Release
    requires t in ctx.corridor.candidates && Feasible(cfg, ctx, t) && Overdue(cfg, ctx, t)
    ensures c in ctx.corridor.candidates && c.trainId == d.trainId && c.lineId == d.lineId
    ensures 0 < c.arrivedAt <= t.arrivedAt
  {
    c := ReleasedCandidate(cfg, ctx, d);
    assert OverdueTier(cfg, ctx);
    assert Contender(cfg, ctx, t);
    assert !Better(true, RankOf(cfg, ctx, t), RankOf(cfg, ctx, c));
  }

  /** A line at its consecutive limit is released again only if its train is overdue or
      no other line has a feasible candidate. */
  lemma LimitYields(cfg: PolicyConfig, ctx: Context, d: Decision)
    requires ValidConfig(cfg) && Decides(cfg, ctx, d) && d.action == Release
    requires cfg.maxConsecutiveRelease > 0
    requires d.lineId == ctx.lastReleasedLine && ctx.consecutiveReleases >= cfg.maxConsecutiveRelease
    ensures d.reason == MaximumWaitExceeded || !HasAlternative(cfg, ctx)
  {
    var c := ReleasedCandidate(cfg, ctx, d);
  }

  // ----- dependence on the order of candidates -----

  ghost predicate SameCandidates(p: Context, q: Context) {
    && q == p.(corridor := p.corridor.(candidates := q.corridor.candidates))
    && forall c :: c in p.corridor.candidates <==> c in q.corridor.candidates
  }

  ghost predicate DistinctTrains(ctx: Context) {
    forall c, e | c in ctx.corridor.candidates && e in ctx.corridor.candidates && c.trainId == e.trainId :: c == e
  }

  lemma SameContenders(cfg: PolicyConfig, p: Context, q: Context)
    requires SameCandidates(p, q)
    ensures Open(cfg, p) == Open(cfg, q) && Closure(cfg, p) == Closure(cfg, q)
    ensures forall c :: Feasible(cfg, p, c) == Feasible(cfg, q, c)
    ensures OverdueTier(cfg, p) == OverdueTier(cfg, q)
    ensures HasAlternative(cfg, p) == HasAlternative(cfg, q)
    ensures forall c :: Contender(cfg, p, c) == Contender(cfg, q, c)
    ensures AnyFeasible(cfg, p) == AnyFeasible(cfg, q)
  {
    forall c
      ensures Feasible(cfg, p, c) == Feasible(cfg, q, c) && Overdue(cfg, p, c) == Overdue(cfg, q, c)
      ensures LimitReached(cfg, p, c) == LimitReached(cfg, q, c)
    {
    }
  }

  lemma SameRank(cfg: PolicyConfig, p: Context, q: Context, c: Candidate)
    requires ValidConfig(cfg) && SameCandidates(p, q) && Feasible(cfg, p, c)
    ensures Feasible(cfg, q, c) && RankOf(cfg, p, c) == RankOf(cfg, q, c)
    ensures ReleaseOf(cfg, p, c) == ReleaseOf(cfg, q, c)
  {
  }

  // The two releases are of candidates neither of which beats the other.
  lemma Unbeaten(cfg: PolicyConfig, p: Context, q: Context, d: Decision, e: Decision)
    returns (c: Candidate, f: Candidate)
    requires ValidConfig(cfg) && SameCandidates(p, q)
    requires Decides(cfg, p, d) && d.action == Release && Decides(cfg, q, e) && e.action == Release
    ensures Contender(cfg, p, c) && Contender(cfg, p, f)
    ensures d == ReleaseOf(cfg, p, c) && e == ReleaseOf(cfg, p, f)
    ensures forall other | Contender(cfg, p, other) ::
      && !Better(OverdueTier(cfg, p), RankOf(cfg, p, other), RankOf(cfg, p, c))
      && !Better(OverdueTier(cfg, p), RankOf(cfg, p, other), RankOf(cfg, p, f))
  {
    SameContenders(cfg, p, q);
    c := ReleasedCandidate(cfg, p, d);
    f := ReleasedCandidate(cfg, q, e);
    SameRank(cfg, p, q, f);
    forall other | Contender(cfg, p, other)
      ensures !Better(OverdueTier(cfg, p), RankOf(cfg, p, other), RankOf(cfg, p, f))
    {
      assert Contender(cfg, q, other);
      SameRank(cfg, p, q, other);
    }
  }

  /** In the normal tier the decision does not depend on the candidates' order. */
  lemma OrderDoesNotMatter(cfg: PolicyConfig, p: Context, q: Context, d: Decision, e: Decision)
    requires ValidConfig(cfg) && SameCandidates(p, q) && DistinctTrains(p)
    requires !OverdueTier(cfg, p)
    requires Decides(cfg, p, d) && Decides(cfg, q, e)
    ensures d == e
  {
    SameContenders(cfg, p, q);
    if Open(cfg, p) && AnyFeasible(cfg, p) {
      var c, f := Unbeaten(cfg, p, q, d, e);
      StringLessTrichotomy(c.trainId, f.trainId);
      assert !NormalBetter(RankOf(cfg, p, f), RankOf(cfg, p, c));
      assert !NormalBetter(RankOf(cfg, p, c), RankOf(cfg, p, f));
      assert c == f;
    }
  }

  // Two different contenders share the best (waiting, score) pair of the overdue tier.
  ghost predicate TopTied(cfg: PolicyConfig, ctx: Context)
    requires ValidConfig(cfg)
  {
    exists c, e :: TiedPair(cfg, ctx, c, e)
  }

  ghost predicate TiedPair(cfg: PolicyConfig, ctx: Context, c: Candidate, e: Candidate)
    requires ValidConfig(cfg)
  {
    && c != e && Contender(cfg, ctx, c) && Contender(cfg, ctx, e)
    && Waiting(ctx, c) == Waiting(ctx, e) && Score(cfg, ctx, c) == Score(cfg, ctx, e)
    && forall other | Contender(cfg, ctx, other) :: !OverdueBetter(RankOf(cfg, ctx, other), RankOf(cfg, ctx, c))
  }

  function Reordered(ctx: Context, cs: seq<Candidate>): Context {
    ctx.(corridor := ctx.corridor.(candidates := cs))
  }

  // Every reordering of the candidates leads to the same decision.
  ghost predicate OrderFree(cfg: PolicyConfig, ctx: Context)
    requires ValidConfig(cfg)
  {
    forall p, q, d, e | SameCandidates(ctx, p) && SameCandidates(ctx, q) && Decides(cfg, p, d) && Decides(cfg, q, e) ::
      d == e
  }

  // With `c` put first, a tied `c` is the one released.
  lemma TiedFirstWins(cfg: PolicyConfig, ctx: Context, c: Candidate, e: Candidate)
    requires ValidConfig(cfg) && Open(cfg, ctx) && OverdueTier(cfg, ctx) && TiedPair(cfg, ctx, c, e)
    ensures var q := Reordered(ctx, [c] + ctx.corridor.candidates);
      SameCandidates(ctx, q) && Decides(cfg, q, ReleaseOf(cfg, ctx, c))
  {
    var q := Reordered(ctx, [c] + ctx.corridor.candidates);
    assert SameCandidates(ctx, q);
    SameContenders(cfg, ctx, q);
    SameRank(cfg, ctx, q, c);
    var cs := q.corridor.candidates;
    forall j | 0 <= j < |cs| && Contender(cfg, q, cs[j])
      ensures !Better(true, RankOf(cfg, q, cs[j]), RankOf(cfg, q, c))
    {
      assert Contender(cfg, ctx, cs[j]);
      SameRank(cfg, ctx, q, cs[j]);
    }
    assert cs[0] == c && Contender(cfg, q, c);
    assert Chosen(cfg, q, 0);
  }

  /** In the overdue tier there is no train-id tie-break: the decision is independent of
      the candidates' order exactly when the best (waiting, score) pair is not tied. */
  lemma OverdueOrderFreeIff(cfg: PolicyConfig, ctx: Context)
    requires ValidConfig(cfg) && Open(cfg, ctx) && OverdueTier(cfg, ctx) && DistinctTrains(ctx)
    ensures OrderFree(cfg, ctx) <==> !TopTied(cfg, ctx)
  {
    if TopTied(cfg, ctx) {
      var c, e :| TiedPair(cfg, ctx, c, e);
      TiedFirstWins(cfg, ctx, c, e);
      assert TiedPair(cfg, ctx, e, c);
      TiedFirstWins(cfg, ctx, e, c);
      assert ReleaseOf(cfg, ctx, c) != ReleaseOf(cfg, ctx, e);
    } else {
      forall p, q, d, e | SameCandidates(ctx, p) && SameCandidates(ctx, q) && Decides(cfg, p, d) && Decides(cfg, q, e)
        ensures d == e
      {
        UntiedAgree(cfg, ctx, p, q, d, e);
      }
    }
  }

  lemma UntiedAgree(cfg: PolicyConfig, ctx: Context, p: Context, q: Context, d: Decision, e: Decision)
    requires ValidConfig(cfg) && Open(cfg, ctx) && OverdueTier(cfg, ctx) && !TopTied(cfg, ctx)
    requires SameCandidates(ctx, p) && SameCandidates(ctx, q) && Decides(cfg, p, d) && Decides(cfg, q, e)
    ensures d == e
  {
    SameContenders(cfg, ctx, p);
    SameContenders(cfg, ctx, q);
    var c, f := Unbeaten(cfg, p, q, d, e);
    UntiedTop(cfg, ctx, p, c, f);
  }

  lemma UntiedTop(cfg: PolicyConfig, ctx: Context, p: Context, c: Candidate, f: Candidate)
    requires ValidConfig(cfg) && OverdueTier(cfg, ctx) && !TopTied(cfg, ctx) && SameCandidates(ctx, p)
    requires Contender(cfg, p, c) && Contender(cfg, p, f)
    requires forall other | Contender(cfg, p, other) ::
      && !Better(OverdueTier(cfg, p), RankOf(cfg, p, other), RankOf(cfg, p, c))
      && !Better(OverdueTier(cfg, p), RankOf(cfg, p, other), RankOf(cfg, p, f))
    ensures c == f
  {
    SameContenders(cfg, ctx, p);
    SameRank(cfg, ctx, p, c);
    SameRank(cfg, ctx, p, f);
    forall other | Contender(cfg, ctx, other)
      ensures !OverdueBetter(RankOf(cfg, ctx, other), RankOf(cfg, ctx, c))
    {
      assert Contender(cfg, p, other);
      SameRank(cfg, ctx, p, other);
    }
    assert !OverdueBetter(RankOf(cfg, p, c), RankOf(cfg, p, f));
    assert !OverdueBetter(RankOf(cfg, p, f), RankOf(cfg, p, c));
    assert c != f ==> TiedPair(cfg, ctx, c, f);
  }
}
