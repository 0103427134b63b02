/** The corridor interlock as a transition system on values: what each operation of the
    dispatch manager does to its state, and what a run of operations is. */
module DispatchSpec {
  import opened Basics
  import opened Reservations
  import opened Policy

  datatype ManagerConfig = ManagerConfig(
    policy: PolicyConfig,
    defaultClearance: nat,
    defaultCapacity: nat)

  datatype State = State(
    corridors: map<string, Corridor>,
    lines: map<string, map<string, LineState>>,
    lastLine: map<string, string>,
    consecutive: map<string, nat>,
    pending: map<string, Decision>,
    book: Book)

  // One call of the manager, with the decision a planning call returned.
  datatype Label =
    | RegisterMovement(movement: Movement)
    | Upsert(corridor: Corridor)
    | SetLine(resource: string, line: string, lineState: LineState)
    | Replace(resource: string, candidates: seq<Candidate>, wallNow: nat)
    | Plan(resource: string, simulationNow: nat, wallNow: nat, decision: Decision)
    | Confirm(resource: string, train: string, simulationNow: nat)
    | CancelPending(resource: string)
    | RestorePending(decision: Decision)
    | RestoreActive(decision: Decision)
    | Exit(resource: string)
    | ClearIntersection(intersectionId: string, train: string, simulationNow: nat)

  predicate ValidManagerConfig(cfg: ManagerConfig) {
    ValidConfig(cfg.policy) && cfg.defaultClearance > 0 && cfg.defaultCapacity > 0
  }

  function EmptyState(cfg: ManagerConfig): State {
    State(map[], map[], map[], map[], map[], EmptyBook(cfg.defaultClearance))
  }

  const DefaultLine := LineState(15000, 0, 0, 0.0)
  const UnknownDecision :=
    Decision(NoAction, 0, "", "", Forward, "", "", 0, 0, [], UnknownResource, 0.0)

  predicate Busy(c: Corridor) {
    c.occupancy > 0 || c.commandPending
  }

  /** `o` is another direction of `r`'s physical corridor and is occupied or pending. */
  predicate Opposing(s: State, r: string, o: string)
    requires r in s.corridors
  {
    && o in s.corridors && o != r
    && s.corridors[o].corridorId == s.corridors[r].corridorId
    && Busy(s.corridors[o])
  }

  ghost predicate Blocked(s: State, r: string)
    requires r in s.corridors
  {
    exists o :: Opposing(s, r, o)
  }

  // ----- setup -----

  function Upserted(cfg: ManagerConfig, s: State, c: Corridor): State {
    if c.resourceId == "" then s
    else
      var merged := if c.resourceId !in s.corridors then c
        else c.(commandPending := s.corridors[c.resourceId].commandPending,
                lastEntry := Max(c.lastEntry, s.corridors[c.resourceId].lastEntry));
      var timed := if merged.minimumHeadway == 0
        then merged.(minimumHeadway := cfg.policy.defaultMinimumHeadway) else merged;
      var sized := if timed.capacity == 0 then timed.(capacity := cfg.defaultCapacity) else timed;
      s.(corridors := s.corridors[c.resourceId := sized])
  }

  function LinesAt(s: State, r: string): map<string, LineState> {
    if r in s.lines then s.lines[r] else map[]
  }

  function LineWasSet(s: State, r: string, line: string, ls: LineState): State {
    if r == "" || line == "" || ls.targetHeadway == 0 then s
    else s.(lines := s.lines[r := LinesAt(s, r)[line := ls]])
  }

  function Replaced(s: State, r: string, cs: seq<Candidate>, wallNow: nat): State {
    if r !in s.corridors then s
    else s.(corridors := s.corridors[r := s.corridors[r].(candidates := cs, receivedWall := wallNow)])
  }

  // ----- planning -----

  function CreditLine(l: LineState, now: nat): LineState
    requires l.targetHeadway > 0
  {
    if l.lastCreditUpdate == 0 || now < l.lastCreditUpdate then l.(lastCreditUpdate := now)
    else
      var earned := (now - l.lastCreditUpdate) as real / l.targetHeadway as real;
      l.(credit := MinReal(3.0, l.credit + earned), lastCreditUpdate := now)
  }

  ghost predicate PositiveTargets(lines: map<string, LineState>) {
    forall l <- lines :: lines[l].targetHeadway > 0
  }

  ghost predicate GoodLines(s: State) {
    forall r <- s.lines :: PositiveTargets(s.lines[r])
  }

  function CreditAll(lines: map<string, LineState>, now: nat): map<string, LineState>
    requires PositiveTargets(lines)
  {
    map l | l in lines :: CreditLine(lines[l], now)
  }

  function LastLineAt(s: State, r: string): string {
    if r in s.lastLine then s.lastLine[r] else ""
  }

  function ConsecutiveAt(s: State, r: string): nat {
    if r in s.consecutive then s.consecutive[r] else 0
  }

  // Planning first accrues credits and creates the resource's history entries.
  function Touched(s: State, r: string, now: nat): State
    requires GoodLines(s)
  {
    s.(lines := s.lines[r := CreditAll(LinesAt(s, r), now)],
       lastLine := s.lastLine[r := LastLineAt(s, r)],
       consecutive := s.consecutive[r := ConsecutiveAt(s, r)])
  }

  // The candidates whose movements could all be reserved now, in order.
  ghost function Admitted(b: Book, cs: seq<Candidate>, now: nat): seq<Candidate> {
    if cs == [] then []
    else
      var front := Admitted(b, cs[..|cs| - 1], now);
      var last := cs[|cs| - 1];
      if Reservable(b, last.movementIds, now) then front + [last] else front
  }

  ghost function PlanContext(s: State, r: string, simulationNow: nat, wallNow: nat): Context
    requires GoodLines(s) && r in s.corridors
  {
    var c := s.corridors[r];
    Context(c.(candidates := Admitted(s.book, c.candidates, simulationNow)),
            CreditAll(LinesAt(s, r), simulationNow), LastLineAt(s, r), ConsecutiveAt(s, r),
            simulationNow, wallNow)
  }

  /** Which decisions planning may return in state `s`. */
  ghost predicate PlanResult(cfg: ManagerConfig, s: State, r: string, simulationNow: nat, wallNow: nat, d: Decision)
    requires ValidManagerConfig(cfg) && GoodLines(s)
  {
    if r !in s.corridors then d == UnknownDecision
    else
      var c := s.corridors[r];
      if Blocked(s, r) then
        exists o :: Opposing(s, r, o) &&
          d == MakeDecision(if c.candidates == [] then NoAction else HoldAll, c,
                            if s.corridors[o].occupancy > 0 then OpposingDirectionOccupied
                            else OpposingDirectionPending)
      else if c.candidates != [] && Admitted(s.book, c.candidates, simulationNow) == [] then
        && d.reason.IntersectionRefused?
        && d == MakeDecision(HoldAll, c, d.reason)
        && Explains(s.book, c.candidates[|c.candidates| - 1].movementIds, simulationNow, d.reason.refusal)
      else
        Decides(cfg.policy, PlanContext(s, r, simulationNow, wallNow), d)
  }

  function Planned(s: State, r: string, simulationNow: nat, d: Decision): State
    requires GoodLines(s)
  {
    if r !in s.corridors then s
    else
      var t := Touched(s, r, simulationNow);
      if d.action != Release then t
      else t.(corridors := t.corridors[r := t.corridors[r].(commandPending := true)],
              pending := t.pending[r := d],
              book := Reserved(t.book, d.trainId, d.movementIds, simulationNow))
  }

  // ----- acknowledgement -----

  predicate CanConfirm(s: State, r: string, train: string) {
    r in s.pending && r in s.corridors && s.pending[r].trainId == train
  }

  function WithoutCandidate(cs: seq<Candidate>, train: string): seq<Candidate> {
    if cs == [] then []
    else
      var front := WithoutCandidate(cs[..|cs| - 1], train);
      var last := cs[|cs| - 1];
      if last.trainId == train then front else front + [last]
  }

  function Entered(c: Corridor, train: string, now: nat): Corridor {
    c.(commandPending := false, lastEntry := now,
       occupancy := if c.occupancy < c.capacity then c.occupancy + 1 else c.occupancy,
       candidates := WithoutCandidate(c.candidates, train))
  }

  function Confirmed(s: State, r: string, train: string, now: nat): State {
    if !CanConfirm(s, r, train) then s
    else
      var line := s.pending[r].lineId;
      var l := if line in LinesAt(s, r) then LinesAt(s, r)[line] else DefaultLine;
      var charged := l.(lastRelease := now, lastCreditUpdate := now, credit := MaxReal(0.0, l.credit - 1.0));
      s.(corridors := s.corridors[r := Entered(s.corridors[r], train, now)],
         lines := s.lines[r := LinesAt(s, r)[line := charged]],
         lastLine := s.lastLine[r := line],
         consecutive := s.consecutive[r := if LastLineAt(s, r) == line then ConsecutiveAt(s, r) + 1 else 1],
         pending := s.pending - {r})
  }

  function PendingCancelled(s: State, r: string): State {
    if r !in s.pending then s
    else s.(corridors := if r in s.corridors
                         then s.corridors[r := s.corridors[r].(commandPending := false)] else s.corridors,
            pending := s.pending - {r},
            book := Cancelled(s.book, s.pending[r].trainId))
  }

  // ----- recovery -----

  ghost predicate CanRestorePending(s: State, d: Decision) {
    && d.resourceId in s.corridors && !s.corridors[d.resourceId].commandPending
    && !Blocked(s, d.resourceId)
    && d.trainId != "" && Reservable(s.book, d.movementIds, d.issuedAt)
  }

  ghost function PendingRestored(s: State, d: Decision): State {
    if !CanRestorePending(s, d) then s
    else s.(corridors := s.corridors[d.resourceId := s.corridors[d.resourceId].(commandPending := true)],
            pending := s.pending[d.resourceId := d],
            book := Reserved(s.book, d.trainId, d.movementIds, d.issuedAt))
  }

  ghost predicate CanRestoreActive(s: State, d: Decision) {
    && d.resourceId in s.corridors && !Blocked(s, d.resourceId)
    && d.trainId != "" && Reservable(s.book, d.movementIds, d.issuedAt)
  }

  ghost function ActiveRestored(s: State, d: Decision): State {
    if !CanRestoreActive(s, d) then s
    else
      var c := s.corridors[d.resourceId];
      var entered := c.(occupancy := if c.occupancy < c.capacity then c.occupancy + 1 else c.occupancy,
                        lastEntry := Max(c.lastEntry, d.issuedAt));
      s.(corridors := s.corridors[d.resourceId := entered],
         book := Reserved(s.book, d.trainId, d.movementIds, d.issuedAt))
  }

  // ----- leaving -----

  predicate CanExit(s: State, r: string) {
    r in s.corridors && s.corridors[r].occupancy > 0
  }

  function Exited(s: State, r: string): State {
    if !CanExit(s, r) then s
    else s.(corridors := s.corridors[r := s.corridors[r].(occupancy := s.corridors[r].occupancy - 1)])
  }

  // ----- steps and runs -----

  ghost function Next(cfg: ManagerConfig, s: State, l: Label): State
    requires GoodLines(s)
  {
    match l
    case RegisterMovement(m) => if WellNamed(m) then s.(book := Registered(s.book, m)) else s
    case Upsert(c) => Upserted(cfg, s, c)
    case SetLine(r, line, ls) => LineWasSet(s, r, line, ls)
    case Replace(r, cs, wallNow) => Replaced(s, r, cs, wallNow)
    case Plan(r, simulationNow, _, d) => Planned(s, r, simulationNow, d)
    case Confirm(r, train, now) => Confirmed(s, r, train, now)
    case CancelPending(r) => PendingCancelled(s, r)
    case RestorePending(d) => PendingRestored(s, d)
    case RestoreActive(d) => ActiveRestored(s, d)
    case Exit(r) => Exited(s, r)
    case ClearIntersection(ix, train, now) => s.(book := Cleared(s.book, ix, train, now))
  }

  ghost predicate Step(cfg: ManagerConfig, s: State, l: Label, t: State)
    requires ValidManagerConfig(cfg)
  {
    && GoodLines(s)
    && (l.Plan? ==> PlanResult(cfg, s, l.resource, l.simulationNow, l.wallNow, l.decision))
    && t == Next(cfg, s, l)
  }

  ghost predicate StepAt(cfg: ManagerConfig, states: seq<State>, labels: seq<Label>, i: nat)
    requires ValidManagerConfig(cfg) && i < |labels| < |states|
  {
    Step(cfg, states[i], labels[i], states[i + 1])
  }

  /** A run of the manager from its construction on. */
  ghost predicate IsRun(cfg: ManagerConfig, states: seq<State>, labels: seq<Label>)
    requires ValidManagerConfig(cfg)
  {
    && |states| == |labels| + 1 && states[0] == EmptyState(cfg)
    && forall i | 0 <= i < |labels| :: StepAt(cfg, states, labels, i)
  }

  lemma RunGrows(cfg: ManagerConfig, states: seq<State>, labels: seq<Label>, t: State, l: Label)
    requires ValidManagerConfig(cfg) && IsRun(cfg, states, labels) && Step(cfg, states[|labels|], l, t)
    ensures IsRun(cfg, states + [t], labels + [l])
  {
    var ss, ls := states + [t], labels + [l];
    forall i | 0 <= i < |ls| ensures StepAt(cfg, ss, ls, i) {
      if i < |labels| {
        assert StepAt(cfg, states, labels, i);
        SameStep(cfg, states, labels, ss, ls, i);
      } else {
        LastStep(cfg, states, labels, t, l);
      }
    }
  }

  lemma LastStep(cfg: ManagerConfig, states: seq<State>, labels: seq<Label>, t: State, l: Label)
    requires ValidManagerConfig(cfg) && |states| == |labels| + 1 && Step(cfg, states[|labels|], l, t)
    ensures StepAt(cfg, states + [t], labels + [l], |labels|)
  {
    assert (states + [t])[|labels|] == states[|labels|] && (states + [t])[|labels| + 1] == t;
  }

  lemma SameStep(cfg: ManagerConfig, states: seq<State>, labels: seq<Label>, ss: seq<State>, ls: seq<Label>, i: nat)
    requires ValidManagerConfig(cfg) && i < |labels| < |states| && i < |ls| < |ss|
    requires StepAt(cfg, states, labels, i) && ss[i] == states[i] && ls[i] == labels[i] && ss[i + 1] == states[i + 1]
    ensures StepAt(cfg, ss, ls, i)
  {
  }

  ghost predicate GoodCorridors(s: State) {
    forall r <- s.corridors ::
      && r != "" && s.corridors[r].resourceId == r
      && s.corridors[r].minimumHeadway > 0 && s.corridors[r].capacity > 0
  }

  /** What holds of every reachable state, whatever the caller does. */
  ghost predicate Structural(s: State) {
    GoodCorridors(s) && GoodLines(s) && Keyed(s.book)
  }

  lemma StepKeepsCorridors(cfg: ManagerConfig, s: State, l: Label)
    requires ValidManagerConfig(cfg) && GoodCorridors(s) && GoodLines(s)
    ensures GoodCorridors(Next(cfg, s, l))
  {
  }

  lemma StepKeepsLines(cfg: ManagerConfig, s: State, l: Label)
    requires GoodLines(s)
    ensures GoodLines(Next(cfg, s, l))
  {
    match l
    case Plan(r, now, _, d) => assert PositiveTargets(CreditAll(LinesAt(s, r), now));
    case Confirm(r, train, now) => assert PositiveTargets(LinesAt(s, r));
    case SetLine(r, line, ls) => assert PositiveTargets(LinesAt(s, r));
    case _ =>
  }

  lemma StepKeepsKeyed(cfg: ManagerConfig, s: State, l: Label)
    requires GoodLines(s) && Keyed(s.book)
    ensures Keyed(Next(cfg, s, l).book)
  {
  }

  lemma StepKeepsStructural(cfg: ManagerConfig, s: State, l: Label, t: State)
    requires ValidManagerConfig(cfg) && Structural(s) && Step(cfg, s, l, t)
    ensures Structural(t)
  {
    StepKeepsCorridors(cfg, s, l);
    StepKeepsLines(cfg, s, l);
    StepKeepsKeyed(cfg, s, l);
  }

  lemma {:induction false} RunIsStructural(cfg: ManagerConfig, states: seq<State>, labels: seq<Label>, n: nat)
    requires ValidManagerConfig(cfg) && IsRun(cfg, states, labels) && n < |states|
    ensures Structural(states[n])
  {
    if n > 0 {
      RunIsStructural(cfg, states, labels, n - 1);
      assert StepAt(cfg, states, labels, n - 1);
      StepKeepsStructural(cfg, states[n - 1], labels[n - 1], states[n]);
    }
  }
}
