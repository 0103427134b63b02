/** What a run of the dispatch manager leaves behind, on the fields of its resources and lines:
    every field is traced to the calls that last set it, and credit to the time passed. */
module DispatchLaws {
  import opened Basics
  import opened Reservations
  import opened Policy
  import opened DispatchSpec
  import opened DispatchRuns

  // ----- credit -----

  // The call plans the known resource `r`.
  predicate PlansAt(s: State, c: Label, r: string) {
    c.Plan? && c.resource == r && r in s.corridors
  }

  // The call sets the state of line `l` at `r`.
  predicate SetsLine(c: Label, r: string, l: string) {
    c.SetLine? && c.resource == r && c.line == l && r != "" && l != "" && c.lineState.targetHeadway != 0
  }

  // A train of line `l` is confirmed to enter `r`.
  predicate LineEnters(s: State, c: Label, r: string, l: string) {
    && c.Confirm? && c.resource == r && r in s.pending && r in s.corridors
    && s.pending[r].trainId == c.train && s.pending[r].lineId == l
  }

  predicate HasLine(s: State, r: string, l: string) {
    r in s.lines && l in s.lines[r]
  }

  // The line's state between calls that set it and entries of its trains: planning credits it
  // with the target headways passed since the last update, up to three, and otherwise it stays.
  predicate LineGoesOn(s: State, c: Label, t: State, r: string, l: string)
    requires HasLine(s, r, l) && HasLine(t, r, l)
  {
    var a, b := s.lines[r][l], t.lines[r][l];
    if PlansAt(s, c, r) then Updated(a, b, c.simulationNow) else b == a
  }

  predicate Updated(a: LineState, b: LineState, now: nat) {
    && b.targetHeadway == a.targetHeadway && a.targetHeadway > 0 && b.lastRelease == a.lastRelease
    && b.lastCreditUpdate == now
    && b.credit == if a.lastCreditUpdate == 0 || now < a.lastCreditUpdate then a.credit
                   else Capped(a.credit + (now - a.lastCreditUpdate) as real / a.targetHeadway as real)
  }

  function Capped(x: real): real {
    if x > 3.0 then 3.0 else x
  }

  lemma LineStep(cfg: ManagerConfig, s: State, c: Label, t: State, r: string, l: string)
    requires ValidManagerConfig(cfg) && Step(cfg, s, c, t) && HasLine(s, r, l)
    ensures HasLine(t, r, l)
    ensures !SetsLine(c, r, l) && !LineEnters(s, c, r, l) ==> LineGoesOn(s, c, t, r, l)
    ensures SetsLine(c, r, l) ==> t.lines[r][l] == c.lineState
  {
    if c.Plan? {
      LinePlanned(s, c.resource, c.simulationNow, c.decision, r, l);
    } else if c.Confirm? {
      LineConfirmed(s, c.resource, c.train, c.simulationNow, r, l);
    } else {
      LineElsewhere(cfg, s, c, r, l);
    }
  }

  lemma LinePlanned(s: State, p: string, now: nat, d: Decision, r: string, l: string)
    requires GoodLines(s) && HasLine(s, r, l)
    ensures var t := Planned(s, p, now, d);
      && HasLine(t, r, l)
      && if p == r && r in s.corridors then Updated(s.lines[r][l], t.lines[r][l], now)
         else t.lines[r][l] == s.lines[r][l]
  {
    assert PositiveTargets(s.lines[r]);
  }

  lemma LineConfirmed(s: State, p: string, train: string, now: nat, r: string, l: string)
    requires HasLine(s, r, l)
    ensures var t := Confirmed(s, p, train, now);
      && HasLine(t, r, l)
      && (LineEnters(s, Confirm(p, train, now), r, l) || t.lines[r][l] == s.lines[r][l])
  {
  }

  lemma LineElsewhere(cfg: ManagerConfig, s: State, c: Label, r: string, l: string)
    requires GoodLines(s) && HasLine(s, r, l) && !c.Plan? && !c.Confirm?
    ensures HasLine(Next(cfg, s, c), r, l)
    ensures Next(cfg, s, c).lines[r][l] == if SetsLine(c, r, l) then c.lineState else s.lines[r][l]
  {
  }

  // Call `i` leaves the line alone, and plans not before its last update.
  predicate Undisturbed(states: seq<State>, labels: seq<Label>, i: nat, r: string, l: string)
    requires i < |labels| <= |states|
  {
    && !SetsLine(labels[i], r, l) && !LineEnters(states[i], labels[i], r, l)
    && (PlansAt(states[i], labels[i], r) && HasLine(states[i], r, l) ==>
          labels[i].simulationNow >= states[i].lines[r][l].lastCreditUpdate)
  }

  // The last planning of `r` among the calls from `k` on and before `n`.
  function LastPlan(states: seq<State>, labels: seq<Label>, k: nat, n: nat, r: string): (i: Option<nat>)
    requires k <= n <= |labels| <= |states|
    ensures i.Some? ==> k <= i.value < n && PlansAt(states[i.value], labels[i.value], r)
  {
    if n == k then None
    else if PlansAt(states[n - 1], labels[n - 1], r) then Some(n - 1)
    else LastPlan(states, labels, k, n - 1, r)
  }

  // From `a` the line came to `b`, last planned at time `last`.
  predicate Earned(a: LineState, b: LineState, last: Option<nat>) {
    match last
    case None => b == a
    case Some(now) =>
      && b.targetHeadway == a.targetHeadway && a.targetHeadway > 0 && b.lastRelease == a.lastRelease
      && b.lastCreditUpdate == now >= a.lastCreditUpdate
      && b.credit == Capped(a.credit + (now - a.lastCreditUpdate) as real / a.targetHeadway as real)
  }

  function TimeOf(labels: seq<Label>, i: Option<nat>): Option<nat>
    requires i.Some? ==> i.value < |labels| && labels[i.value].Plan?
  {
    if i.Some? then Some(labels[i.value].simulationNow) else None
  }

  /** The credit a line earns over any stretch in which it is neither set nor released, the
      clock going forward: the target headways between its last update and the last planning of
      the resource, up to three in all, however often the resource is planned in between. */
  lemma {:induction false} CreditEarned(
    cfg: ManagerConfig, states: seq<State>, labels: seq<Label>, k: nat, n: nat, r: string, l: string)
    requires ValidManagerConfig(cfg) && IsRun(cfg, states, labels) && k <= n <= |labels|
    requires HasLine(states[k], r, l) && states[k].lines[r][l].lastCreditUpdate > 0
    requires forall i | k <= i < n :: Undisturbed(states, labels, i, r, l)
    ensures HasLine(states[n], r, l)
    ensures Earned(states[k].lines[r][l], states[n].lines[r][l], TimeOf(labels, LastPlan(states, labels, k, n, r)))
  {
    if n > k {
      CreditEarned(cfg, states, labels, k, n - 1, r, l);
      assert StepAt(cfg, states, labels, n - 1) && Undisturbed(states, labels, n - 1, r, l);
      LineStep(cfg, states[n - 1], labels[n - 1], states[n], r, l);
      if PlansAt(states[n - 1], labels[n - 1], r) {
        EarnedNext(states[k].lines[r][l], states[n - 1].lines[r][l], states[n].lines[r][l],
                   TimeOf(labels, LastPlan(states, labels, k, n - 1, r)), labels[n - 1].simulationNow);
      }
    }
  }

  lemma EarnedNext(a: LineState, m: LineState, b: LineState, last: Option<nat>, now: nat)
    requires a.lastCreditUpdate > 0 && Earned(a, m, last) && Updated(m, b, now) && now >= m.lastCreditUpdate
    ensures Earned(a, b, Some(now))
  {
    if last.Some? {
      EarnedTwice(a.credit, a.lastCreditUpdate, m.lastCreditUpdate, now, a.targetHeadway);
    }
  }

  // Earning in two parts is earning at once.
  lemma EarnedTwice(credit: real, from: nat, mid: nat, to: nat, target: nat)
    requires from <= mid <= to && target > 0
    ensures Capped(Capped(credit + (mid - from) as real / target as real) + (to - mid) as real / target as real)
         == Capped(credit + (to - from) as real / target as real)
  {
    var x, y := (mid - from) as real / target as real, (to - mid) as real / target as real;
    assert (to - from) as real == (mid - from) as real + (to - mid) as real;
    assert x + y == (to - from) as real / target as real;
    assert x >= 0.0 && y >= 0.0;
  }

  /** What an entry charges its line: the release is dated, a unit of credit is spent if there
      is one, and a line without a state starts from a target of fifteen seconds. */
  lemma EntryCharges(cfg: ManagerConfig, states: seq<State>, labels: seq<Label>, j: nat, r: string, l: string)
    requires ValidManagerConfig(cfg) && IsRun(cfg, states, labels) && j < |labels|
    requires LineEnters(states[j], labels[j], r, l)
    ensures HasLine(states[j + 1], r, l)
    ensures var b, now := states[j + 1].lines[r][l], labels[j].simulationNow;
      && b.lastRelease == now && b.lastCreditUpdate == now
      && if HasLine(states[j], r, l) then
           var a := states[j].lines[r][l];
           && b.targetHeadway == a.targetHeadway
           && b.credit == if a.credit >= 1.0 then a.credit - 1.0 else 0.0
         else b.targetHeadway == 15000 && b.credit == 0.0
  {
    assert StepAt(cfg, states, labels, j);
  }

  /** A line has a state only because it was set, or because one of its trains entered. */
  lemma LineOrigin(cfg: ManagerConfig, states: seq<State>, labels: seq<Label>, j: nat, r: string, l: string)
    requires ValidManagerConfig(cfg) && IsRun(cfg, states, labels) && j < |labels|
    ensures SetsLine(labels[j], r, l) ==> HasLine(states[j + 1], r, l) && states[j + 1].lines[r][l] == labels[j].lineState
    ensures HasLine(states[j + 1], r, l) ==>
      HasLine(states[j], r, l) || SetsLine(labels[j], r, l) || LineEnters(states[j], labels[j], r, l)
  {
    assert StepAt(cfg, states, labels, j);
    var s, c := states[j], labels[j];
    if c.Confirm? {
      ConfirmedOrigin(s, c.resource, c.train, c.simulationNow, r, l);
    } else if c.Plan? {
      PlannedOrigin(s, c.resource, c.simulationNow, c.decision, r, l);
    } else {
      OtherOrigin(cfg, s, c, r, l);
    }
  }

  lemma ConfirmedOrigin(s: State, p: string, train: string, now: nat, r: string, l: string)
    ensures HasLine(Confirmed(s, p, train, now), r, l) ==> HasLine(s, r, l) || LineEnters(s, Confirm(p, train, now), r, l)
  {
  }

  lemma PlannedOrigin(s: State, p: string, now: nat, d: Decision, r: string, l: string)
    requires GoodLines(s)
    ensures HasLine(Planned(s, p, now, d), r, l) ==> HasLine(s, r, l)
  {
  }

  lemma OtherOrigin(cfg: ManagerConfig, s: State, c: Label, r: string, l: string)
    requires GoodLines(s) && !c.Plan? && !c.Confirm?
    ensures SetsLine(c, r, l) ==> HasLine(Next(cfg, s, c), r, l) && Next(cfg, s, c).lines[r][l] == c.lineState
    ensures HasLine(Next(cfg, s, c), r, l) ==> HasLine(s, r, l) || SetsLine(c, r, l)
  {
  }

  // ----- settings of a resource -----

  // The call describes resource `r`.
  predicate Describes(c: Label, r: string) {
    c.Upsert? && c.corridor.resourceId == r && r != ""
  }

  // The resource is as described, with the defaults where nothing is given.
  predicate AsDescribed(cfg: ManagerConfig, c: Corridor, given: Corridor) {
    && c.resourceId == given.resourceId && c.corridorId == given.corridorId && c.direction == given.direction
    && c.downstreamAvailable == given.downstreamAvailable
    && c.minimumHeadway == (if given.minimumHeadway == 0 then cfg.policy.defaultMinimumHeadway else given.minimumHeadway)
    && c.capacity == (if given.capacity == 0 then cfg.defaultCapacity else given.capacity)
  }

  // The last of the first `n` calls that describes `r`.
  function LastDescription(labels: seq<Label>, n: nat, r: string): (i: Option<nat>)
    requires n <= |labels|
    ensures i.Some? ==> i.value < n && Describes(labels[i.value], r)
  {
    if n == 0 then None
    else if Describes(labels[n - 1], r) then Some(n - 1)
    else LastDescription(labels, n - 1, r)
  }

  /** At every moment a resource is known exactly if it was described, and what does not move
      with the trains is as last described. */
  lemma {:induction false} SettingsAreLatest(
    cfg: ManagerConfig, states: seq<State>, labels: seq<Label>, n: nat, r: string)
    requires ValidManagerConfig(cfg) && IsRun(cfg, states, labels) && n <= |labels|
    ensures match LastDescription(labels, n, r)
      case None => r !in states[n].corridors
      case Some(i) => r in states[n].corridors && AsDescribed(cfg, states[n].corridors[r], labels[i].corridor)
  {
    if n > 0 {
      SettingsAreLatest(cfg, states, labels, n - 1, r);
      assert StepAt(cfg, states, labels, n - 1);
      SettingsStep(cfg, states[n - 1], labels[n - 1], r);
    }
  }

  lemma SettingsStep(cfg: ManagerConfig, s: State, c: Label, r: string)
    requires GoodLines(s)
    ensures var t := Next(cfg, s, c);
      if Describes(c, r) then r in t.corridors && AsDescribed(cfg, t.corridors[r], c.corridor)
      else
        && (r in t.corridors <==> r in s.corridors)
        && (r in s.corridors ==> SameSettings(s.corridors[r], t.corridors[r]))
  {
    if c.Upsert? {
      SettingsUpserted(cfg, s, c.corridor, r);
    } else if c.Confirm? {
      SettingsConfirmed(s, c.resource, c.train, c.simulationNow, r);
    } else if !c.Replace? {
      OnlyMoves(cfg, s, c, r);
    }
  }

  lemma SettingsUpserted(cfg: ManagerConfig, s: State, c: Corridor, r: string)
    ensures var t := Upserted(cfg, s, c);
      if c.resourceId == r && r != "" then r in t.corridors && AsDescribed(cfg, t.corridors[r], c)
      else
        && (r in t.corridors <==> r in s.corridors)
        && (r in s.corridors ==> SameSettings(s.corridors[r], t.corridors[r]))
  {
  }

  lemma SettingsConfirmed(s: State, p: string, train: string, now: nat, r: string)
    ensures var t := Confirmed(s, p, train, now);
      && (r in t.corridors <==> r in s.corridors)
      && (r in s.corridors ==> SameSettings(s.corridors[r], t.corridors[r]))
  {
  }

  // Only what moves with the trains differs.
  ghost predicate TrackOnly(s: State, t: State, r: string) {
    && (r in t.corridors <==> r in s.corridors)
    && (r in s.corridors ==>
          && SameSettings(s.corridors[r], t.corridors[r])
          && t.corridors[r].candidates == s.corridors[r].candidates
          && t.corridors[r].receivedWall == s.corridors[r].receivedWall)
  }

  predicate SameEntry(s: State, t: State, r: string) {
    r in s.corridors && r in t.corridors ==> t.corridors[r].lastEntry == s.corridors[r].lastEntry
  }

  lemma OnlyMoves(cfg: ManagerConfig, s: State, c: Label, r: string)
    requires GoodLines(s) && !c.Upsert? && !c.Replace? && !c.Confirm?
    ensures TrackOnly(s, Next(cfg, s, c), r)
    ensures !c.RestoreActive? ==> SameEntry(s, Next(cfg, s, c), r)
  {
    match c
    case Plan(p, now, _, d) => OnlyPlanned(s, p, now, d, r);
    case CancelPending(p) => OnlyCancelled(s, p, r);
    case RestorePending(d) => OnlyRestored(s, d, r);
    case RestoreActive(d) => OnlyActivated(s, d, r);
    case Exit(p) => OnlyExited(s, p, r);
    case _ =>
  }

  lemma OnlyPlanned(s: State, p: string, now: nat, d: Decision, r: string)
    requires GoodLines(s)
    ensures TrackOnly(s, Planned(s, p, now, d), r) && SameEntry(s, Planned(s, p, now, d), r)
  {
  }

  lemma OnlyCancelled(s: State, p: string, r: string)
    ensures TrackOnly(s, PendingCancelled(s, p), r) && SameEntry(s, PendingCancelled(s, p), r)
  {
  }

  lemma OnlyRestored(s: State, d: Decision, r: string)
    ensures TrackOnly(s, PendingRestored(s, d), r) && SameEntry(s, PendingRestored(s, d), r)
  {
  }

  lemma OnlyActivated(s: State, d: Decision, r: string)
    ensures TrackOnly(s, ActiveRestored(s, d), r)
  {
  }

  lemma OnlyExited(s: State, p: string, r: string)
    ensures TrackOnly(s, Exited(s, p), r) && SameEntry(s, Exited(s, p), r)
  {
  }

  predicate SameSettings(c: Corridor, e: Corridor) {
    && e.resourceId == c.resourceId && e.corridorId == c.corridorId && e.direction == c.direction
    && e.downstreamAvailable == c.downstreamAvailable && e.minimumHeadway == c.minimumHeadway
    && e.capacity == c.capacity
  }

  // ----- the waiting trains -----

  // The call gives the waiting trains of resource `r`.
  predicate GivesList(s: State, c: Label, r: string) {
    Describes(c, r) || (c.Replace? && c.resource == r && r in s.corridors)
  }

  function ListGiven(c: Label): seq<Candidate>
    requires c.Upsert? || c.Replace?
  {
    if c.Upsert? then c.corridor.candidates else c.candidates
  }

  function GivenAt(c: Label): nat
    requires c.Upsert? || c.Replace?
  {
    if c.Upsert? then c.corridor.receivedWall else c.wallNow
  }

  // Train `train` is confirmed to enter `r`.
  predicate TrainEnters(s: State, c: Label, r: string) {
    c.Confirm? && c.resource == r && r in s.pending && r in s.corridors && s.pending[r].trainId == c.train
  }

  function LastList(states: seq<State>, labels: seq<Label>, n: nat, r: string): (i: Option<nat>)
    requires n <= |labels| <= |states|
    ensures i.Some? ==> i.value < n && GivesList(states[i.value], labels[i.value], r)
  {
    if n == 0 then None
    else if GivesList(states[n - 1], labels[n - 1], r) then Some(n - 1)
    else LastList(states, labels, n - 1, r)
  }

  // The trains that entered `r` by the calls from `k` on and before `n`.
  function Gone(states: seq<State>, labels: seq<Label>, k: nat, n: nat, r: string): set<string>
    requires k <= n <= |labels| <= |states|
  {
    if n == k then {}
    else if TrainEnters(states[n - 1], labels[n - 1], r) then Gone(states, labels, k, n - 1, r) + {labels[n - 1].train}
    else Gone(states, labels, k, n - 1, r)
  }

  // What is left of the list, in order, without those trains.
  function Without(list: seq<Candidate>, gone: set<string>): seq<Candidate> {
    if list == [] then []
    else
      var front, last := Without(list[..|list| - 1], gone), list[|list| - 1];
      if last.trainId in gone then front else front + [last]
  }

  // The candidates at the places `who` of the list are those left, in order.
  ghost predicate LeftOf(list: seq<Candidate>, gone: set<string>, left: seq<Candidate>, who: seq<nat>) {
    && |who| == |left|
    && (forall k, l | 0 <= k < l < |who| :: who[k] < who[l])
    && (forall n :: n in who <==> 0 <= n < |list| && list[n].trainId !in gone)
    && (forall k | 0 <= k < |who| :: who[k] < |list| && left[k] == list[who[k]])
  }

  // The places of those left.
  function Places(list: seq<Candidate>, gone: set<string>): seq<nat> {
    if list == [] then []
    else
      var front := Places(list[..|list| - 1], gone);
      if list[|list| - 1].trainId in gone then front else front + [|list| - 1]
  }

  lemma {:induction false} PlacesAre(list: seq<Candidate>, gone: set<string>)
    ensures var who := Places(list, gone);
      && (forall k, l | 0 <= k < l < |who| :: who[k] < who[l])
      && (forall n :: n in who <==> 0 <= n < |list| && list[n].trainId !in gone)
  {
    if list != [] {
      PlacesAre(list[..|list| - 1], gone);
      var front := Places(list[..|list| - 1], gone);
      assert forall k | 0 <= k < |front| :: front[k] in front;
    }
  }

  lemma {:induction false} WithoutAtPlaces(list: seq<Candidate>, gone: set<string>)
    ensures var who, left := Places(list, gone), Without(list, gone);
      && |who| == |left|
      && (forall k | 0 <= k < |who| :: who[k] < |list| && left[k] == list[who[k]])
  {
    if list != [] {
      WithoutAtPlaces(list[..|list| - 1], gone);
    }
  }

  lemma {:induction false} WithoutOneMore(list: seq<Candidate>, gone: set<string>, train: string)
    ensures WithoutCandidate(Without(list, gone), train) == Without(list, gone + {train})
  {
    if list != [] {
      var front, last := list[..|list| - 1], list[|list| - 1];
      WithoutOneMore(front, gone, train);
      var kept := Without(front, gone);
      assert (kept + [last])[..|kept|] == kept;
    }
  }

  lemma {:induction false} WithoutNobody(list: seq<Candidate>)
    ensures Without(list, {}) == list
  {
    if list != [] {
      WithoutNobody(list[..|list| - 1]);
    }
  }

  /** At every moment the trains waiting at a known resource are those of the last list given,
      in its order, without the trains that entered since; and the list is dated as given. */
  lemma WaitingAreLatest(cfg: ManagerConfig, states: seq<State>, labels: seq<Label>, n: nat, r: string)
    returns (i: nat, who: seq<nat>)
    requires ValidManagerConfig(cfg) && IsRun(cfg, states, labels) && n <= |labels| && r in states[n].corridors
    ensures LastList(states, labels, n, r) == Some(i)
    ensures states[n].corridors[r].receivedWall == GivenAt(labels[i])
    ensures LeftOf(ListGiven(labels[i]), Gone(states, labels, i + 1, n, r), states[n].corridors[r].candidates, who)
  {
    WaitingAre(cfg, states, labels, n, r);
    i := LastList(states, labels, n, r).value;
    LeftAtPlaces(labels[i], Gone(states, labels, i + 1, n, r), states[n].corridors[r]);
    var list, gone := ListGiven(labels[i]), Gone(states, labels, i + 1, n, r);
    who := Places(list, gone);
  }

  lemma LeftAtPlaces(given: Label, gone: set<string>, c: Corridor)
    requires given.Upsert? || given.Replace?
    requires StillWaiting(given, gone, c)
    ensures LeftOf(ListGiven(given), gone, c.candidates, Places(ListGiven(given), gone))
  {
    PlacesAre(ListGiven(given), gone);
    WithoutAtPlaces(ListGiven(given), gone);
  }

  lemma {:induction false} WaitingAre(cfg: ManagerConfig, states: seq<State>, labels: seq<Label>, n: nat, r: string)
    requires ValidManagerConfig(cfg) && IsRun(cfg, states, labels) && n <= |labels| && r in states[n].corridors
    ensures LastList(states, labels, n, r).Some?
    ensures var i := LastList(states, labels, n, r).value;
      StillWaiting(labels[i], Gone(states, labels, i + 1, n, r), states[n].corridors[r])
  {
    assert n > 0;
    var s, c := states[n - 1], labels[n - 1];
    assert StepAt(cfg, states, labels, n - 1);
    WaitingStep(cfg, s, c, r);
    if GivesList(s, c, r) {
      WithoutNobody(ListGiven(c));
    } else {
      WaitingAre(cfg, states, labels, n - 1, r);
      var i := LastList(states, labels, n - 1, r).value;
      StillWaitingNext(s, c, labels[i], Gone(states, labels, i + 1, n - 1, r), states[n].corridors[r], r);
    }
  }

  predicate StillWaiting(given: Label, gone: set<string>, c: Corridor)
    requires given.Upsert? || given.Replace?
  {
    c.receivedWall == GivenAt(given) && c.candidates == Without(ListGiven(given), gone)
  }

  lemma StillWaitingNext(s: State, c: Label, given: Label, gone: set<string>, e: Corridor, r: string)
    requires given.Upsert? || given.Replace?
    requires r in s.corridors && StillWaiting(given, gone, s.corridors[r])
    requires !GivesList(s, c, r) && WaitingGoesOn(s, c, e, r)
    ensures StillWaiting(given, if TrainEnters(s, c, r) then gone + {c.train} else gone, e)
  {
    if TrainEnters(s, c, r) {
      WithoutOneMore(ListGiven(given), gone, c.train);
    }
  }

  lemma WaitingStep(cfg: ManagerConfig, s: State, c: Label, r: string)
    requires GoodLines(s) && r in Next(cfg, s, c).corridors
    ensures WaitingGoesOn(s, c, Next(cfg, s, c).corridors[r], r)
  {
    if c.Confirm? {
      WaitingConfirmed(s, c.resource, c.train, c.simulationNow, r);
    } else if c.Upsert? {
      WaitingUpserted(cfg, s, c.corridor, r);
    } else if !c.Replace? {
      OnlyMoves(cfg, s, c, r);
    }
  }

  predicate WaitingGoesOn(s: State, c: Label, e: Corridor, r: string) {
    if GivesList(s, c, r) then e.candidates == ListGiven(c) && e.receivedWall == GivenAt(c)
    else
      && r in s.corridors && e.receivedWall == s.corridors[r].receivedWall
      && e.candidates == if TrainEnters(s, c, r) then WithoutCandidate(s.corridors[r].candidates, c.train)
                         else s.corridors[r].candidates
  }

  lemma WaitingConfirmed(s: State, p: string, train: string, now: nat, r: string)
    requires r in Confirmed(s, p, train, now).corridors
    ensures WaitingGoesOn(s, Confirm(p, train, now), Confirmed(s, p, train, now).corridors[r], r)
  {
  }

  lemma WaitingUpserted(cfg: ManagerConfig, s: State, c: Corridor, r: string)
    requires r in Upserted(cfg, s, c).corridors
    ensures WaitingGoesOn(s, Upsert(c), Upserted(cfg, s, c).corridors[r], r)
  {
  }

  // ----- the last entry -----

  // What the call says of the last entry at `r`: a description and an accepted row count for
  // no less than they say, and an entry for what it says.
  ghost function Dated(s: State, c: Label, r: string): Option<nat> {
    if Describes(c, r) then Some(c.corridor.lastEntry)
    else if TrainEnters(s, c, r) then Some(c.simulationNow)
    else if c.RestoreActive? && c.decision.resourceId == r && CanRestoreActive(s, c.decision) then Some(c.decision.issuedAt)
    else None
  }

  // The last of the first `n` calls by which a train entered `r`, or the first call of all.
  function LastEntered(states: seq<State>, labels: seq<Label>, n: nat, r: string): (i: nat)
    requires n <= |labels| <= |states|
    ensures i <= n && (i < n && i > 0 ==> TrainEnters(states[i], labels[i], r))
  {
    if n == 0 then 0
    else if TrainEnters(states[n - 1], labels[n - 1], r) then n - 1
    else LastEntered(states, labels, n - 1, r)
  }

  ghost predicate DatedBy(states: seq<State>, labels: seq<Label>, k: nat, n: nat, r: string, e: nat)
    requires n <= |labels| <= |states|
  {
    && (exists i :: k <= i < n && Dated(states[i], labels[i], r) == Some(e))
    && (forall i | k <= i < n && Dated(states[i], labels[i], r).Some? :: Dated(states[i], labels[i], r).value <= e)
  }

  /** At every moment the last entry of a resource is the latest of the date of its last
      confirmed entry and of all that descriptions and restored rows said since. */
  lemma {:induction false} LastEntryIsLatest(
    cfg: ManagerConfig, states: seq<State>, labels: seq<Label>, n: nat, r: string)
    requires ValidManagerConfig(cfg) && IsRun(cfg, states, labels) && n <= |labels| && r in states[n].corridors
    ensures DatedBy(states, labels, LastEntered(states, labels, n, r), n, r, states[n].corridors[r].lastEntry)
  {
    assert n > 0;
    var s, c := states[n - 1], labels[n - 1];
    assert StepAt(cfg, states, labels, n - 1);
    LastEntryStep(cfg, s, c, r);
    if TrainEnters(s, c, r) {
      assert Dated(s, c, r) == Some(states[n].corridors[r].lastEntry);
    } else if r in s.corridors {
      LastEntryIsLatest(cfg, states, labels, n - 1, r);
      DatedNext(states, labels, LastEntered(states, labels, n - 1, r), n, r, s.corridors[r].lastEntry,
                states[n].corridors[r].lastEntry);
    } else {
      Undated(cfg, states, labels, n - 1, r);
      assert Dated(s, c, r) == Some(states[n].corridors[r].lastEntry);
    }
  }

  lemma LastEntryStep(cfg: ManagerConfig, s: State, c: Label, r: string)
    requires GoodLines(s) && r in Next(cfg, s, c).corridors
    ensures EntryGoesOn(s, c, r, Next(cfg, s, c).corridors[r].lastEntry)
  {
    if c.Confirm? {
      EntryConfirmed(s, c.resource, c.train, c.simulationNow, r);
    } else if c.Upsert? {
      EntryUpserted(cfg, s, c.corridor, r);
    } else if c.RestoreActive? {
      EntryRestored(s, c.decision, r);
    } else if !c.Replace? {
      OnlyMoves(cfg, s, c, r);
    }
  }

  ghost predicate EntryGoesOn(s: State, c: Label, r: string, e: nat) {
    if TrainEnters(s, c, r) || r !in s.corridors then Dated(s, c, r) == Some(e)
    else LaterOf(s.corridors[r].lastEntry, Dated(s, c, r), e)
  }

  lemma EntryConfirmed(s: State, p: string, train: string, now: nat, r: string)
    requires r in Confirmed(s, p, train, now).corridors
    ensures EntryGoesOn(s, Confirm(p, train, now), r, Confirmed(s, p, train, now).corridors[r].lastEntry)
  {
  }

  lemma EntryUpserted(cfg: ManagerConfig, s: State, c: Corridor, r: string)
    requires r in Upserted(cfg, s, c).corridors
    ensures EntryGoesOn(s, Upsert(c), r, Upserted(cfg, s, c).corridors[r].lastEntry)
  {
  }

  lemma EntryRestored(s: State, d: Decision, r: string)
    requires r in ActiveRestored(s, d).corridors
    ensures EntryGoesOn(s, RestoreActive(d), r, ActiveRestored(s, d).corridors[r].lastEntry)
  {
  }

  predicate LaterOf(was: nat, said: Option<nat>, e: nat) {
    match said
    case None => e == was
    case Some(d) => e == if d > was then d else was
  }

  lemma DatedNext(states: seq<State>, labels: seq<Label>, k: nat, n: nat, r: string, was: nat, e: nat)
    requires 0 < n <= |labels| <= |states| && DatedBy(states, labels, k, n - 1, r, was)
    requires LaterOf(was, Dated(states[n - 1], labels[n - 1], r), e)
    ensures DatedBy(states, labels, k, n, r, e)
  {
    var i :| k <= i < n - 1 && Dated(states[i], labels[i], r) == Some(was);
    assert e == was || Dated(states[n - 1], labels[n - 1], r) == Some(e);
  }

  // An unknown resource was never dated.
  lemma {:induction false} Undated(cfg: ManagerConfig, states: seq<State>, labels: seq<Label>, n: nat, r: string)
    requires ValidManagerConfig(cfg) && IsRun(cfg, states, labels) && n <= |labels| && r !in states[n].corridors
    ensures forall i | 0 <= i < n :: Dated(states[i], labels[i], r) == None
    ensures LastEntered(states, labels, n, r) == 0
  {
    if n > 0 {
      assert StepAt(cfg, states, labels, n - 1);
      SettingsStep(cfg, states[n - 1], labels[n - 1], r);
      Undated(cfg, states, labels, n - 1, r);
    }
  }

  // ----- what planning weighs -----

  // Another direction of `r`'s corridor is occupied or has a pending command.
  predicate InUse(s: State, r: string, o: string)
    requires r in s.corridors
  {
    && o in s.corridors && o != r && s.corridors[o].corridorId == s.corridors[r].corridorId
    && (s.corridors[o].occupancy > 0 || s.corridors[o].commandPending)
  }

  function UseOf(c: Corridor): Reason {
    if c.occupancy > 0 then OpposingDirectionOccupied else OpposingDirectionPending
  }

  ghost predicate OppositeInUse(s: State, r: string)
    requires r in s.corridors
  {
    exists o :: InUse(s, r, o)
  }

  predicate Holds(d: Decision, c: Corridor, action: Action) {
    && d.action == action && d.resourceId == c.resourceId && d.corridorId == c.corridorId
    && d.direction == c.direction && d.trainId == "" && d.lineId == "" && d.movementIds == []
  }

  /** While the other direction of its corridor is in use, nobody is released at a resource,
      and the decision says whether it is occupied or pending. */
  lemma OppositeHolds(cfg: ManagerConfig, s: State, r: string, now: nat, wallNow: nat, d: Decision)
    requires ValidManagerConfig(cfg) && Structural(s) && PlanResult(cfg, s, r, now, wallNow, d)
    requires r in s.corridors && OppositeInUse(s, r)
    ensures Holds(d, s.corridors[r], if s.corridors[r].candidates == [] then NoAction else HoldAll)
    ensures exists o :: InUse(s, r, o) && d.reason == UseOf(s.corridors[o])
  {
    var o :| InUse(s, r, o);
    assert Opposing(s, r, o);
    var p :| Opposing(s, r, p) &&
      d == MakeDecision(if s.corridors[r].candidates == [] then NoAction else HoldAll, s.corridors[r],
                        if s.corridors[p].occupancy > 0 then OpposingDirectionOccupied else OpposingDirectionPending);
    assert InUse(s, r, p) && d.reason == UseOf(s.corridors[p]);
  }

  /** A stored row of a train is accepted exactly when its resource is known and not in use the
      other way, and its movements can be reserved at the time of its issue; a pending one
      moreover needs a resource without a pending command. */
  lemma RestorableIff(s: State, d: Decision)
    ensures CanRestoreActive(s, d) <==>
      && d.resourceId in s.corridors && !OppositeInUse(s, d.resourceId)
      && d.trainId != "" && Reservable(s.book, d.movementIds, d.issuedAt)
    ensures CanRestorePending(s, d) <==> CanRestoreActive(s, d) && !s.corridors[d.resourceId].commandPending
  {
    if d.resourceId in s.corridors {
      NotBlocked(s, d.resourceId);
    }
  }

  // The places `who` are those of the candidates all of whose movements can be reserved.
  ghost predicate Passable(b: Book, list: seq<Candidate>, now: nat, left: seq<Candidate>, who: seq<nat>) {
    && |who| == |left|
    && (forall k, l | 0 <= k < l < |who| :: who[k] < who[l])
    && (forall n :: n in who <==> 0 <= n < |list| && Reservable(b, list[n].movementIds, now))
    && (forall k | 0 <= k < |who| :: who[k] < |list| && left[k] == list[who[k]])
  }

  ghost function PassablePlaces(b: Book, list: seq<Candidate>, now: nat): seq<nat> {
    if list == [] then []
    else
      var front := PassablePlaces(b, list[..|list| - 1], now);
      if Reservable(b, list[|list| - 1].movementIds, now) then front + [|list| - 1] else front
  }

  lemma {:induction false} PassablePlacesAre(b: Book, list: seq<Candidate>, now: nat)
    ensures var who := PassablePlaces(b, list, now);
      && (forall k, l | 0 <= k < l < |who| :: who[k] < who[l])
      && (forall n :: n in who <==> 0 <= n < |list| && Reservable(b, list[n].movementIds, now))
  {
    if list != [] {
      PassablePlacesAre(b, list[..|list| - 1], now);
      var front := PassablePlaces(b, list[..|list| - 1], now);
      assert forall k | 0 <= k < |front| :: front[k] in front;
    }
  }

  lemma {:induction false} AdmittedAtPlaces(b: Book, list: seq<Candidate>, now: nat)
    ensures var who, left := PassablePlaces(b, list, now), Admitted(b, list, now);
      && |who| == |left|
      && (forall k | 0 <= k < |who| :: who[k] < |list| && left[k] == list[who[k]])
  {
    if list != [] {
      AdmittedAtPlaces(b, list[..|list| - 1], now);
    }
  }

  // What the policy is given: the resource with the candidates at the places `who`, its lines
  // with the credit they have earned by now, and its release history.
  ghost predicate Given(s: State, r: string, now: nat, wallNow: nat, ctx: Context, who: seq<nat>)
    requires r in s.corridors
  {
    && ctx.simulationNow == now && ctx.wallNow == wallNow
    && ctx.corridor == s.corridors[r].(candidates := ctx.corridor.candidates)
    && Passable(s.book, s.corridors[r].candidates, now, ctx.corridor.candidates, who)
    && ctx.lastReleasedLine == (if r in s.lastLine then s.lastLine[r] else "")
    && ctx.consecutiveReleases == (if r in s.consecutive then s.consecutive[r] else 0)
    && (forall l :: l in ctx.lines <==> HasLine(s, r, l))
    && (forall l | l in ctx.lines :: HasLine(s, r, l) && Updated(s.lines[r][l], ctx.lines[l], now))
  }

  /** Otherwise planning decides by the policy on the candidates whose movements can all be
      reserved, with credit earned up to now; but if there are candidates and none can, it holds
      for what is in the way of the last. */
  lemma PlanningWeighs(cfg: ManagerConfig, s: State, r: string, now: nat, wallNow: nat, d: Decision)
    returns (ctx: Context, who: seq<nat>)
    requires ValidManagerConfig(cfg) && Structural(s) && PlanResult(cfg, s, r, now, wallNow, d)
    requires r in s.corridors && !OppositeInUse(s, r)
    ensures Given(s, r, now, wallNow, ctx, who)
    ensures var cs := s.corridors[r].candidates;
      if cs != [] && who == [] then
        && Holds(d, s.corridors[r], HoldAll) && d.reason.IntersectionRefused?
        && Explains(s.book, cs[|cs| - 1].movementIds, now, d.reason.refusal)
      else Decides(cfg.policy, ctx, d)
  {
    ctx := PlanContext(s, r, now, wallNow);
    who := PassablePlaces(s.book, s.corridors[r].candidates, now);
    PassablePlacesAre(s.book, s.corridors[r].candidates, now);
    AdmittedAtPlaces(s.book, s.corridors[r].candidates, now);
    NotBlocked(s, r);
    LinesWeighed(s, r, now);
  }

  lemma NotBlocked(s: State, r: string)
    requires r in s.corridors
    ensures Blocked(s, r) <==> OppositeInUse(s, r)
  {
    if o :| Opposing(s, r, o) {
      assert InUse(s, r, o);
    }
    if o :| InUse(s, r, o) {
      assert Opposing(s, r, o);
    }
  }

  lemma LinesWeighed(s: State, r: string, now: nat)
    requires GoodLines(s)
    ensures PositiveTargets(LinesAt(s, r))
    ensures var lines := CreditAll(LinesAt(s, r), now);
      && (forall l :: l in lines <==> HasLine(s, r, l))
      && (forall l | l in lines :: HasLine(s, r, l) && Updated(s.lines[r][l], lines[l], now))
  {
  }
}
