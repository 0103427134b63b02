/** Safety of whole runs of the dispatch manager: the opposite-direction interlock, exact
    accounting of releases, entries and exits, entry spacing, and the release counter. */
module DispatchRuns {
  import opened Basics
  import opened Reservations
  import opened Policy
  import opened DispatchSpec
  import opened DispatchManagers
  import R = ReservationRuns

  // ----- the interlock -----

  /** At most one directional resource of a physical corridor is occupied or pending. */
  ghost predicate Interlocked(s: State) {
    forall p, q | p in s.corridors && q in s.corridors && p != q
                  && s.corridors[p].corridorId == s.corridors[q].corridorId ::
      || (s.corridors[p].occupancy == 0 && !s.corridors[p].commandPending)
      || (s.corridors[q].occupancy == 0 && !s.corridors[q].commandPending)
  }

  /** The pending flag and the table of pending decisions say the same. */
  ghost predicate PendingAgrees(s: State) {
    && s.pending.Keys <= s.corridors.Keys
    && forall r <- s.corridors :: s.corridors[r].commandPending <==> r in s.pending
  }

  ghost predicate WithinCapacity(s: State) {
    forall r <- s.corridors :: s.corridors[r].occupancy <= s.corridors[r].capacity
  }

  ghost predicate Safe(s: State) {
    Structural(s) && Interlocked(s) && PendingAgrees(s) && WithinCapacity(s)
  }

  /** `Upsert` overwrites occupancy, so it is for idle resources, described as idle. */
  predicate IdleUpsert(s: State, l: Label) {
    l.Upsert? ==>
      && !Busy(l.corridor)
      && (l.corridor.resourceId in s.corridors ==> !Busy(s.corridors[l.corridor.resourceId]))
  }

  ghost predicate SafeRun(cfg: ManagerConfig, states: seq<State>, labels: seq<Label>)
    requires ValidManagerConfig(cfg)
  {
    IsRun(cfg, states, labels) && forall i | 0 <= i < |labels| :: IdleAt(states, labels, i)
  }

  predicate IdleAt(states: seq<State>, labels: seq<Label>, i: nat)
    requires i < |labels| <= |states|
  {
    IdleUpsert(states[i], labels[i])
  }

  /** What the checks before a release establish about the resource. */
  ghost predicate Guarded(s: State, l: Label) {
    l.Plan? && l.decision.action == Release ==>
      var r := l.resource;
      && r in s.corridors && !Blocked(s, r)
      && !s.corridors[r].commandPending && s.corridors[r].occupancy < s.corridors[r].capacity
      && (s.corridors[r].lastEntry == 0
          || s.corridors[r].lastEntry + s.corridors[r].minimumHeadway <= l.simulationNow)
      && l.simulationNow > 0 && l.decision.lineId != ""
  }

  // One step, with what the planning checks guarantee but not how they decide.
  ghost predicate Moves(cfg: ManagerConfig, s: State, l: Label, t: State) {
    GoodLines(s) && Guarded(s, l) && t == Next(cfg, s, l)
  }

  lemma StepMoves(cfg: ManagerConfig, s: State, l: Label, t: State)
    requires ValidManagerConfig(cfg) && Structural(s) && Step(cfg, s, l, t)
    ensures Moves(cfg, s, l, t)
  {
    if l.Plan? && l.decision.action == Release {
      PlannedReleaseIsReservable(cfg, s, l.resource, l.simulationNow, l.wallNow, l.decision);
    }
  }

  lemma StepKeepsPendingAgrees(cfg: ManagerConfig, s: State, l: Label, t: State)
    requires PendingAgrees(s) && IdleUpsert(s, l) && Moves(cfg, s, l, t)
    ensures PendingAgrees(t)
  {
  }

  lemma StepKeepsCapacity(cfg: ManagerConfig, s: State, l: Label, t: State)
    requires WithinCapacity(s) && IdleUpsert(s, l) && Moves(cfg, s, l, t)
    ensures WithinCapacity(t)
  {
  }

  // A step makes `r` busy only if no opposing direction is, and then changes only `r`.
  lemma BusyOnlyIfUnblocked(cfg: ManagerConfig, s: State, l: Label, t: State, r: string)
    requires PendingAgrees(s) && IdleUpsert(s, l) && Moves(cfg, s, l, t)
    requires r in t.corridors && Busy(t.corridors[r])
    ensures r in s.corridors && t.corridors[r].corridorId == s.corridors[r].corridorId
    ensures !Busy(s.corridors[r]) ==>
      && !Blocked(s, r) && t.corridors.Keys == s.corridors.Keys
      && forall o | o in s.corridors && o != r :: t.corridors[o] == s.corridors[o]
  {
  }

  lemma StepKeepsInterlock(cfg: ManagerConfig, s: State, l: Label, t: State)
    requires Interlocked(s) && PendingAgrees(s) && IdleUpsert(s, l) && Moves(cfg, s, l, t)
    ensures Interlocked(t)
  {
    forall p, q | p in t.corridors && q in t.corridors && p != q && Busy(t.corridors[p]) && Busy(t.corridors[q])
      ensures t.corridors[p].corridorId != t.corridors[q].corridorId
    {
      BusyOnlyIfUnblocked(cfg, s, l, t, p);
      BusyOnlyIfUnblocked(cfg, s, l, t, q);
      assert !Busy(s.corridors[p]) ==> !Opposing(s, p, q);
      assert !Busy(s.corridors[q]) ==> !Opposing(s, q, p);
    }
  }

  lemma StepKeepsSafe(cfg: ManagerConfig, s: State, l: Label, t: State)
    requires ValidManagerConfig(cfg) && Safe(s) && IdleUpsert(s, l) && Step(cfg, s, l, t)
    ensures Safe(t)
  {
    StepMoves(cfg, s, l, t);
    StepKeepsStructural(cfg, s, l, t);
    StepKeepsPendingAgrees(cfg, s, l, t);
    StepKeepsCapacity(cfg, s, l, t);
    StepKeepsInterlock(cfg, s, l, t);
  }

  /** In every reachable state, restores included, at most one direction is in use. */
  lemma {:induction false} AlwaysInterlocked(cfg: ManagerConfig, states: seq<State>, labels: seq<Label>, n: nat)
    requires ValidManagerConfig(cfg) && SafeRun(cfg, states, labels) && n < |states|
    ensures Safe(states[n])
  {
    if n > 0 {
      AlwaysInterlocked(cfg, states, labels, n - 1);
      assert StepAt(cfg, states, labels, n - 1) && IdleAt(states, labels, n - 1);
      StepKeepsSafe(cfg, states[n - 1], labels[n - 1], states[n]);
    }
  }

  // What the later arguments use of one step of a safe run.
  lemma RunStep(cfg: ManagerConfig, states: seq<State>, labels: seq<Label>, i: nat)
    requires ValidManagerConfig(cfg) && SafeRun(cfg, states, labels) && i < |labels|
    ensures Moves(cfg, states[i], labels[i], states[i + 1])
    ensures PendingAgrees(states[i]) && IdleUpsert(states[i], labels[i]) && Structural(states[i])
  {
    AlwaysInterlocked(cfg, states, labels, i);
    assert StepAt(cfg, states, labels, i) && IdleAt(states, labels, i);
    StepMoves(cfg, states[i], labels[i], states[i + 1]);
  }

  /** Exactly which upserts keep the interlock: those that leave the resource idle or
      whose corridor has no other busy direction. */
  lemma UpsertKeepsInterlockIff(cfg: ManagerConfig, s: State, c: Corridor)
    requires Interlocked(s) && c.resourceId != ""
    ensures var t := Upserted(cfg, s, c); var u := t.corridors[c.resourceId];
      Interlocked(t) <==>
        (Busy(u) ==> forall o | o in s.corridors && o != c.resourceId && s.corridors[o].corridorId == u.corridorId ::
                       !Busy(s.corridors[o]))
  {
    var t := Upserted(cfg, s, c);
    var u := t.corridors[c.resourceId];
    forall o | o in s.corridors && o != c.resourceId ensures o in t.corridors && t.corridors[o] == s.corridors[o] {
    }
  }

  // ----- events and their accounting -----

  datatype Event = Granted | Entry | Withdrawn | Departure

  // A right to enter `r` is granted: a planned release or a restored command.
  ghost predicate Grants(s: State, l: Label, r: string) {
    || (l.Plan? && l.resource == r && l.decision.action == Release)
    || (l.RestorePending? && l.decision.resourceId == r && CanRestorePending(s, l.decision))
    || (l.RestoreActive? && l.decision.resourceId == r && CanRestoreActive(s, l.decision))
  }

  ghost predicate Enters(s: State, l: Label, r: string) {
    || (l.Confirm? && l.resource == r && r in s.pending && r in s.corridors && s.pending[r].trainId == l.train)
    || (l.RestoreActive? && l.decision.resourceId == r && CanRestoreActive(s, l.decision))
  }

  predicate Withdraws(s: State, l: Label, r: string) {
    l.CancelPending? && l.resource == r && r in s.pending
  }

  predicate Departs(s: State, l: Label, r: string) {
    l.Exit? && l.resource == r && r in s.corridors && s.corridors[r].occupancy > 0
  }

  ghost predicate Happens(e: Event, s: State, l: Label, r: string) {
    match e
    case Granted => Grants(s, l, r)
    case Entry => Enters(s, l, r)
    case Withdrawn => Withdraws(s, l, r)
    case Departure => Departs(s, l, r)
  }

  // How often `e` happened at `r` in the first `n` steps.
  ghost function Count(states: seq<State>, labels: seq<Label>, n: nat, e: Event, r: string): nat
    requires n <= |labels| <= |states|
  {
    if n == 0 then 0
    else Count(states, labels, n - 1, e, r) + (if Happens(e, states[n - 1], labels[n - 1], r) then 1 else 0)
  }

  function PendingCount(c: Corridor): nat {
    if c.commandPending then 1 else 0
  }

  /** Restores are for rows that fit: a resource is not restored beyond its capacity. */
  ghost predicate RoomyRestore(s: State, l: Label) {
    && (l.RestorePending? && CanRestorePending(s, l.decision) ==>
          s.corridors[l.decision.resourceId].occupancy < s.corridors[l.decision.resourceId].capacity)
    && (l.RestoreActive? && CanRestoreActive(s, l.decision) ==>
          s.corridors[l.decision.resourceId].occupancy + PendingCount(s.corridors[l.decision.resourceId])
            < s.corridors[l.decision.resourceId].capacity)
  }

  ghost predicate AccountableRun(cfg: ManagerConfig, states: seq<State>, labels: seq<Label>)
    requires ValidManagerConfig(cfg)
  {
    SafeRun(cfg, states, labels) && forall i | 0 <= i < |labels| :: RoomyRestore(states[i], labels[i])
  }

  /** A pending command leaves room for its train. */
  ghost predicate PendingHasRoom(s: State) {
    forall r <- s.corridors :: s.corridors[r].occupancy + PendingCount(s.corridors[r]) <= s.corridors[r].capacity
  }

  lemma StepKeepsRoom(cfg: ManagerConfig, s: State, l: Label, t: State)
    requires PendingAgrees(s) && PendingHasRoom(s) && IdleUpsert(s, l) && RoomyRestore(s, l) && Moves(cfg, s, l, t)
    requires GoodCorridors(t)
    ensures PendingHasRoom(t)
  {
  }

  lemma {:induction false} PendingAlwaysHasRoom(cfg: ManagerConfig, states: seq<State>, labels: seq<Label>, n: nat)
    requires ValidManagerConfig(cfg) && AccountableRun(cfg, states, labels) && n < |states|
    ensures Safe(states[n]) && PendingHasRoom(states[n])
  {
    AlwaysInterlocked(cfg, states, labels, n);
    if n > 0 {
      PendingAlwaysHasRoom(cfg, states, labels, n - 1);
      RunStep(cfg, states, labels, n - 1);
      StepKeepsRoom(cfg, states[n - 1], labels[n - 1], states[n]);
    }
  }

  function Occupancy(s: State, r: string): nat {
    if r in s.corridors then s.corridors[r].occupancy else 0
  }

  function Pending(s: State, r: string): nat {
    if r in s.corridors then PendingCount(s.corridors[r]) else 0
  }

  function Delta(b: bool): int {
    if b then 1 else 0
  }

  // How one step changes the occupancy and the pending flag of any resource.
  lemma OccupancyAccounts(cfg: ManagerConfig, s: State, l: Label, t: State, r: string)
    requires PendingAgrees(s) && PendingHasRoom(s) && IdleUpsert(s, l) && RoomyRestore(s, l) && Moves(cfg, s, l, t)
    ensures Occupancy(t, r) == Occupancy(s, r) + Delta(Enters(s, l, r)) - Delta(Departs(s, l, r))
  {
    if l.RestoreActive? {
      RestoreAccounts(s, l.decision, r);
    } else if l.Confirm? {
      ConfirmAccounts(s, l.resource, l.train, l.simulationNow, r);
    } else {
      OthersAccount(cfg, s, l, t, r);
    }
  }

  lemma RestoreAccounts(s: State, d: Decision, r: string)
    requires RoomyRestore(s, RestoreActive(d))
    ensures Occupancy(ActiveRestored(s, d), r) == Occupancy(s, r) + Delta(Enters(s, RestoreActive(d), r))
  {
  }

  lemma ConfirmAccounts(s: State, at: string, train: string, now: nat, r: string)
    requires PendingAgrees(s) && PendingHasRoom(s)
    ensures Occupancy(Confirmed(s, at, train, now), r) == Occupancy(s, r) + Delta(Enters(s, Confirm(at, train, now), r))
  {
  }

  lemma OthersAccount(cfg: ManagerConfig, s: State, l: Label, t: State, r: string)
    requires PendingAgrees(s) && IdleUpsert(s, l) && Moves(cfg, s, l, t) && !l.RestoreActive? && !l.Confirm?
    ensures Occupancy(t, r) == Occupancy(s, r) - Delta(Departs(s, l, r))
  {
  }

  lemma PendingAccounts(cfg: ManagerConfig, s: State, l: Label, t: State, r: string)
    requires PendingAgrees(s) && IdleUpsert(s, l) && Moves(cfg, s, l, t)
    ensures Pending(t, r) == Pending(s, r) + Delta(Grants(s, l, r)) - Delta(Enters(s, l, r)) - Delta(Withdraws(s, l, r))
  {
  }

  /** Occupancy is entries minus exits, and a command is pending exactly when one more
      right was granted than was used or withdrawn. */
  lemma {:induction false} Accounting(cfg: ManagerConfig, states: seq<State>, labels: seq<Label>, n: nat, r: string)
    requires ValidManagerConfig(cfg) && AccountableRun(cfg, states, labels) && n <= |labels|
    ensures Occupancy(states[n], r)
         == Count(states, labels, n, Entry, r) - Count(states, labels, n, Departure, r)
    ensures Pending(states[n], r)
         == Count(states, labels, n, Granted, r) - Count(states, labels, n, Entry, r) - Count(states, labels, n, Withdrawn, r)
  {
    if n > 0 {
      Accounting(cfg, states, labels, n - 1, r);
      PendingAlwaysHasRoom(cfg, states, labels, n - 1);
      RunStep(cfg, states, labels, n - 1);
      OccupancyAccounts(cfg, states[n - 1], labels[n - 1], states[n], r);
      PendingAccounts(cfg, states[n - 1], labels[n - 1], states[n], r);
    }
  }

  /** When a right is granted in one direction, every right granted before in the other
      was withdrawn, or was used and the train has left. */
  lemma GrantAfterOtherDirectionDone(
    cfg: ManagerConfig, states: seq<State>, labels: seq<Label>, i: nat, r: string, o: string)
    requires ValidManagerConfig(cfg) && AccountableRun(cfg, states, labels) && i < |labels|
    requires Grants(states[i], labels[i], r)
    requires r in states[i].corridors && o in states[i].corridors && o != r
    requires states[i].corridors[o].corridorId == states[i].corridors[r].corridorId
    ensures Count(states, labels, i, Granted, o)
         == Count(states, labels, i, Entry, o) + Count(states, labels, i, Withdrawn, o)
    ensures Count(states, labels, i, Entry, o) == Count(states, labels, i, Departure, o)
  {
    Accounting(cfg, states, labels, i, o);
    RunStep(cfg, states, labels, i);
    assert !Opposing(states[i], r, o);
  }

  /** A restored train is counted exactly when the resource is below its capacity: a full
      resource accepts the row but does not count it. */
  lemma RestoreCountsIff(cfg: ManagerConfig, s: State, d: Decision)
    requires Safe(s) && CanRestoreActive(s, d)
    ensures Occupancy(ActiveRestored(s, d), d.resourceId) == Occupancy(s, d.resourceId) + 1
       <==> Occupancy(s, d.resourceId) < s.corridors[d.resourceId].capacity
  {
  }

  // ----- where a pending command came from -----

  ghost predicate LiveRun(cfg: ManagerConfig, states: seq<State>, labels: seq<Label>)
    requires ValidManagerConfig(cfg)
  {
    SafeRun(cfg, states, labels) && forall l <- labels :: !l.RestorePending? && !l.RestoreActive?
  }

  lemma LiveIsAccountable(cfg: ManagerConfig, states: seq<State>, labels: seq<Label>)
    requires ValidManagerConfig(cfg) && LiveRun(cfg, states, labels)
    ensures AccountableRun(cfg, states, labels)
  {
    forall i | 0 <= i < |labels| ensures RoomyRestore(states[i], labels[i]) {
      assert labels[i] in labels;
    }
  }

  predicate Releases(l: Label, r: string) {
    l.Plan? && l.resource == r && l.decision.action == Release
  }

  // The latest release of `r` before step `n`.
  function ReleaseIndex(labels: seq<Label>, n: nat, r: string): int
    requires n <= |labels|
    ensures -1 <= ReleaseIndex(labels, n, r) < n || ReleaseIndex(labels, n, r) == -1
  {
    if n == 0 then -1
    else if Releases(labels[n - 1], r) then n - 1
    else ReleaseIndex(labels, n - 1, r)
  }

  // `r` has the same history and limits in both states.
  ghost predicate SameHistory(s: State, t: State, r: string) {
    && r in s.corridors && r in t.corridors
    && t.corridors[r].lastEntry == s.corridors[r].lastEntry
    && t.corridors[r].minimumHeadway == s.corridors[r].minimumHeadway
    && LastLineAt(t, r) == LastLineAt(s, r) && ConsecutiveAt(t, r) == ConsecutiveAt(s, r)
  }

  /** A pending command is the latest release of its resource, and nothing in the
      resource's history changed since. */
  lemma {:induction false} PendingOrigin(cfg: ManagerConfig, states: seq<State>, labels: seq<Label>, n: nat, r: string)
    requires ValidManagerConfig(cfg) && LiveRun(cfg, states, labels) && n <= |labels|
    requires r in states[n].pending
    ensures var i := ReleaseIndex(labels, n, r);
      && 0 <= i < n && Releases(labels[i], r) && labels[i].decision == states[n].pending[r]
      && SameHistory(states[i], states[n], r)
  {
    assert n != 0;
    var s, l := states[n - 1], labels[n - 1];
    assert l in labels;
    RunStep(cfg, states, labels, n - 1);
    PendingStepBack(cfg, s, l, states[n], r);
    CorridorStepBack(cfg, s, l, states[n], r);
    CounterStepBack(cfg, s, l, states[n], r);
    if !Releases(l, r) {
      PendingOrigin(cfg, states, labels, n - 1, r);
    }
  }

  lemma PendingStepBack(cfg: ManagerConfig, s: State, l: Label, t: State, r: string)
    requires PendingAgrees(s) && Moves(cfg, s, l, t) && !l.RestorePending? && r in t.pending
    ensures if Releases(l, r) then t.pending[r] == l.decision else r in s.pending && t.pending[r] == s.pending[r]
    ensures !(l.Confirm? && Enters(s, l, r))
  {
  }

  lemma CorridorStepBack(cfg: ManagerConfig, s: State, l: Label, t: State, r: string)
    requires PendingAgrees(s) && IdleUpsert(s, l) && Moves(cfg, s, l, t) && !l.RestoreActive?
    requires Releases(l, r) || r in s.pending
    requires !(l.Confirm? && Enters(s, l, r))
    ensures r in s.corridors && r in t.corridors
    ensures t.corridors[r].lastEntry == s.corridors[r].lastEntry
    ensures t.corridors[r].minimumHeadway == s.corridors[r].minimumHeadway
  {
  }

  lemma CounterStepBack(cfg: ManagerConfig, s: State, l: Label, t: State, r: string)
    requires Moves(cfg, s, l, t) && !(l.Confirm? && Enters(s, l, r))
    ensures LastLineAt(t, r) == LastLineAt(s, r) && ConsecutiveAt(t, r) == ConsecutiveAt(s, r)
  {
  }

  // ----- entry spacing -----

  /** Confirmations are not dated before the release they confirm. */
  ghost predicate TimelyConfirms(states: seq<State>, labels: seq<Label>)
    requires |states| == |labels| + 1
  {
    forall j | 0 <= j < |labels| && labels[j].Confirm? && Enters(states[j], labels[j], labels[j].resource) ::
      var i := ReleaseIndex(labels, j, labels[j].resource);
      0 <= i && labels[i].Plan? ==> labels[i].simulationNow <= labels[j].simulationNow
  }

  ghost predicate EntersAt(states: seq<State>, labels: seq<Label>, j: nat, r: string)
    requires j < |labels| <= |states|
  {
    labels[j].Confirm? && Enters(states[j], labels[j], r)
  }

  // A confirmed entry respects the headway after the stored last entry.
  lemma EntryRespectsStoredHeadway(
    cfg: ManagerConfig, states: seq<State>, labels: seq<Label>, j: nat, r: string)
    requires ValidManagerConfig(cfg) && LiveRun(cfg, states, labels) && TimelyConfirms(states, labels)
    requires j < |labels| && EntersAt(states, labels, j, r)
    ensures r in states[j].corridors && labels[j].simulationNow > 0
    ensures var c := states[j].corridors[r];
      c.lastEntry == 0 || labels[j].simulationNow >= c.lastEntry + c.minimumHeadway
  {
    PendingOrigin(cfg, states, labels, j, r);
    var i := ReleaseIndex(labels, j, r);
    RunStep(cfg, states, labels, i);
  }

  // The stored last entry is at least every entry so far.
  lemma {:induction false} LastEntryDominates(
    cfg: ManagerConfig, states: seq<State>, labels: seq<Label>, k: nat, n: nat, r: string)
    requires ValidManagerConfig(cfg) && LiveRun(cfg, states, labels) && TimelyConfirms(states, labels)
    requires k < n <= |labels| && EntersAt(states, labels, k, r)
    ensures r in states[n].corridors && states[n].corridors[r].lastEntry >= labels[k].simulationNow > 0
  {
    EntryRespectsStoredHeadway(cfg, states, labels, k, r);
    if k + 1 < n {
      LastEntryDominates(cfg, states, labels, k, n - 1, r);
      if EntersAt(states, labels, n - 1, r) {
        EntryRespectsStoredHeadway(cfg, states, labels, n - 1, r);
      }
      RunStep(cfg, states, labels, n - 1);
      assert labels[n - 1] in labels;
      LastEntryGrows(cfg, states[n - 1], labels[n - 1], states[n], r);
    } else {
      RunStep(cfg, states, labels, k);
    }
  }

  lemma LastEntryGrows(cfg: ManagerConfig, s: State, l: Label, t: State, r: string)
    requires IdleUpsert(s, l) && Moves(cfg, s, l, t) && r in s.corridors && !l.RestoreActive?
    requires l.Confirm? && Enters(s, l, r) ==> l.simulationNow >= s.corridors[r].lastEntry
    ensures r in t.corridors && t.corridors[r].lastEntry >= s.corridors[r].lastEntry
  {
  }

  /** Any two entries of one directional resource are at least its minimum headway
      apart, and no entry happens at time zero, the "never entered" marker. */
  lemma EntriesKeepHeadway(
    cfg: ManagerConfig, states: seq<State>, labels: seq<Label>, k: nat, j: nat, r: string)
    requires ValidManagerConfig(cfg) && LiveRun(cfg, states, labels) && TimelyConfirms(states, labels)
    requires k < j < |labels| && EntersAt(states, labels, k, r) && EntersAt(states, labels, j, r)
    ensures labels[k].simulationNow > 0
    ensures r in states[j].corridors
    ensures labels[j].simulationNow >= labels[k].simulationNow + states[j].corridors[r].minimumHeadway
  {
    LastEntryDominates(cfg, states, labels, k, j, r);
    EntryRespectsStoredHeadway(cfg, states, labels, j, r);
  }

  // ----- headway across restores -----

  /** Confirmations are not dated before the stored last entry. */
  ghost predicate ForwardConfirms(states: seq<State>, labels: seq<Label>)
    requires |states| == |labels| + 1
  {
    forall j | 0 <= j < |labels| :: ForwardAt(states, labels, j)
  }

  ghost predicate ForwardAt(states: seq<State>, labels: seq<Label>, j: nat)
    requires j < |labels| <= |states|
  {
    labels[j].Confirm? && Enters(states[j], labels[j], labels[j].resource)
      && labels[j].resource in states[j].corridors ==>
      labels[j].simulationNow >= states[j].corridors[labels[j].resource].lastEntry
  }

  // The `k`-th call put a train on `r`, by a confirmed entry or by restoring an accepted row.
  ghost predicate PutsOn(states: seq<State>, labels: seq<Label>, k: nat, r: string)
    requires k < |labels| <= |states|
  {
    match labels[k]
    case Confirm(q, train, _) =>
      q == r && q in states[k].pending && q in states[k].corridors && states[k].pending[q].trainId == train
    case RestoreActive(d) => d.resourceId == r && CanRestoreActive(states[k], d)
    case _ => false
  }

  // When it did, by its own dating.
  function PutAt(l: Label): nat {
    match l
    case Confirm(_, _, now) => now
    case RestoreActive(d) => d.issuedAt
    case _ => 0
  }

  lemma LastEntryNeverFalls(cfg: ManagerConfig, s: State, l: Label, t: State, r: string)
    requires IdleUpsert(s, l) && Moves(cfg, s, l, t) && r in s.corridors
    requires l.Confirm? && CanConfirm(s, r, l.train) && l.resource == r ==> l.simulationNow >= s.corridors[r].lastEntry
    ensures r in t.corridors && t.corridors[r].lastEntry >= s.corridors[r].lastEntry
  {
  }

  lemma PutsOnIsStored(cfg: ManagerConfig, states: seq<State>, labels: seq<Label>, k: nat, r: string)
    requires ValidManagerConfig(cfg) && SafeRun(cfg, states, labels) && k < |labels| && PutsOn(states, labels, k, r)
    ensures r in states[k + 1].corridors && states[k + 1].corridors[r].lastEntry >= PutAt(labels[k])
  {
    RunStep(cfg, states, labels, k);
  }

  // The stored last entry covers every train put on the resource so far.
  lemma {:induction false} LastEntryCovers(
    cfg: ManagerConfig, states: seq<State>, labels: seq<Label>, k: nat, n: nat, r: string)
    requires ValidManagerConfig(cfg) && SafeRun(cfg, states, labels) && ForwardConfirms(states, labels)
    requires k < n <= |labels| && PutsOn(states, labels, k, r)
    ensures r in states[n].corridors && states[n].corridors[r].lastEntry >= PutAt(labels[k])
  {
    if n == k + 1 {
      PutsOnIsStored(cfg, states, labels, k, r);
    } else {
      LastEntryCovers(cfg, states, labels, k, n - 1, r);
      RunStep(cfg, states, labels, n - 1);
      assert ForwardAt(states, labels, n - 1);
      LastEntryNeverFalls(cfg, states[n - 1], labels[n - 1], states[n], r);
    }
  }

  /** A release comes at least the minimum headway after every train put on its resource
      before, be it by a confirmed entry or, after a restart, by an accepted row that was
      restored, dated by its issue. */
  lemma ReleaseKeepsHeadway(
    cfg: ManagerConfig, states: seq<State>, labels: seq<Label>, k: nat, j: nat, r: string)
    requires ValidManagerConfig(cfg) && SafeRun(cfg, states, labels) && ForwardConfirms(states, labels)
    requires k < j < |labels| && PutsOn(states, labels, k, r) && Releases(labels[j], r) && PutAt(labels[k]) > 0
    ensures r in states[j].corridors
    ensures labels[j].simulationNow >= PutAt(labels[k]) + states[j].corridors[r].minimumHeadway
  {
    LastEntryCovers(cfg, states, labels, k, j, r);
    RunStep(cfg, states, labels, j);
  }

  // ----- the consecutive-release counter -----

  // The lines of the trains that entered `r` in the first `n` steps, in order.
  ghost function EntryLines(states: seq<State>, labels: seq<Label>, n: nat, r: string): seq<string>
    requires n <= |labels| <= |states|
  {
    if n == 0 then []
    else
      var front := EntryLines(states, labels, n - 1, r);
      if EntersAt(states, labels, n - 1, r) then front + [states[n - 1].pending[r].lineId] else front
  }

  /** The longest suffix of one line has length `count`. */
  ghost predicate TrailingRun(lines: seq<string>, line: string, count: nat) {
    && count <= |lines|
    && (forall k | |lines| - count <= k < |lines| :: lines[k] == line)
    && (count < |lines| ==> lines[|lines| - count - 1] != line)
    && (lines == [] <==> count == 0)
  }

  ghost predicate CounterRight(s: State, r: string, lines: seq<string>) {
    && TrailingRun(lines, LastLineAt(s, r), ConsecutiveAt(s, r))
    && (lines == [] ==> LastLineAt(s, r) == "")
  }

  lemma TrailingRunExtends(lines: seq<string>, last: string, count: nat, line: string)
    requires TrailingRun(lines, last, count)
    ensures TrailingRun(lines + [line], line, if lines != [] && last == line then count + 1 else 1)
  {
    var more := lines + [line];
    assert forall k | 0 <= k < |lines| :: more[k] == lines[k];
  }

  lemma CounterStep(cfg: ManagerConfig, s: State, l: Label, t: State, r: string, lines: seq<string>)
    requires Moves(cfg, s, l, t) && !l.RestoreActive? && !l.RestorePending?
    requires CounterRight(s, r, lines)
    requires l.Confirm? && Enters(s, l, r) ==> s.pending[r].lineId != ""
    ensures CounterRight(t, r, if l.Confirm? && Enters(s, l, r) then lines + [s.pending[r].lineId] else lines)
  {
    if l.Confirm? && Enters(s, l, r) {
      TrailingRunExtends(lines, LastLineAt(s, r), ConsecutiveAt(s, r), s.pending[r].lineId);
    } else {
      CounterStepBack(cfg, s, l, t, r);
    }
  }

  /** The counter equals the trailing run of same-line entries. */
  lemma {:induction false} CounterIsTrailingRun(
    cfg: ManagerConfig, states: seq<State>, labels: seq<Label>, n: nat, r: string)
    requires ValidManagerConfig(cfg) && LiveRun(cfg, states, labels) && n <= |labels|
    ensures CounterRight(states[n], r, EntryLines(states, labels, n, r))
  {
    if n > 0 {
      CounterIsTrailingRun(cfg, states, labels, n - 1, r);
      RunStep(cfg, states, labels, n - 1);
      assert labels[n - 1] in labels;
      if EntersAt(states, labels, n - 1, r) {
        PendingHasLine(cfg, states, labels, n - 1, r);
      }
      CounterStep(cfg, states[n - 1], labels[n - 1], states[n], r, EntryLines(states, labels, n - 1, r));
    }
  }

  lemma PendingHasLine(cfg: ManagerConfig, states: seq<State>, labels: seq<Label>, n: nat, r: string)
    requires ValidManagerConfig(cfg) && LiveRun(cfg, states, labels) && n < |labels|
    requires r in states[n].pending
    ensures states[n].pending[r].lineId != ""
  {
    PendingOrigin(cfg, states, labels, n, r);
    var i := ReleaseIndex(labels, n, r);
    RunStep(cfg, states, labels, i);
  }

  /** The run of one line exceeds the limit only through a train that was overdue when
      released, or was released while no other line had a feasible candidate. */
  lemma LimitExceededOnlyWhenForced(
    cfg: ManagerConfig, states: seq<State>, labels: seq<Label>, j: nat, r: string)
    requires ValidManagerConfig(cfg) && LiveRun(cfg, states, labels)
    requires j < |labels| && EntersAt(states, labels, j, r)
    requires cfg.policy.maxConsecutiveRelease > 0
    requires ConsecutiveAt(states[j + 1], r) > cfg.policy.maxConsecutiveRelease
    ensures var i := ReleaseIndex(labels, j, r);
      && 0 <= i < j && Releases(labels[i], r) && r in states[i].corridors && GoodLines(states[i])
      && labels[i].decision == states[j].pending[r]
      && (labels[i].decision.reason == MaximumWaitExceeded
          || !HasAlternative(cfg.policy, PlanContext(states[i], r, labels[i].simulationNow, labels[i].wallNow)))
  {
    PendingOrigin(cfg, states, labels, j, r);
    var i := ReleaseIndex(labels, j, r);
    RunStep(cfg, states, labels, i);
    RunStep(cfg, states, labels, j);
    CounterAtEntry(cfg, states[j], labels[j], states[j + 1], r);
    assert StepAt(cfg, states, labels, i);
    ForcedRelease(cfg, states[i], r, labels[i].simulationNow, labels[i].wallNow, labels[i].decision);
  }

  // A count above one means the entering line was the last one already.
  lemma CounterAtEntry(cfg: ManagerConfig, s: State, l: Label, t: State, r: string)
    requires Moves(cfg, s, l, t) && l.Confirm? && Enters(s, l, r)
    ensures ConsecutiveAt(t, r) > 1 ==>
      s.pending[r].lineId == LastLineAt(s, r) && ConsecutiveAt(t, r) == ConsecutiveAt(s, r) + 1
  {
  }

  // A release of a line at its limit.
  lemma ForcedRelease(cfg: ManagerConfig, s: State, r: string, simulationNow: nat, wallNow: nat, d: Decision)
    requires ValidManagerConfig(cfg) && Structural(s) && cfg.policy.maxConsecutiveRelease > 0
    requires PlanResult(cfg, s, r, simulationNow, wallNow, d) && d.action == Release
    requires d.lineId == LastLineAt(s, r) && ConsecutiveAt(s, r) >= cfg.policy.maxConsecutiveRelease
    ensures r in s.corridors
    ensures d.reason == MaximumWaitExceeded || !HasAlternative(cfg.policy, PlanContext(s, r, simulationNow, wallNow))
  {
    PlannedReleaseIsReservable(cfg, s, r, simulationNow, wallNow, d);
    LimitYields(cfg.policy, PlanContext(s, r, simulationNow, wallNow), d);
  }

  // ----- plan, then cancel -----

  lemma CommittedTrack(s: State, r: string, now: nat, d: Decision)
    requires GoodLines(s) && r in s.corridors && !s.corridors[r].commandPending && r !in s.pending
    requires d.action == Release
    ensures var t := PendingCancelled(Planned(s, r, now, d), r); t.corridors == s.corridors && t.pending == s.pending
  {
    var p := Planned(s, r, now, d);
    assert p.pending - {r} == s.pending;
    assert p.corridors[r := p.corridors[r].(commandPending := false)] == s.corridors;
  }

  lemma CommittedBook(s: State, r: string, now: nat, d: Decision)
    requires GoodLines(s) && r in s.corridors && d.action == Release
    ensures PendingCancelled(Planned(s, r, now, d), r).book
         == Cancelled(Reserved(s.book, d.trainId, d.movementIds, now), d.trainId)
  {
  }

  // What a planned release finds.
  lemma ReleaseFinds(cfg: ManagerConfig, s: State, r: string, simulationNow: nat, wallNow: nat, d: Decision)
    requires ValidManagerConfig(cfg) && Safe(s) && d.action == Release
    requires PlanResult(cfg, s, r, simulationNow, wallNow, d)
    ensures r in s.corridors && !s.corridors[r].commandPending && r !in s.pending
    ensures Reservable(s.book, d.movementIds, simulationNow)
  {
    PlannedReleaseIsReservable(cfg, s, r, simulationNow, wallNow, d);
  }

  /** Cancelling a fresh release restores flags, occupancy and pending decisions, and every
      reservation exactly when the released train held nothing: a train that is released
      again while it still holds a passage loses that passage's reservations too. */
  lemma CancelUndoesPlan(cfg: ManagerConfig, s: State, r: string, simulationNow: nat, wallNow: nat, d: Decision)
    requires ValidManagerConfig(cfg) && Safe(s) && d.action == Release
    requires PlanResult(cfg, s, r, simulationNow, wallNow, d)
    ensures var t := PendingCancelled(Planned(s, r, simulationNow, d), r);
      && t.corridors == s.corridors && t.pending == s.pending
      && (t.book == s.book <==> R.HoldsNothing(s.book, d.trainId))
  {
    ReleaseFinds(cfg, s, r, simulationNow, wallNow, d);
    CommittedTrack(s, r, simulationNow, d);
    CommittedBook(s, r, simulationNow, d);
    R.CancelUndoesReserve(s.book, d.trainId, d.movementIds, simulationNow);
  }
}
