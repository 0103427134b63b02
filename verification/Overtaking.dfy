/** Bounded overtaking: once a train has waited too long, only trains that were already
    waiting as long can still enter before it, and none of them twice. */
module Overtaking {
  import opened Basics
  import opened Reservations
  import opened Policy
  import opened DispatchSpec
  import opened DispatchManagers
  import opened DispatchRuns
  import B = CandidateBuilder

  function ListOf(s: State, r: string): seq<Candidate> {
    if r in s.corridors then s.corridors[r].candidates else []
  }

  /** The trains waiting at `r` since `since` or earlier. */
  function Ahead(s: State, r: string, since: nat): set<string> {
    set i | 0 <= i < |ListOf(s, r)| && 0 < ListOf(s, r)[i].arrivedAt <= since :: ListOf(s, r)[i].trainId
  }

  // ----- the situation -----

  /** At every release of `r`, `train`, waiting since `since`, is overdue and feasible. */
  ghost predicate OverdueThroughout(
    cfg: ManagerConfig, states: seq<State>, labels: seq<Label>, a: nat, n: nat, r: string, train: string, since: nat)
    requires a <= n <= |labels| <= |states|
  {
    forall i | a <= i < n && Releases(labels[i], r) && r in states[i].corridors && GoodLines(states[i]) ::
      var ctx := PlanContext(states[i], r, labels[i].simulationNow, labels[i].wallNow);
      exists c :: c in ctx.corridor.candidates && c.trainId == train && c.arrivedAt == since
                  && Feasible(cfg.policy, ctx, c) && Overdue(cfg.policy, ctx, c)
  }

  /** Fresh candidate lists name nobody else as waiting that long. */
  predicate NewcomersLater(labels: seq<Label>, a: nat, n: nat, r: string, since: nat, ahead: set<string>)
    requires a <= n <= |labels|
  {
    forall i | a <= i < n && labels[i].Replace? && labels[i].resource == r ::
      forall c <- labels[i].candidates :: 0 < c.arrivedAt <= since ==> c.trainId in ahead
  }

  /** Fresh candidate lists do not name a train that entered since step `a` as waiting that
      long; it may queue again as a newcomer. */
  ghost predicate EntrantsNotRelisted(
    states: seq<State>, labels: seq<Label>, a: nat, n: nat, r: string, since: nat)
    requires a <= n <= |labels| <= |states|
  {
    forall j, i | a <= j < i < n && EntersAt(states, labels, j, r) && labels[i].Replace? && labels[i].resource == r ::
      forall c <- labels[i].candidates :: 0 < c.arrivedAt <= since ==> c.trainId != labels[j].train
  }

  predicate NoUpserts(labels: seq<Label>, a: nat, n: nat)
    requires a <= n <= |labels|
  {
    forall i | a <= i < n :: !labels[i].Upsert?
  }

  ghost predicate Situation(
    cfg: ManagerConfig, states: seq<State>, labels: seq<Label>, a: nat, n: nat, r: string, since: nat)
    requires ValidManagerConfig(cfg)
  {
    && LiveRun(cfg, states, labels) && a <= n <= |labels| && NoUpserts(labels, a, n)
    && NewcomersLater(labels, a, n, r, since, Ahead(states[a], r, since))
    && EntrantsNotRelisted(states, labels, a, n, r, since)
  }

  /** The trains that entered `r` on a release made from step `a` on, in order. */
  ghost function Entrants(states: seq<State>, labels: seq<Label>, a: nat, n: nat, r: string): seq<string>
    requires n <= |labels| <= |states|
  {
    if n <= a then []
    else
      Entrants(states, labels, a, n - 1, r)
        + (if EntersAt(states, labels, n - 1, r) && ReleaseIndex(labels, n - 1, r) >= a then [labels[n - 1].train] else [])
  }

  // ----- candidate lists along the run -----

  lemma {:induction false} WithoutIsWithout(cs: seq<Candidate>, train: string, c: Candidate)
    ensures c in WithoutCandidate(cs, train) <==> c in cs && c.trainId != train
  {
    if cs != [] {
      WithoutIsWithout(cs[..|cs| - 1], train, c);
      assert cs == cs[..|cs| - 1] + [cs[|cs| - 1]];
    }
  }

  // Where a candidate in the list came from, one step back.
  lemma ListStepBack(cfg: ManagerConfig, s: State, l: Label, t: State, r: string, c: Candidate)
    requires Moves(cfg, s, l, t) && !l.Upsert? && c in ListOf(t, r)
    ensures c in ListOf(s, r) || (l.Replace? && l.resource == r && c in l.candidates)
    ensures l.Confirm? && Enters(s, l, r) ==> c in ListOf(s, r) && c.trainId != l.train
  {
    if l.Confirm? && Enters(s, l, r) {
      WithoutIsWithout(ListOf(s, r), l.train, c);
    } else if l.Confirm? && CanConfirm(s, l.resource, l.train) {
      assert l.resource != r;
    }
  }

  lemma RunListStepBack(
    cfg: ManagerConfig, states: seq<State>, labels: seq<Label>, i: nat, r: string, c: Candidate)
    requires ValidManagerConfig(cfg) && SafeRun(cfg, states, labels) && i < |labels| && !labels[i].Upsert?
    requires c in ListOf(states[i + 1], r)
    ensures c in ListOf(states[i], r)
            || (labels[i].Replace? && labels[i].resource == r && c in labels[i].candidates)
    ensures EntersAt(states, labels, i, r) ==> c in ListOf(states[i], r) && c.trainId != labels[i].train
  {
    RunStep(cfg, states, labels, i);
    ListStepBack(cfg, states[i], labels[i], states[i + 1], r, c);
  }

  // Candidate `c` listed after step `i` was listed before it or is freshly supplied, and
  // did not just enter.
  ghost predicate CameFrom(states: seq<State>, labels: seq<Label>, i: nat, r: string, c: Candidate)
    requires i < |labels| <= |states|
  {
    && (c in ListOf(states[i], r) || (labels[i].Replace? && labels[i].resource == r && c in labels[i].candidates))
    && (EntersAt(states, labels, i, r) ==> c in ListOf(states[i], r) && c.trainId != labels[i].train)
  }

  ghost predicate ListsFollow(states: seq<State>, labels: seq<Label>, a: nat, n: nat, r: string)
    requires n <= |labels| < |states|
  {
    forall i, c | a <= i < n && c in ListOf(states[i + 1], r) :: CameFrom(states, labels, i, r, c)
  }

  lemma RunListsFollow(cfg: ManagerConfig, states: seq<State>, labels: seq<Label>, a: nat, n: nat, r: string)
    requires ValidManagerConfig(cfg) && SafeRun(cfg, states, labels) && a <= n <= |labels| && NoUpserts(labels, a, n)
    ensures ListsFollow(states, labels, a, n, r)
  {
    forall i, c | a <= i < n && c in ListOf(states[i + 1], r) ensures CameFrom(states, labels, i, r, c) {
      RunListStepBack(cfg, states, labels, i, r, c);
    }
  }

  lemma {:induction false} ListedWasAhead(
    states: seq<State>, labels: seq<Label>, a: nat, i: nat, r: string, since: nat, c: Candidate)
    requires a <= i <= |labels| < |states| && ListsFollow(states, labels, a, i, r)
    requires NewcomersLater(labels, a, i, r, since, Ahead(states[a], r, since))
    requires c in ListOf(states[i], r) && 0 < c.arrivedAt <= since
    ensures c.trainId in Ahead(states[a], r, since)
  {
    if i == a {
      var k :| 0 <= k < |ListOf(states[i], r)| && ListOf(states[i], r)[k] == c;
    } else {
      assert CameFrom(states, labels, i - 1, r, c);
      if c in ListOf(states[i - 1], r) {
        ListedWasAhead(states, labels, a, i - 1, r, since, c);
      }
    }
  }

  lemma {:induction false} EntrantNotListed(
    states: seq<State>, labels: seq<Label>, a: nat, j: nat, i: nat, r: string, since: nat, c: Candidate)
    requires a <= j < i <= |labels| < |states| && ListsFollow(states, labels, a, i, r)
    requires EntrantsNotRelisted(states, labels, a, i, r, since)
    requires EntersAt(states, labels, j, r) && c in ListOf(states[i], r) && 0 < c.arrivedAt <= since
    ensures c.trainId != labels[j].train
  {
    assert CameFrom(states, labels, i - 1, r, c);
    if i - 1 != j && c in ListOf(states[i - 1], r) {
      EntrantNotListed(states, labels, a, j, i - 1, r, since, c);
    }
  }

  // ----- who enters -----

  // A pending command was released after every earlier entry.
  lemma {:induction false} ReleasedAfterEntry(
    cfg: ManagerConfig, states: seq<State>, labels: seq<Label>, j: nat, k: nat, r: string)
    requires ValidManagerConfig(cfg) && LiveRun(cfg, states, labels) && j < k <= |labels|
    requires EntersAt(states, labels, j, r) && r in states[k].pending
    ensures ReleaseIndex(labels, k, r) > j
  {
    RunStep(cfg, states, labels, k - 1);
    assert labels[k - 1] in labels;
    PendingStepBack(cfg, states[k - 1], labels[k - 1], states[k], r);
    if !Releases(labels[k - 1], r) {
      ReleasedAfterEntry(cfg, states, labels, j, k - 1, r);
    }
  }

  // The entrant was listed at its release, waiting no shorter than the overdue train.
  lemma EntrantWasListed(
    cfg: ManagerConfig, states: seq<State>, labels: seq<Label>, a: nat, n: nat, r: string,
    train: string, since: nat, j: nat) returns (i: nat, c: Candidate)
    requires ValidManagerConfig(cfg) && LiveRun(cfg, states, labels) && a <= j < n <= |labels|
    requires OverdueThroughout(cfg, states, labels, a, n, r, train, since)
    requires EntersAt(states, labels, j, r) && ReleaseIndex(labels, j, r) >= a
    ensures i == ReleaseIndex(labels, j, r) && a <= i < j
    ensures c in ListOf(states[i], r) && c.trainId == labels[j].train && 0 < c.arrivedAt <= since
  {
    PendingOrigin(cfg, states, labels, j, r);
    i := ReleaseIndex(labels, j, r);
    var s, l := states[i], labels[i];
    AlwaysInterlocked(cfg, states, labels, i);
    assert StepAt(cfg, states, labels, i);
    PlannedReleaseIsReservable(cfg, s, r, l.simulationNow, l.wallNow, l.decision);
    var ctx := PlanContext(s, r, l.simulationNow, l.wallNow);
    var t :| t in ctx.corridor.candidates && t.trainId == train && t.arrivedAt == since
             && Feasible(cfg.policy, ctx, t) && Overdue(cfg.policy, ctx, t);
    c := NobodyOvertakesOverdue(cfg.policy, ctx, l.decision, t);
    AdmittedMember(s.book, s.corridors[r].candidates, l.simulationNow, c);
  }

  ghost predicate Distinct(trains: seq<string>) {
    forall i, j | 0 <= i < j < |trains| :: trains[i] != trains[j]
  }

  // Which entry step an element of Entrants stands for.
  lemma {:induction false} EntrantStep(states: seq<State>, labels: seq<Label>, a: nat, n: nat, r: string, k: nat)
    returns (j: nat)
    requires n <= |labels| <= |states| && k < |Entrants(states, labels, a, n, r)|
    ensures a <= j < n && EntersAt(states, labels, j, r) && ReleaseIndex(labels, j, r) >= a
    ensures labels[j].train == Entrants(states, labels, a, n, r)[k]
  {
    if k < |Entrants(states, labels, a, n - 1, r)| {
      j := EntrantStep(states, labels, a, n - 1, r, k);
    } else {
      j := n - 1;
    }
  }

  // A new entrant was ahead and is none of the earlier entrants.
  lemma NewEntrant(
    cfg: ManagerConfig, states: seq<State>, labels: seq<Label>, a: nat, n: nat, k: nat, r: string,
    train: string, since: nat)
    requires ValidManagerConfig(cfg) && Situation(cfg, states, labels, a, n, r, since) && a <= k < n
    requires OverdueThroughout(cfg, states, labels, a, n, r, train, since)
    requires EntersAt(states, labels, k, r) && ReleaseIndex(labels, k, r) >= a
    ensures labels[k].train in Ahead(states[a], r, since)
    ensures labels[k].train !in Entrants(states, labels, a, k, r)
  {
    var i, c := EntrantWasListed(cfg, states, labels, a, n, r, train, since, k);
    RunListsFollow(cfg, states, labels, a, i, r);
    ListedWasAhead(states, labels, a, i, r, since, c);
    var front := Entrants(states, labels, a, k, r);
    forall e | 0 <= e < |front| ensures front[e] != labels[k].train {
      NotAgain(cfg, states, labels, a, k, r, since, i, c, e);
    }
  }

  lemma NotAgain(
    cfg: ManagerConfig, states: seq<State>, labels: seq<Label>, a: nat, k: nat, r: string, since: nat,
    i: nat, c: Candidate, e: nat)
    requires ValidManagerConfig(cfg) && LiveRun(cfg, states, labels) && k < |labels| && i < k
    requires a <= i && ListsFollow(states, labels, a, i, r) && EntrantsNotRelisted(states, labels, a, i, r, since)
    requires r in states[k].pending && i == ReleaseIndex(labels, k, r) && c in ListOf(states[i], r)
    requires 0 < c.arrivedAt <= since
    requires e < |Entrants(states, labels, a, k, r)|
    ensures Entrants(states, labels, a, k, r)[e] != c.trainId
  {
    var j := EntrantStep(states, labels, a, k, r, e);
    ReleasedAfterEntry(cfg, states, labels, j, k, r);
    EntrantNotListed(states, labels, a, j, i, r, since, c);
  }

  lemma {:induction false} EntrantsDistinct(
    cfg: ManagerConfig, states: seq<State>, labels: seq<Label>, a: nat, n: nat, m: nat, r: string,
    train: string, since: nat)
    requires ValidManagerConfig(cfg) && Situation(cfg, states, labels, a, n, r, since) && m <= n
    requires OverdueThroughout(cfg, states, labels, a, n, r, train, since)
    ensures Distinct(Entrants(states, labels, a, m, r))
    ensures forall x <- Entrants(states, labels, a, m, r) :: x in Ahead(states[a], r, since)
  {
    if m > a {
      EntrantsDistinct(cfg, states, labels, a, n, m - 1, r, train, since);
      if EntersAt(states, labels, m - 1, r) && ReleaseIndex(labels, m - 1, r) >= a {
        NewEntrant(cfg, states, labels, a, n, m - 1, r, train, since);
        DistinctMore(Entrants(states, labels, a, m - 1, r), labels[m - 1].train);
      }
    }
  }

  lemma DistinctMore(trains: seq<string>, train: string)
    requires Distinct(trains) && train !in trains
    ensures Distinct(trains + [train])
  {
  }

  lemma {:induction false} DistinctFit(trains: seq<string>, within: set<string>)
    requires Distinct(trains) && forall x <- trains :: x in within
    ensures |trains| <= |within|
  {
    if trains != [] {
      var front, last := trains[..|trains| - 1], trains[|trains| - 1];
      assert last in trains;
      forall x | x in front ensures x in within - {last} {
        assert x in trains;
      }
      DistinctFit(front, within - {last});
    }
  }

  /** Bounded overtaking.  While the overdue train stays feasible at every release,
      and newcomers, those that entered before included, arrive later, the trains that enter
      are all different and were all waiting as long when the overdue train was first
      looked at; before its own entry they number fewer than those. */
  lemma BoundedOvertaking(
    cfg: ManagerConfig, states: seq<State>, labels: seq<Label>, a: nat, n: nat, r: string, train: string, since: nat)
    requires ValidManagerConfig(cfg) && Situation(cfg, states, labels, a, n, r, since)
    requires OverdueThroughout(cfg, states, labels, a, n, r, train, since)
    ensures var entrants := Entrants(states, labels, a, n, r);
      && Distinct(entrants) && |entrants| <= |Ahead(states[a], r, since)|
      && forall x <- entrants :: x in Ahead(states[a], r, since)
    ensures var entrants := Entrants(states, labels, a, n, r);
      train !in entrants && train in Ahead(states[a], r, since) ==> |entrants| < |Ahead(states[a], r, since)|
  {
    EntrantsDistinct(cfg, states, labels, a, n, n, r, train, since);
    var entrants, ahead := Entrants(states, labels, a, n, r), Ahead(states[a], r, since);
    DistinctFit(entrants, ahead);
    if train !in entrants && train in ahead {
      DistinctFit(entrants, ahead - {train});
    }
  }

  // ----- a dispatcher supplied by the candidate builder -----

  // What step `i` of the run is in the builder's history: a fresh list is the output of a
  // batch, and an entry is acknowledged.
  ghost predicate Corresponds(
    states: seq<State>, labels: seq<Label>, i: nat, r: string, d: B.Distances, hs: seq<B.Happening>, h: nat, k: nat)
    requires i < |labels| < |states|
  {
    && h <= k < |hs|
    && (labels[i].Replace? && labels[i].resource == r ==>
          hs[k].Observe? && labels[i].candidates == B.ListAt(B.OutputAt(d, hs, k), r))
    && (EntersAt(states, labels, i, r) ==> hs[k] == B.Enter(labels[i].train))
  }

  /** From step `a` on, `r` is supplied by a builder with the history `hs`, starting with the
      list that batch `h` gave and that is in force at `a`; `at` says which happening each
      step is, in order. */
  ghost predicate SuppliedBy(
    states: seq<State>, labels: seq<Label>, a: nat, n: nat, r: string,
    d: B.Distances, hs: seq<B.Happening>, h: nat, at: seq<nat>)
    requires a <= n <= |labels| < |states|
  {
    && B.Faithful(hs) && h < |hs| && hs[h].Observe? && |at| == n
    && ListOf(states[a], r) == B.ListAt(B.OutputAt(d, hs, h), r)
    && (forall i | a <= i < n :: Corresponds(states, labels, i, r, d, hs, h, at[i]))
    && (forall i, j | a <= i < j < n :: at[i] <= at[j])
  }

  /** The candidate builder makes newcomers arrive later, so a dispatcher supplied by it
      meets that condition of bounded overtaking. */
  lemma BuilderMakesNewcomersLater(
    states: seq<State>, labels: seq<Label>, a: nat, n: nat, r: string,
    d: B.Distances, hs: seq<B.Happening>, h: nat, at: seq<nat>, since: nat)
    requires a <= n <= |labels| < |states|
    requires SuppliedBy(states, labels, a, n, r, d, hs, h, at) && B.ObservedLater(hs, h, |hs|, since)
    ensures NewcomersLater(labels, a, n, r, since, Ahead(states[a], r, since))
  {
    forall i, c | a <= i < n && labels[i].Replace? && labels[i].resource == r
                  && c in labels[i].candidates && 0 < c.arrivedAt <= since
      ensures c.trainId in Ahead(states[a], r, since)
    {
      assert Corresponds(states, labels, i, r, d, hs, h, at[i]);
      assert B.Lists(B.OutputAt(d, hs, at[i]), r, c);
      B.WaitersWereThere(d, hs, h, at[i], since, r, c);
      var e :| B.Lists(B.OutputAt(d, hs, h), r, e) && e.trainId == c.trainId && e.arrivedAt == c.arrivedAt;
      var m :| 0 <= m < |ListOf(states[a], r)| && ListOf(states[a], r)[m] == e;
    }
  }

  /** It also lists a train that entered only as a newcomer. */
  lemma BuilderRelistsAsNewcomers(
    states: seq<State>, labels: seq<Label>, a: nat, n: nat, r: string,
    d: B.Distances, hs: seq<B.Happening>, h: nat, at: seq<nat>, since: nat)
    requires a <= n <= |labels| < |states|
    requires SuppliedBy(states, labels, a, n, r, d, hs, h, at) && B.ObservedLater(hs, h, |hs|, since)
    ensures EntrantsNotRelisted(states, labels, a, n, r, since)
  {
    forall j, i, c | a <= j < i < n && EntersAt(states, labels, j, r) && labels[i].Replace? && labels[i].resource == r
                     && c in labels[i].candidates && 0 < c.arrivedAt <= since
      ensures c.trainId != labels[j].train
    {
      assert Corresponds(states, labels, j, r, d, hs, h, at[j]) && Corresponds(states, labels, i, r, d, hs, h, at[i]);
      if c.trainId == labels[j].train {
        assert B.Lists(B.OutputAt(d, hs, at[i]), r, c);
        B.EnteredReturnsAsNewcomer(d, hs, at[j], at[i], since, r, c);
      }
    }
  }

  /** Bounded overtaking for a live dispatcher supplied by the candidate builder, with no
      other assumption on the lists than that later batches are observed later. */
  lemma BuilderBoundsOvertaking(
    cfg: ManagerConfig, states: seq<State>, labels: seq<Label>, a: nat, n: nat, r: string, train: string, since: nat,
    d: B.Distances, hs: seq<B.Happening>, h: nat, at: seq<nat>)
    requires ValidManagerConfig(cfg) && LiveRun(cfg, states, labels) && a <= n <= |labels| && NoUpserts(labels, a, n)
    requires SuppliedBy(states, labels, a, n, r, d, hs, h, at) && B.ObservedLater(hs, h, |hs|, since)
    requires OverdueThroughout(cfg, states, labels, a, n, r, train, since)
    ensures var entrants := Entrants(states, labels, a, n, r);
      && Distinct(entrants) && |entrants| <= |Ahead(states[a], r, since)|
      && forall x <- entrants :: x in Ahead(states[a], r, since)
    ensures var entrants := Entrants(states, labels, a, n, r);
      train !in entrants && train in Ahead(states[a], r, since) ==> |entrants| < |Ahead(states[a], r, since)|
  {
    BuilderMakesNewcomersLater(states, labels, a, n, r, d, hs, h, at, since);
    BuilderRelistsAsNewcomers(states, labels, a, n, r, d, hs, h, at, since);
    BoundedOvertaking(cfg, states, labels, a, n, r, train, since);
  }
}
