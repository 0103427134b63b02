/** One telemetry cycle on values: commands of stale trains withdrawn, candidates offered,
    every resource planned, commands issued for the releases, and the withdrawal of a cycle
    that could not be stored. */
module Cycle {
  import opened Basics
  import opened Reservations
  import opened Policy
  import opened DispatchSpec
  import opened DispatchManagers
  import opened DispatchRuns
  import opened Lifecycle
  import R = ReservationRuns

  // ----- what a cycle does to the manager -----

  // The commands of the listed trains are cancelled, each once.
  function WithoutCommands(s: State, commands: Commands, trains: seq<string>): State {
    if trains == [] then s
    else
      var front, last := trains[..|trains| - 1], trains[|trains| - 1];
      var t := WithoutCommands(s, commands, front);
      if last in commands && last !in front then PendingCancelled(t, commands[last].resourceId) else t
  }

  function Listed(removed: seq<string>): set<string> {
    set t | t in removed
  }

  lemma StaleNext(s: State, commands: Commands, removed: seq<string>, i: nat)
    requires i < |removed|
    ensures commands - Listed(removed[..i + 1]) == commands - Listed(removed[..i]) - {removed[i]}
    ensures var left, t := commands - Listed(removed[..i]), WithoutCommands(s, commands, removed[..i]);
      WithoutCommands(s, commands, removed[..i + 1])
      == if removed[i] in left then PendingCancelled(t, left[removed[i]].resourceId) else t
  {
    assert removed[..i + 1] == removed[..i] + [removed[i]];
  }

  function ListFor(candidates: map<string, seq<Candidate>>, r: string): seq<Candidate> {
    if r in candidates then candidates[r] else []
  }

  // Every resource gets its fresh candidates, none if there are none.
  function Offered(s: State, rs: seq<string>, candidates: map<string, seq<Candidate>>, wallNow: nat): State {
    if rs == [] then s
    else
      var last := rs[|rs| - 1];
      Replaced(Offered(s, rs[..|rs| - 1], candidates, wallNow), last, ListFor(candidates, last), wallNow)
  }

  lemma PlannedKeepsLines(s: State, r: string, now: nat, d: Decision)
    requires GoodLines(s)
    ensures GoodLines(Planned(s, r, now, d))
  {
  }

  // The state after planning the resources in order with the given decisions.
  ghost function PlannedAll(s: State, rs: seq<string>, now: nat, ds: seq<Decision>): (t: State)
    requires GoodLines(s) && |ds| == |rs|
    ensures GoodLines(t)
  {
    if rs == [] then s
    else
      var n := |rs| - 1;
      var t := PlannedAll(s, rs[..n], now, ds[..n]);
      PlannedKeepsLines(t, rs[n], now, ds[n]);
      Planned(t, rs[n], now, ds[n])
  }

  /** Each decision is a planning result for its resource after the ones before it. */
  ghost predicate AllPlanned(
    cfg: ManagerConfig, s: State, rs: seq<string>, simulationNow: nat, wallNow: nat, ds: seq<Decision>)
    requires ValidManagerConfig(cfg) && GoodLines(s) && |ds| == |rs|
  {
    rs == [] ||
    var n := |rs| - 1;
    && AllPlanned(cfg, s, rs[..n], simulationNow, wallNow, ds[..n])
    && PlanResult(cfg, PlannedAll(s, rs[..n], simulationNow, ds[..n]), rs[n], simulationNow, wallNow, ds[n])
  }

  lemma PlannedNext(
    cfg: ManagerConfig, s: State, rs: seq<string>, simulationNow: nat, wallNow: nat, ds: seq<Decision>,
    r: string, d: Decision)
    requires ValidManagerConfig(cfg) && GoodLines(s) && |ds| == |rs|
    requires AllPlanned(cfg, s, rs, simulationNow, wallNow, ds)
    requires PlanResult(cfg, PlannedAll(s, rs, simulationNow, ds), r, simulationNow, wallNow, d)
    ensures AllPlanned(cfg, s, rs + [r], simulationNow, wallNow, ds + [d])
    ensures PlannedAll(s, rs + [r], simulationNow, ds + [d])
         == Planned(PlannedAll(s, rs, simulationNow, ds), r, simulationNow, d)
  {
    assert (rs + [r])[..|rs|] == rs && (ds + [d])[..|ds|] == ds;
  }

  /** The commands issued for the decisions: for each release of a train that has none yet,
      numbered from `first`. */
  function Issued(commands: Commands, ds: seq<Decision>, first: nat, revision: nat, now: nat): seq<Decision> {
    if ds == [] then []
    else
      WithCommand(commands, Issued(commands, ds[..|ds| - 1], first, revision, now), ds[|ds| - 1], first, revision, now)
  }

  function WithCommand(
    commands: Commands, issued: seq<Decision>, d: Decision, first: nat, revision: nat, now: nat): seq<Decision>
  {
    if d.action == Release && d.trainId !in commands && d.trainId !in TrainsOf(issued)
    then issued + [d.(commandId := first + |issued|, topologyRevision := revision, issuedAt := now)]
    else issued
  }

  // The pending decisions of the commands are cancelled in order.
  function CancelledAll(s: State, issued: seq<Decision>): State {
    if issued == [] then s
    else PendingCancelled(CancelledAll(s, issued[..|issued| - 1]), issued[|issued| - 1].resourceId)
  }

  /** Planning the resources in order leads from `s` to `t`, deciding `ds` and issuing
      `issued`. */
  ghost predicate Cycled(
    cfg: ManagerConfig, s: State, t: State, commands: Commands, rs: seq<string>, simulationNow: nat, wallNow: nat,
    first: nat, revision: nat, ds: seq<Decision>, issued: seq<Decision>)
    requires ValidManagerConfig(cfg)
  {
    && |ds| == |rs| && GoodLines(s) && AllPlanned(cfg, s, rs, simulationNow, wallNow, ds)
    && issued == Issued(commands, ds, first, revision, simulationNow)
    && t == PlannedAll(s, rs, simulationNow, ds)
  }

  lemma CycledNext(
    cfg: ManagerConfig, s: State, t: State, commands: Commands, rs: seq<string>, simulationNow: nat, wallNow: nat,
    first: nat, revision: nat, ds: seq<Decision>, issued: seq<Decision>, r: string, d: Decision)
    requires ValidManagerConfig(cfg)
    requires Cycled(cfg, s, t, commands, rs, simulationNow, wallNow, first, revision, ds, issued)
    requires GoodLines(t) && PlanResult(cfg, t, r, simulationNow, wallNow, d)
    ensures Cycled(cfg, s, Planned(t, r, simulationNow, d), commands, rs + [r], simulationNow, wallNow, first, revision,
                   ds + [d], WithCommand(commands, issued, d, first, revision, simulationNow))
  {
    PlannedNext(cfg, s, rs, simulationNow, wallNow, ds, r, d);
    assert (ds + [d])[..|ds|] == ds;
  }

  lemma CancelledNext(s: State, issued: seq<Decision>, i: nat)
    requires i < |issued|
    ensures CancelledAll(s, issued[..i + 1]) == PendingCancelled(CancelledAll(s, issued[..i]), issued[i].resourceId)
    ensures issued[i..][1..] == issued[i + 1..] && issued[i..][0] == issued[i]
  {
    assert issued[..i + 1][..i] == issued[..i];
  }

  // ----- what planning adds -----

  // The releases among the decisions.
  function Granted(ds: seq<Decision>): seq<Decision> {
    if ds == [] then []
    else
      var d := ds[|ds| - 1];
      Granted(ds[..|ds| - 1]) + (if d.action == Release then [d] else [])
  }

  // The releases by resource.
  function ByResource(granted: seq<Decision>): Commands {
    if granted == [] then map[]
    else ByResource(granted[..|granted| - 1])[granted[|granted| - 1].resourceId := granted[|granted| - 1]]
  }

  // `t` is `s` with the decisions of `added` pending, on resources where none was.
  ghost predicate TrackWith(s: State, t: State, added: Commands) {
    && t.corridors.Keys == s.corridors.Keys
    && (forall r <- s.corridors ::
          t.corridors[r] == s.corridors[r].(commandPending := s.corridors[r].commandPending || r in added))
    && t.pending == s.pending + added && s.pending.Keys !! added.Keys
  }

  // `q` is `p` with further reservations, all of trains that hold nothing in `p`.
  ghost predicate RuntimeWith(p: Runtime, q: Runtime, trains: set<string>) {
    && q.lastClear == p.lastClear
    && (forall k <- p.active :: k in q.active && q.active[k] == p.active[k] && p.active[k].trainId !in trains)
    && (forall k <- q.active :: k in p.active || q.active[k].trainId in trains)
  }

  ghost predicate BookWith(b: Book, c: Book, trains: set<string>) {
    && c.defaultClearanceMs == b.defaultClearanceMs && c.movements == b.movements
    && c.intersections.Keys == b.intersections.Keys
    && forall ix <- b.intersections :: RuntimeWith(b.intersections[ix], c.intersections[ix], trains)
  }

  lemma ReserveExtends(b: Book, c: Book, trains: set<string>, train: string, ids: seq<string>, now: nat)
    requires BookWith(b, c, trains) && Keyed(c) && Reservable(c, ids, now) && R.HoldsNothing(b, train)
    ensures BookWith(b, Reserved(c, train, ids, now), trains + {train})
  {
    forall ix | ix in b.intersections
      ensures RuntimeWith(b.intersections[ix], RuntimeReserved(c, ix, train, ids, now), trains + {train})
    {
      var added := NewAt(c, ix, train, ids, now);
      forall k | k in added ensures k !in c.intersections[ix].active {
        assert Free(c, c.movements[k], now) && !Blocks(c, c.intersections[ix], c.movements[k], k);
      }
      forall k | k in b.intersections[ix].active ensures b.intersections[ix].active[k].trainId != train {
        assert k !in HeldBy(b.intersections[ix].active, train);
      }
    }
  }

  lemma CancelRestores(b: Book, c: Book, trains: set<string>, train: string)
    requires BookWith(b, c, trains) && train in trains
    ensures BookWith(b, Cancelled(c, train), trains - {train})
  {
  }

  lemma NothingAdded(b: Book, c: Book)
    requires BookWith(b, c, {})
    ensures c == b
  {
    forall ix | ix in b.intersections ensures c.intersections[ix] == b.intersections[ix] {
      assert c.intersections[ix].active == b.intersections[ix].active;
    }
    assert c.intersections == b.intersections;
  }

  lemma OneMorePending(s: State, t: State, added: Commands, d: Decision)
    requires TrackWith(s, t, added) && d.resourceId in s.corridors && d.resourceId !in t.pending
    ensures var r := d.resourceId;
      TrackWith(s, t.(corridors := t.corridors[r := t.corridors[r].(commandPending := true)],
                      pending := t.pending[r := d]), added[r := d])
  {
    assert t.pending[d.resourceId := d] == s.pending + added[d.resourceId := d];
  }

  // The reservations of the released trains are new.
  ghost predicate ReleasesHoldNothing(b: Book, ds: seq<Decision>) {
    forall i | 0 <= i < |ds| && ds[i].action == Release :: R.HoldsNothing(b, ds[i].trainId)
  }

  lemma TrainsNext(issued: seq<Decision>, d: Decision)
    ensures TrainsOf(issued + [d]) == TrainsOf(issued) + {d.trainId}
  {
    var more := issued + [d];
    assert more[|issued|] == d;
    forall t | t in TrainsOf(issued) ensures t in TrainsOf(more) {
      var i :| 0 <= i < |issued| && issued[i].trainId == t;
      assert more[i] == issued[i];
    }
  }

  function More(granted: seq<Decision>, d: Decision): seq<Decision> {
    if d.action == Release then granted + [d] else granted
  }

  lemma GrantedNext(ds: seq<Decision>)
    requires ds != []
    ensures Granted(ds) == More(Granted(ds[..|ds| - 1]), ds[|ds| - 1])
  {
  }

  lemma ByResourceNext(granted: seq<Decision>, d: Decision)
    ensures ByResource(granted + [d]) == ByResource(granted)[d.resourceId := d]
  {
    assert (granted + [d])[..|granted|] == granted;
  }

  lemma {:induction false} PlanningTrack(
    cfg: ManagerConfig, s: State, rs: seq<string>, simulationNow: nat, wallNow: nat, ds: seq<Decision>)
    requires ValidManagerConfig(cfg) && Safe(s) && |ds| == |rs|
    requires AllPlanned(cfg, s, rs, simulationNow, wallNow, ds)
    ensures var t, granted := PlannedAll(s, rs, simulationNow, ds), Granted(ds);
      Safe(t) && TrackWith(s, t, ByResource(granted)) && |ByResource(granted)| == |granted|
  {
    if rs != [] {
      var n := |rs| - 1;
      PlanningTrack(cfg, s, rs[..n], simulationNow, wallNow, ds[..n]);
      GrantedNext(ds);
      var t, granted := PlannedAll(s, rs[..n], simulationNow, ds[..n]), Granted(ds[..n]);
      PlanStepSafe(cfg, t, rs[n], simulationNow, wallNow, ds[n]);
      PlanStepTrack(cfg, s, t, granted, rs[n], simulationNow, wallNow, ds[n]);
    }
  }

  lemma {:induction false} PlanningBook(
    cfg: ManagerConfig, s: State, rs: seq<string>, simulationNow: nat, wallNow: nat, ds: seq<Decision>)
    requires ValidManagerConfig(cfg) && Safe(s) && |ds| == |rs|
    requires AllPlanned(cfg, s, rs, simulationNow, wallNow, ds) && ReleasesHoldNothing(s.book, ds)
    ensures BookWith(s.book, PlannedAll(s, rs, simulationNow, ds).book, TrainsOf(Granted(ds)))
  {
    if rs == [] {
      assert ds == [] && TrainsOf(Granted(ds)) == {};
    } else {
      var n := |rs| - 1;
      assert ReleasesHoldNothing(s.book, ds[..n]);
      PlanningBook(cfg, s, rs[..n], simulationNow, wallNow, ds[..n]);
      PlanningTrack(cfg, s, rs[..n], simulationNow, wallNow, ds[..n]);
      GrantedNext(ds);
      var t, granted := PlannedAll(s, rs[..n], simulationNow, ds[..n]), Granted(ds[..n]);
      PlanStepBook(cfg, s.book, t, granted, rs[n], simulationNow, wallNow, ds[n]);
    }
  }

  lemma PlanStepSafe(cfg: ManagerConfig, t: State, r: string, simulationNow: nat, wallNow: nat, d: Decision)
    requires ValidManagerConfig(cfg) && Safe(t) && PlanResult(cfg, t, r, simulationNow, wallNow, d)
    ensures Safe(Planned(t, r, simulationNow, d))
  {
    var l, u := Plan(r, simulationNow, wallNow, d), Planned(t, r, simulationNow, d);
    assert Step(cfg, t, l, u);
    StepKeepsSafe(cfg, t, l, u);
  }

  lemma ReleaseTrack(s: State, t: State, granted: seq<Decision>, now: nat, d: Decision)
    requires GoodLines(t) && d.action == Release && d.resourceId in t.corridors && d.resourceId !in t.pending
    requires TrackWith(s, t, ByResource(granted)) && |ByResource(granted)| == |granted|
    ensures TrackWith(s, Planned(t, d.resourceId, now, d), ByResource(granted + [d]))
    ensures |ByResource(granted + [d])| == |granted| + 1
  {
    ByResourceNext(granted, d);
    OneMorePending(s, t, ByResource(granted), d);
    assert d.resourceId !in ByResource(granted);
  }

  lemma NoReleaseTrack(s: State, t: State, added: Commands, r: string, now: nat, d: Decision)
    requires GoodLines(t) && d.action != Release && TrackWith(s, t, added)
    ensures TrackWith(s, Planned(t, r, now, d), added)
  {
  }

  lemma PlanStepTrack(
    cfg: ManagerConfig, s: State, t: State, granted: seq<Decision>, r: string, simulationNow: nat, wallNow: nat, d: Decision)
    requires ValidManagerConfig(cfg) && Safe(t) && PlanResult(cfg, t, r, simulationNow, wallNow, d)
    requires TrackWith(s, t, ByResource(granted)) && |ByResource(granted)| == |granted|
    ensures TrackWith(s, Planned(t, r, simulationNow, d), ByResource(More(granted, d)))
    ensures |ByResource(More(granted, d))| == |More(granted, d)|
  {
    if d.action == Release {
      ReleaseIsNew(cfg, t, r, simulationNow, wallNow, d);
      ReleaseTrack(s, t, granted, simulationNow, d);
    } else {
      NoReleaseTrack(s, t, ByResource(granted), r, simulationNow, d);
    }
  }

  lemma PlanStepBook(
    cfg: ManagerConfig, b: Book, t: State, granted: seq<Decision>, r: string, simulationNow: nat, wallNow: nat, d: Decision)
    requires ValidManagerConfig(cfg) && Safe(t) && PlanResult(cfg, t, r, simulationNow, wallNow, d)
    requires BookWith(b, t.book, TrainsOf(granted)) && (d.action == Release ==> R.HoldsNothing(b, d.trainId))
    ensures BookWith(b, Planned(t, r, simulationNow, d).book, TrainsOf(More(granted, d)))
  {
    if d.action == Release {
      PlannedReleaseIsReservable(cfg, t, r, simulationNow, wallNow, d);
      TrainsNext(granted, d);
      ReserveExtends(b, t.book, TrainsOf(granted), d.trainId, d.movementIds, simulationNow);
    }
  }

  // ----- taking a cycle back -----

  /** Every release gets its command: no released train has one already, and none is
      released twice. */
  ghost predicate EachIssued(commands: Commands, ds: seq<Decision>) {
    && (forall i | 0 <= i < |ds| && ds[i].action == Release :: ds[i].trainId !in commands)
    && (forall i, j | 0 <= i < j < |ds| && ds[i].action == Release && ds[j].action == Release ::
          ds[i].trainId != ds[j].trainId)
  }

  // The commands stand for these decisions.
  ghost predicate StandsFor(issued: seq<Decision>, granted: seq<Decision>) {
    && |issued| == |granted|
    && forall i | 0 <= i < |issued| ::
         issued[i].resourceId == granted[i].resourceId && issued[i].trainId == granted[i].trainId
  }

  lemma {:induction false} IssuedAtMostGranted(commands: Commands, ds: seq<Decision>, first: nat, revision: nat, now: nat)
    ensures var issued := Issued(commands, ds, first, revision, now);
      && |issued| <= |Granted(ds)| && (|issued| == |Granted(ds)| <==> EachIssued(commands, ds))
      && (EachIssued(commands, ds) ==> StandsFor(issued, Granted(ds)))
  {
    if ds != [] {
      var n := |ds| - 1;
      var front, d := ds[..n], ds[n];
      IssuedAtMostGranted(commands, front, first, revision, now);
      assert EachIssued(commands, ds) ==> EachIssued(commands, front);
      if EachIssued(commands, front) {
        var issued := Issued(commands, front, first, revision, now);
        assert TrainsOf(issued) == TrainsOf(Granted(front)) by {
          forall t | t in TrainsOf(Granted(front)) ensures t in TrainsOf(issued) {
            var i :| 0 <= i < |Granted(front)| && Granted(front)[i].trainId == t;
            assert issued[i].trainId == t;
          }
        }
        OneMoreIssued(commands, ds);
      }
    }
  }

  predicate ReleasesTrain(ds: seq<Decision>, train: string) {
    exists i :: 0 <= i < |ds| && ds[i].action == Release && ds[i].trainId == train
  }

  lemma {:induction false} GrantedTrains(ds: seq<Decision>, train: string)
    ensures train in TrainsOf(Granted(ds)) <==> ReleasesTrain(ds, train)
  {
    if ds == [] {
      assert TrainsOf(Granted(ds)) == {};
    } else {
      var n := |ds| - 1;
      GrantedTrains(ds[..n], train);
      TrainsNext(Granted(ds[..n]), ds[n]);
      assert Granted(ds[..n]) + [] == Granted(ds[..n]);
      if i :| 0 <= i < n && ds[..n][i].action == Release && ds[..n][i].trainId == train {
        assert ds[i].trainId == train;
      }
      if i :| 0 <= i < |ds| && ds[i].action == Release && ds[i].trainId == train {
        assert i < n ==> ds[..n][i].trainId == train;
      }
    }
  }

  lemma OneMoreIssued(commands: Commands, ds: seq<Decision>)
    requires ds != [] && EachIssued(commands, ds[..|ds| - 1])
    ensures var d := ds[|ds| - 1];
      EachIssued(commands, ds) <==>
        (d.action == Release ==> d.trainId !in commands && d.trainId !in TrainsOf(Granted(ds[..|ds| - 1])))
  {
    var n := |ds| - 1;
    var front := ds[..n];
    GrantedTrains(front, ds[n].trainId);
    if ds[n].action == Release && ds[n].trainId in TrainsOf(Granted(front)) {
      var i :| 0 <= i < |front| && front[i].action == Release && front[i].trainId == ds[n].trainId;
      assert ds[i].trainId == ds[n].trainId;
    }
    forall i | 0 <= i < n ensures ds[i] == front[i] {
    }
  }

  function ResourcesOf(issued: seq<Decision>): set<string> {
    if issued == [] then {} else ResourcesOf(issued[..|issued| - 1]) + {issued[|issued| - 1].resourceId}
  }

  lemma {:induction false} CancelledKeys(t: State, issued: seq<Decision>)
    ensures CancelledAll(t, issued).pending.Keys == t.pending.Keys - ResourcesOf(issued)
    ensures |ResourcesOf(issued)| <= |issued|
  {
    if issued != [] {
      CancelledKeys(t, issued[..|issued| - 1]);
    }
  }

  lemma {:induction false} ResourceOf(issued: seq<Decision>, i: nat)
    requires i < |issued|
    ensures issued[i].resourceId in ResourcesOf(issued)
  {
    if i < |issued| - 1 {
      ResourceOf(issued[..|issued| - 1], i);
    }
  }

  // The track, pending decisions and reservations are those of `s`.
  predicate Restored(s: State, t: State) {
    t.corridors == s.corridors && t.pending == s.pending && t.book == s.book
  }

  lemma CancelOneTrack(s: State, t: State, added: Commands, r: string)
    requires PendingAgrees(s) && TrackWith(s, t, added) && r in added
    ensures TrackWith(s, PendingCancelled(t, r), added - {r})
    ensures t.pending[r] == added[r]
  {
    assert t.pending - {r} == s.pending + (added - {r});
  }

  // Distinct decisions of `added`, whose trains are in `trains`.
  ghost predicate Picks(issued: seq<Decision>, added: Commands, trains: set<string>) {
    && (forall i | 0 <= i < |issued| ::
          && issued[i].resourceId in added && added[issued[i].resourceId].trainId == issued[i].trainId
          && issued[i].trainId in trains)
    && (forall i, j | 0 <= i < j < |issued| :: issued[i].trainId != issued[j].trainId)
  }

  lemma {:induction false} LastUncancelled(issued: seq<Decision>, added: Commands, trains: set<string>, d: Decision)
    requires Picks(issued, added, trains) && d.resourceId in added && added[d.resourceId].trainId == d.trainId
    requires forall i | 0 <= i < |issued| :: issued[i].trainId != d.trainId
    ensures d.resourceId !in ResourcesOf(issued) && d.trainId !in TrainsOf(issued)
  {
    if issued != [] {
      LastUncancelled(issued[..|issued| - 1], added, trains, d);
    }
  }

  lemma {:induction false} CancelEachTrack(s: State, t: State, added: Commands, trains: set<string>, issued: seq<Decision>)
    requires PendingAgrees(s) && TrackWith(s, t, added) && Picks(issued, added, trains)
    ensures TrackWith(s, CancelledAll(t, issued), added - ResourcesOf(issued))
  {
    if issued == [] {
      assert added - {} == added;
    } else {
      var n := |issued| - 1;
      CancelEachTrack(s, t, added, trains, issued[..n]);
      LastUncancelled(issued[..n], added, trains, issued[n]);
      CancelOneTrack(s, CancelledAll(t, issued[..n]), added - ResourcesOf(issued[..n]), issued[n].resourceId);
      assert added - ResourcesOf(issued) == added - ResourcesOf(issued[..n]) - {issued[n].resourceId};
    }
  }

  lemma {:induction false} CancelEachBook(s: State, t: State, added: Commands, trains: set<string>, issued: seq<Decision>)
    requires PendingAgrees(s) && TrackWith(s, t, added) && Picks(issued, added, trains)
    requires BookWith(s.book, t.book, trains)
    ensures BookWith(s.book, CancelledAll(t, issued).book, trains - TrainsOf(issued))
  {
    if issued == [] {
      assert trains - TrainsOf(issued) == trains;
    } else {
      var n := |issued| - 1;
      var d, u := issued[n], CancelledAll(t, issued[..n]);
      CancelEachBook(s, t, added, trains, issued[..n]);
      CancelEachTrack(s, t, added, trains, issued[..n]);
      LastUncancelled(issued[..n], added, trains, d);
      CancelOneTrack(s, u, added - ResourcesOf(issued[..n]), d.resourceId);
      CancelRestores(s.book, u.book, trains - TrainsOf(issued[..n]), d.trainId);
      assert issued == issued[..n] + [d];
      TrainsNext(issued[..n], d);
      assert trains - TrainsOf(issued) == trains - TrainsOf(issued[..n]) - {d.trainId};
    }
  }

  ghost predicate OneTrainEach(granted: seq<Decision>) {
    forall i, j | 0 <= i < j < |granted| :: granted[i].trainId != granted[j].trainId
  }

  lemma {:induction false} GrantedTrainsDiffer(commands: Commands, ds: seq<Decision>)
    requires EachIssued(commands, ds)
    ensures OneTrainEach(Granted(ds))
  {
    if ds != [] {
      var n := |ds| - 1;
      var front := Granted(ds[..n]);
      assert EachIssued(commands, ds[..n]);
      GrantedTrainsDiffer(commands, ds[..n]);
      OneMoreIssued(commands, ds);
      forall i | 0 <= i < |front| ensures front[i].trainId in TrainsOf(front) {
      }
    }
  }

  lemma {:induction false} ByResourceHas(granted: seq<Decision>, i: nat)
    requires i < |granted| && |ByResource(granted)| == |granted|
    ensures granted[i].resourceId in ByResource(granted) && ByResource(granted)[granted[i].resourceId] == granted[i]
  {
    var n := |granted| - 1;
    ByResourceSize(granted[..n]);
    if i < n {
      ByResourceHas(granted[..n], i);
    }
  }

  lemma {:induction false} ByResourceSize(granted: seq<Decision>)
    ensures |ByResource(granted)| <= |granted|
  {
    if granted != [] {
      ByResourceSize(granted[..|granted| - 1]);
    }
  }

  lemma {:induction false} ByResourceKeys(granted: seq<Decision>, r: string) returns (i: nat)
    requires r in ByResource(granted)
    ensures i < |granted| && granted[i].resourceId == r
  {
    var n := |granted| - 1;
    if granted[n].resourceId == r {
      i := n;
    } else {
      i := ByResourceKeys(granted[..n], r);
    }
  }

  lemma StandsForPicks(issued: seq<Decision>, granted: seq<Decision>)
    requires StandsFor(issued, granted) && OneTrainEach(granted) && |ByResource(granted)| == |granted|
    ensures Picks(issued, ByResource(granted), TrainsOf(granted))
    ensures ByResource(granted).Keys <= ResourcesOf(issued) && TrainsOf(granted) <= TrainsOf(issued)
  {
    forall i | 0 <= i < |issued|
      ensures issued[i].resourceId in ByResource(granted)
      ensures ByResource(granted)[issued[i].resourceId].trainId == issued[i].trainId
    {
      ByResourceHas(granted, i);
    }
    forall r | r in ByResource(granted) ensures r in ResourcesOf(issued) {
      var i := ByResourceKeys(granted, r);
      ResourceOf(issued, i);
    }
    forall train | train in TrainsOf(granted) ensures train in TrainsOf(issued) {
      var i :| 0 <= i < |granted| && granted[i].trainId == train;
      assert issued[i].trainId == train;
    }
  }

  // When the commands stand for all releases, cancelling them takes everything back.
  lemma CancelAllRestores(s: State, t: State, granted: seq<Decision>, issued: seq<Decision>)
    requires PendingAgrees(s) && TrackWith(s, t, ByResource(granted)) && BookWith(s.book, t.book, TrainsOf(granted))
    requires StandsFor(issued, granted) && OneTrainEach(granted) && |ByResource(granted)| == |granted|
    ensures Restored(s, CancelledAll(t, issued))
  {
    var added, trains := ByResource(granted), TrainsOf(granted);
    StandsForPicks(issued, granted);
    CancelEachTrack(s, t, added, trains, issued);
    CancelEachBook(s, t, added, trains, issued);
    assert added - ResourcesOf(issued) == map[] && trains - TrainsOf(issued) == {};
    NothingPending(s, CancelledAll(t, issued));
  }

  lemma NothingPending(s: State, u: State)
    requires TrackWith(s, u, map[]) && BookWith(s.book, u.book, {})
    ensures Restored(s, u)
  {
    NothingAdded(s.book, u.book);
    assert u.corridors == s.corridors && u.pending == s.pending;
  }

  // When some release has no command, its decision is left pending.
  lemma SomeLeftPending(s: State, t: State, granted: seq<Decision>, issued: seq<Decision>)
    requires TrackWith(s, t, ByResource(granted)) && |ByResource(granted)| == |granted| && |issued| < |granted|
    ensures CancelledAll(t, issued).pending != s.pending
  {
    CancelledKeys(t, issued);
    var added := ByResource(granted).Keys;
    assert |added| == |granted|;
    if added <= ResourcesOf(issued) {
      SmallerSet(added, ResourcesOf(issued));
    }
    assert exists r :: r in added && r !in ResourcesOf(issued);
  }

  lemma SmallerSet(p: set<string>, q: set<string>)
    requires p <= q
    ensures |p| <= |q|
  {
    assert q == p + (q - p);
  }

  lemma CancelledHoldsNothing(b: Book, train: string, other: string)
    ensures R.HoldsNothing(Cancelled(b, train), train)
    ensures R.HoldsNothing(b, other) ==> R.HoldsNothing(Cancelled(b, train), other)
  {
    var c := Cancelled(b, train);
    forall ix | ix in b.intersections
      ensures HeldBy(c.intersections[ix].active, train) == {}
      ensures HeldBy(b.intersections[ix].active, other) == {} ==> HeldBy(c.intersections[ix].active, other) == {}
    {
      var was := b.intersections[ix].active;
      assert forall k | k in c.intersections[ix].active :: k in was && k !in HeldBy(was, train);
      assert forall k | k in c.intersections[ix].active && k !in HeldBy(was, other) :: was[k].trainId != other;
    }
  }

  // A train whose command is cancelled holds nothing afterwards, whatever it held before.
  lemma {:induction false} CancelEachFrees(
    s: State, t: State, added: Commands, trains: set<string>, issued: seq<Decision>, train: string)
    requires PendingAgrees(s) && TrackWith(s, t, added) && Picks(issued, added, trains) && train in TrainsOf(issued)
    ensures R.HoldsNothing(CancelledAll(t, issued).book, train)
  {
    var n := |issued| - 1;
    var front, d, u := issued[..n], issued[n], CancelledAll(t, issued[..n]);
    CancelEachTrack(s, t, added, trains, front);
    LastUncancelled(front, added, trains, d);
    CancelOneTrack(s, u, added - ResourcesOf(front), d.resourceId);
    CancelledHoldsNothing(u.book, d.trainId, train);
    assert issued == front + [d];
    TrainsNext(front, d);
    if train != d.trainId {
      CancelEachFrees(s, t, added, trains, front, train);
    }
  }

  /** When every release got its command, withdrawing the cycle leaves no reservation to any
      released train, of whatever it held before. */
  lemma WithdrawalFrees(
    cfg: ManagerConfig, s: State, rs: seq<string>, simulationNow: nat, wallNow: nat, ds: seq<Decision>,
    commands: Commands, first: nat, revision: nat, i: nat)
    requires ValidManagerConfig(cfg) && Safe(s) && |ds| == |rs|
    requires AllPlanned(cfg, s, rs, simulationNow, wallNow, ds) && EachIssued(commands, ds)
    requires i < |ds| && ds[i].action == Release
    ensures var issued := Issued(commands, ds, first, revision, simulationNow);
      R.HoldsNothing(CancelledAll(PlannedAll(s, rs, simulationNow, ds), issued).book, ds[i].trainId)
  {
    var issued, granted := Issued(commands, ds, first, revision, simulationNow), Granted(ds);
    PlanningTrack(cfg, s, rs, simulationNow, wallNow, ds);
    IssuedAtMostGranted(commands, ds, first, revision, simulationNow);
    GrantedTrainsDiffer(commands, ds);
    GrantedTrains(ds, ds[i].trainId);
    StandsForPicks(issued, granted);
    CancelEachFrees(s, PlannedAll(s, rs, simulationNow, ds), ByResource(granted), TrainsOf(granted), issued, ds[i].trainId);
  }

  /** Withdrawing a cycle that could not be stored takes planning back exactly, resource by
      resource and reservation by reservation, if and only if every release got its command
      and was of a train that held nothing: a release for a train that has a command already
      is left pending, and a train that still holds a passage loses that as well. */
  lemma WithdrawalUndoesPlanningIff(
    cfg: ManagerConfig, s: State, rs: seq<string>, simulationNow: nat, wallNow: nat, ds: seq<Decision>,
    commands: Commands, first: nat, revision: nat)
    requires ValidManagerConfig(cfg) && Safe(s) && |ds| == |rs|
    requires AllPlanned(cfg, s, rs, simulationNow, wallNow, ds)
    ensures var issued := Issued(commands, ds, first, revision, simulationNow);
      Restored(s, CancelledAll(PlannedAll(s, rs, simulationNow, ds), issued))
      <==> EachIssued(commands, ds) && ReleasesHoldNothing(s.book, ds)
  {
    var issued, granted := Issued(commands, ds, first, revision, simulationNow), Granted(ds);
    var t := PlannedAll(s, rs, simulationNow, ds);
    PlanningTrack(cfg, s, rs, simulationNow, wallNow, ds);
    IssuedAtMostGranted(commands, ds, first, revision, simulationNow);
    if EachIssued(commands, ds) {
      GrantedTrainsDiffer(commands, ds);
      if ReleasesHoldNothing(s.book, ds) {
        PlanningBook(cfg, s, rs, simulationNow, wallNow, ds);
        CancelAllRestores(s, t, granted, issued);
      } else {
        var i :| 0 <= i < |ds| && ds[i].action == Release && !R.HoldsNothing(s.book, ds[i].trainId);
        WithdrawalFrees(cfg, s, rs, simulationNow, wallNow, ds, commands, first, revision, i);
      }
    } else {
      SomeLeftPending(s, t, granted, issued);
    }
  }
}
