/** The candidate builder: from the monitored trains, which train waits at which resource
    and since when.  Distances along the route are inputs here. */
module CandidateBuilder {
  import opened Basics
  import opened Policy

  datatype Phase = Monitored | Approaching | WaitingPermission | ReleasePending | InsideResource

  // One corridor crossed by the train's line: its directional resource in the train's
  // direction of travel, the distance to its entry when it lies ahead, and the
  // intersection movements up to its exit.
  datatype Reach = Reach(resourceId: string, direction: Direction, distance: Option<real>, movementIds: seq<string>)

  // A monitored train; `reaches` is None when its line has no known route.
  datatype Train = Train(
    trainId: string,
    lineId: string,
    phase: Phase,
    simulationTime: nat,
    receivedWall: nat,
    reaches: Option<seq<Reach>>)

  datatype Distances = Distances(approach: real, controlPoint: real)

  // The suggestions of the rolling plan by train and resource.
  type Plan = map<(string, string), Option<real>>

  // Working state of one pass over the trains.
  datatype Build = Build(
    waiting: map<string, nat>,
    active: set<string>,
    candidates: map<string, seq<Candidate>>,
    phases: map<string, Phase>)

  // ----- waiting keys -----

  function Key(train: string, resource: string): string {
    train + "\n" + resource
  }

  predicate StartsWith(s: string, prefix: string) {
    |prefix| <= |s| && s[..|prefix|] == prefix
  }

  predicate OneLine(s: string) {
    '\n' !in s
  }

  /** For ids without newlines the key determines the train and the resource, and only a
      train's own keys start with its prefix. */
  lemma KeyDetermines(t: string, r: string, u: string, q: string)
    requires OneLine(t) && OneLine(u)
    ensures Key(t, r) == Key(u, q) ==> t == u && r == q
    ensures StartsWith(Key(t, r), u + "\n") <==> t == u
  {
    if |u| + 1 <= |Key(t, r)| && Key(t, r)[..|u| + 1] == u + "\n" {
      assert Key(t, r)[|u|] == (u + "\n")[|u|] && Key(t, r)[|t|] == '\n';
      assert forall i | 0 <= i < |u| :: Key(t, r)[i] == (u + "\n")[i] && u[i] in u;
      assert forall i | 0 <= i < |t| :: Key(t, r)[i] == t[i] && t[i] in t;
      assert |t| == |u|;
      assert t == Key(t, r)[..|u|] == u;
    }
    if t == u {
      assert Key(t, r)[..|u| + 1] == u + "\n";
      assert r == Key(t, r)[|t| + 1..];
    }
    if Key(t, r) == Key(u, q) {
      assert Key(u, q)[..|u| + 1] == u + "\n";
      assert q == Key(u, q)[|u| + 1..];
    }
  }

  /** Records of two different trains can coincide exactly when one id begins with the other
      and a newline. */
  lemma KeysCollideIff(t: string, u: string)
    requires t != u
    ensures (exists r, q :: Key(t, r) == Key(u, q)) <==> StartsWith(t, u + "\n") || StartsWith(u, t + "\n")
  {
    if r, q :| Key(t, r) == Key(u, q) {
      CollidingPrefix(t, r, u, q);
    }
    if StartsWith(t, u + "\n") {
      var rest := t[|u| + 1..];
      assert t == u + "\n" + rest;
      assert Key(t, "") == Key(u, rest + "\n");
    }
    if StartsWith(u, t + "\n") {
      var rest := u[|t| + 1..];
      assert u == t + "\n" + rest;
      assert Key(t, rest + "\n") == Key(u, "");
    }
  }

  lemma CollidingPrefix(t: string, r: string, u: string, q: string)
    requires t != u && Key(t, r) == Key(u, q)
    ensures StartsWith(t, u + "\n") || StartsWith(u, t + "\n")
  {
    var k := Key(t, r);
    assert k[..|t|] == t && k[|t|] == '\n' && k[..|u|] == u && k[|u|] == '\n';
    if |u| < |t| {
      assert t[..|u| + 1] == k[..|u| + 1] == u + "\n";
    } else if |t| < |u| {
      assert u[..|t| + 1] == k[..|t| + 1] == t + "\n";
    }
  }

  /** With a newline in an id the records of two trains can coincide. */
  lemma NewlineCollides()
    ensures exists t, r, u, q :: t != u && Key(t, r) == Key(u, q) && StartsWith(Key(t, r), u + "\n")
  {
    assert Key("a\nb", "c") == Key("a", "b\nc") && "a\nb" != "a";
    assert StartsWith(Key("a\nb", "c"), "a" + "\n");
  }

  // ----- choosing the corridor -----

  // The first nearest corridor within `approach`.
  function Nearest(reaches: seq<Reach>, approach: real): (n: Option<Reach>)
    ensures n.Some? ==> n.value in reaches && n.value.distance.Some? && n.value.distance.value <= approach
  {
    if reaches == [] then None
    else
      var best := Nearest(reaches[..|reaches| - 1], approach);
      var last := reaches[|reaches| - 1];
      if last.distance.Some? && last.distance.value <= approach &&
         (best.None? || last.distance.value < best.value.distance.value) then Some(last) else best
  }

  /** It is nearest: no corridor in range is nearer, and none is missed. */
  lemma {:induction false} NearestIsLeast(reaches: seq<Reach>, approach: real, r: Reach)
    requires r in reaches && r.distance.Some? && r.distance.value <= approach
    ensures var n := Nearest(reaches, approach); n.Some? && n.value.distance.value <= r.distance.value
  {
    var front, last := reaches[..|reaches| - 1], reaches[|reaches| - 1];
    assert reaches == front + [last];
    if r in front {
      NearestIsLeast(front, approach, r);
    }
  }

  method FindNearest(reaches: seq<Reach>, approach: real) returns (nearest: Option<Reach>)
    ensures nearest == Nearest(reaches, approach)
  {
    nearest := None;
    for i := 0 to |reaches|
      invariant nearest == Nearest(reaches[..i], approach)
    {
      assert reaches[..i + 1][..i] == reaches[..i];
      var reach := reaches[i];
      if reach.distance.Some? && reach.distance.value <= approach &&
         (nearest.None? || reach.distance.value < nearest.value.distance.value) {
        nearest := Some(reach);
      }
    }
    assert reaches[..|reaches|] == reaches;
  }

  // ----- one train, one batch -----

  // The waiting start a train gets: kept, unless there is none or time went back.
  function Arrival(waiting: map<string, nat>, key: string, now: nat): nat {
    if key !in waiting || waiting[key] == 0 || now < waiting[key] then now else waiting[key]
  }

  // The corridor at which the train competes now, if any.
  function Competing(d: Distances, t: Train): Option<Reach> {
    if t.phase == ReleasePending || t.phase == InsideResource || t.reaches.None? then None
    else
      var n := Nearest(t.reaches.value, d.approach);
      if n.Some? && n.value.distance.value <= d.controlPoint then n else None
  }

  function PhaseOf(d: Distances, t: Train): Phase {
    if t.phase == ReleasePending || t.phase == InsideResource then t.phase
    else if t.reaches.None? || Nearest(t.reaches.value, d.approach).None? then Monitored
    else if Competing(d, t).None? then Approaching
    else WaitingPermission
  }

  function CandidateOf(t: Train, reach: Reach, arrived: nat, plan: Plan): Candidate {
    Candidate(t.trainId, t.lineId, reach.direction, reach.resourceId, reach.movementIds, arrived, t.receivedWall,
              if (t.trainId, reach.resourceId) in plan then plan[(t.trainId, reach.resourceId)] else Some(0.0))
  }

  function ListAt(m: map<string, seq<Candidate>>, r: string): seq<Candidate> {
    if r in m then m[r] else []
  }

  // The lists with the train added at its resource.
  function Listing(t: Train, reach: Reach, arrived: nat, plan: Plan, lists: map<string, seq<Candidate>>)
    : map<string, seq<Candidate>>
  {
    lists[reach.resourceId := ListAt(lists, reach.resourceId) + [CandidateOf(t, reach, arrived, plan)]]
  }

  function Observed(d: Distances, plan: Plan, b: Build, t: Train): Build {
    var next := b.(phases := b.phases[t.trainId := PhaseOf(d, t)]);
    match Competing(d, t)
    case None => next
    case Some(reach) =>
      var key := Key(t.trainId, reach.resourceId);
      var arrived := Arrival(b.waiting, key, t.simulationTime);
      Build(b.waiting[key := arrived], b.active + {key}, Listing(t, reach, arrived, plan, b.candidates), next.phases)
  }

  function ObservedAll(d: Distances, plan: Plan, waiting: map<string, nat>, trains: seq<Train>): Build {
    if trains == [] then Build(waiting, {}, map[], map[])
    else Observed(d, plan, ObservedAll(d, plan, waiting, trains[..|trains| - 1]), trains[|trains| - 1])
  }

  // The records that survive the batch.
  function Kept(b: Build): map<string, nat> {
    map k | k in b.waiting && k in b.active :: b.waiting[k]
  }

  class DispatchCandidateBuilder {
    const distances: Distances
    var waiting: map<string, nat>

    constructor (distances: Distances)
      requires 0.0 <= distances.controlPoint <= distances.approach && distances.approach > 0.0
      ensures this.distances == distances && waiting == map[]
    {
      this.distances := distances;
      waiting := map[];
    }

    /** One batch: every competing train is listed once with its waiting start, and the
        records of trains that no longer compete are dropped. */
    method BuildCandidates(trains: seq<Train>, plan: Plan)
      returns (candidates: map<string, seq<Candidate>>, phases: map<string, Phase>)
      modifies this
      ensures var b := ObservedAll(distances, plan, old(waiting), trains);
        candidates == b.candidates && phases == b.phases && waiting == Kept(b)
    {
      candidates, phases := map[], map[];
      var active: set<string> := {};
      ghost var before := waiting;
      for i := 0 to |trains|
        invariant Build(waiting, active, candidates, phases) == ObservedAll(distances, plan, before, trains[..i])
      {
        assert trains[..i + 1][..i] == trains[..i];
        active, candidates, phases := ObserveTrain(trains[i], plan, active, candidates, phases);
      }
      assert trains[..|trains|] == trains;
      DropInactive(active);
    }

    // Looks at one train and lists it where it competes.
    method ObserveTrain(t: Train, plan: Plan, before: set<string>, listed: map<string, seq<Candidate>>,
                        known: map<string, Phase>)
      returns (active: set<string>, candidates: map<string, seq<Candidate>>, phases: map<string, Phase>)
      modifies this
      ensures Build(waiting, active, candidates, phases)
           == Observed(distances, plan, Build(old(waiting), before, listed, known), t)
    {
      active, candidates := before, listed;
      phases := known[t.trainId := Monitored];
      if t.phase == ReleasePending || t.phase == InsideResource {
        phases := phases[t.trainId := t.phase];
        return;
      }
      if t.reaches.None? {
        return;
      }
      var nearest := FindNearest(t.reaches.value, distances.approach);
      if nearest.None? {
        return;
      }
      phases := phases[t.trainId := Approaching];
      var reach := nearest.value;
      if reach.distance.value > distances.controlPoint {
        return;
      }
      var key := Key(t.trainId, reach.resourceId);
      active := active + {key};
      if key !in waiting || waiting[key] == 0 || t.simulationTime < waiting[key] {
        waiting := waiting[key := t.simulationTime];
      }
      candidates := Listing(t, reach, waiting[key], plan, candidates);
      phases := phases[t.trainId := WaitingPermission];
    }

    method DropInactive(active: set<string>)
      modifies this
      ensures waiting == map k | k in old(waiting) && k in active :: old(waiting)[k]
    {
      ghost var before := waiting;
      var left := waiting.Keys;
      while left != {}
        invariant left <= before.Keys
        invariant waiting == map k | k in before && (k in left || k in active) :: before[k]
      {
        var k :| k in left;
        left := left - {k};
        if k !in active {
          waiting := waiting - {k};
        }
      }
    }

    /** Forgetting a train drops every record whose key has its prefix. */
    method ForgetTrain(train: string)
      modifies this
      ensures waiting == Remembered(old(waiting), train)
    {
      var prefix := train + "\n";
      ghost var before := waiting;
      var left := waiting.Keys;
      while left != {}
        invariant left <= before.Keys
        invariant waiting == map k | k in before && (k in left || !StartsWith(k, prefix)) :: before[k]
      {
        var k :| k in left;
        left := left - {k};
        if StartsWith(k, prefix) {
          waiting := waiting - {k};
        }
      }
    }

    method Clear()
      modifies this
      ensures waiting == map[]
    {
      waiting := map[];
    }
  }

  // ----- what the records mean -----

  // Candidate `c` is listed for resource `r`.
  predicate Lists(m: map<string, seq<Candidate>>, r: string, c: Candidate) {
    c in ListAt(m, r)
  }

  // The listed candidates and the records of competing trains say the same.
  ghost predicate RecordsAreListed(b: Build) {
    forall k <- b.active :: k in b.waiting &&
      exists r, c :: Lists(b.candidates, r, c) && Key(c.trainId, r) == k && c.arrivedAt == b.waiting[k]
  }

  lemma ObservedKeepsRecords(d: Distances, plan: Plan, b: Build, t: Train)
    requires RecordsAreListed(b)
    ensures RecordsAreListed(Observed(d, plan, b, t))
  {
    var next := Observed(d, plan, b, t);
    forall k | k in next.active
      ensures k in next.waiting
      ensures exists r, c :: Lists(next.candidates, r, c) && Key(c.trainId, r) == k && c.arrivedAt == next.waiting[k]
    {
      if Competing(d, t).Some? && k == Key(t.trainId, Competing(d, t).value.resourceId) {
        var reach := Competing(d, t).value;
        var c := CandidateOf(t, reach, next.waiting[k], plan);
        assert Lists(next.candidates, reach.resourceId, c);
      } else {
        var r, c :| Lists(b.candidates, r, c) && Key(c.trainId, r) == k && c.arrivedAt == b.waiting[k];
        assert Lists(next.candidates, r, c);
      }
    }
  }

  /** Every record left after a batch belongs to a train listed in that batch, with the
      same waiting start. */
  lemma {:induction false} RecordsComeFromList(d: Distances, plan: Plan, waiting: map<string, nat>, trains: seq<Train>)
    ensures RecordsAreListed(ObservedAll(d, plan, waiting, trains))
  {
    if trains != [] {
      RecordsComeFromList(d, plan, waiting, trains[..|trains| - 1]);
      ObservedKeepsRecords(d, plan, ObservedAll(d, plan, waiting, trains[..|trains| - 1]), trains[|trains| - 1]);
    }
  }

  // Whoever is listed as waiting since at most `since` was already on record before.
  ghost predicate OldWaitersOnRecord(b: Build, before: map<string, nat>, since: nat) {
    && (forall k <- b.waiting :: b.waiting[k] <= since ==> k in before && before[k] == b.waiting[k])
    && (forall r, c | Lists(b.candidates, r, c) && c.arrivedAt <= since ::
          Key(c.trainId, r) in before && before[Key(c.trainId, r)] == c.arrivedAt)
  }

  lemma {:induction false} OldWaiters(
    d: Distances, plan: Plan, waiting: map<string, nat>, trains: seq<Train>, since: nat)
    requires forall t <- trains :: t.simulationTime > since
    ensures OldWaitersOnRecord(ObservedAll(d, plan, waiting, trains), waiting, since)
  {
    if trains != [] {
      OldWaiters(d, plan, waiting, trains[..|trains| - 1], since);
    }
  }

  // Some records were forgotten, none changed.
  ghost predicate Forgotten(records: map<string, nat>, left: map<string, nat>) {
    forall k <- left :: k in records && left[k] == records[k]
  }

  // Somebody with `c`'s train and waiting start is listed at `r`.
  ghost predicate ListsSame(m: map<string, seq<Candidate>>, r: string, c: Candidate) {
    exists e :: Lists(m, r, e) && e.trainId == c.trainId && e.arrivedAt == c.arrivedAt
  }

  /** Newcomers arrive later: in a batch observed after `since`, everyone listed as
      waiting since then or earlier was listed so in the batch before. */
  lemma NewcomersArriveLater(d: Distances, earlier: map<string, nat>, first: Batch, left: map<string, nat>,
                             later: Batch, since: nat, r: string, c: Candidate)
    requires OneLineTrains(first) && OneLineTrains(later)
    requires Forgotten(Kept(ObservedAll(d, first.plan, earlier, first.trains)), left)
    requires forall t <- later.trains :: t.simulationTime > since
    requires Lists(ObservedAll(d, later.plan, left, later.trains).candidates, r, c) && c.arrivedAt <= since
    ensures ListsSame(ObservedAll(d, first.plan, earlier, first.trains).candidates, r, c)
  {
    var b := ObservedAll(d, first.plan, earlier, first.trains);
    OldWaiters(d, later.plan, left, later.trains, since);
    RecordsComeFromList(d, first.plan, earlier, first.trains);
    var k := Key(c.trainId, r);
    assert k in b.active;
    var q, e :| Lists(b.candidates, q, e) && Key(e.trainId, q) == k && e.arrivedAt == b.waiting[k];
    ListedTrains(d, first.plan, earlier, first.trains, q, e);
    ListedTrains(d, later.plan, left, later.trains, r, c);
    KeyDetermines(c.trainId, r, e.trainId, q);
  }

  datatype Batch = Batch(trains: seq<Train>, plan: Plan)

  ghost predicate OneLineTrains(batch: Batch) {
    forall t <- batch.trains :: OneLine(t.trainId)
  }

  // What happens to the builder and to the trains it observes: a batch is built, a train is
  // acknowledged to have entered its resource, or a train is forgotten because it cleared
  // its passage or is no longer heard of.
  datatype Happening = Observe(batch: Batch) | Enter(train: string) | Forget(train: string)

  function Remembered(records: map<string, nat>, train: string): map<string, nat> {
    map k | k in records && !StartsWith(k, train + "\n") :: records[k]
  }

  function RecordsAfter(d: Distances, hs: seq<Happening>): map<string, nat> {
    if hs == [] then map[]
    else
      var before := RecordsAfter(d, hs[..|hs| - 1]);
      match hs[|hs| - 1]
      case Observe(b) => Kept(ObservedAll(d, b.plan, before, b.trains))
      case Enter(_) => before
      case Forget(train) => Remembered(before, train)
  }

  // The trains that entered and were not forgotten since.
  function InsideAfter(hs: seq<Happening>): set<string> {
    if hs == [] then {}
    else
      var before := InsideAfter(hs[..|hs| - 1]);
      match hs[|hs| - 1]
      case Observe(_) => before
      case Enter(train) => before + {train}
      case Forget(train) => before - {train}
  }

  ghost predicate FaithfulAt(hs: seq<Happening>, i: nat)
    requires i < |hs|
  {
    hs[i].Observe? ==>
      && OneLineTrains(hs[i].batch)
      && forall t <- hs[i].batch.trains :: t.trainId in InsideAfter(hs[..i]) ==> t.phase == InsideResource
  }

  /** Batches show a train that entered as inside until it is forgotten. */
  ghost predicate Faithful(hs: seq<Happening>) {
    forall i | 0 <= i < |hs| :: FaithfulAt(hs, i)
  }

  function OutputAt(d: Distances, hs: seq<Happening>, i: nat): map<string, seq<Candidate>>
    requires i < |hs| && hs[i].Observe?
  {
    ObservedAll(d, hs[i].batch.plan, RecordsAfter(d, hs[..i]), hs[i].batch.trains).candidates
  }

  // The batches after `h` and before `n` were observed after `since`.
  ghost predicate ObservedLater(hs: seq<Happening>, h: nat, n: nat, since: nat)
    requires n <= |hs|
  {
    forall i | h < i < n && hs[i].Observe? :: forall t <- hs[i].batch.trains :: t.simulationTime > since
  }

  // A record as old as `since` was made by a train listed in batch `h`.
  lemma {:induction false} OldRecords(d: Distances, hs: seq<Happening>, h: nat, n: nat, since: nat, k: string)
    requires h < n <= |hs| && hs[h].Observe? && ObservedLater(hs, h, n, since)
    requires k in RecordsAfter(d, hs[..n]) && RecordsAfter(d, hs[..n])[k] <= since
    ensures exists r, c :: Lists(OutputAt(d, hs, h), r, c) && Key(c.trainId, r) == k
                           && c.arrivedAt == RecordsAfter(d, hs[..n])[k]
  {
    assert hs[..n][..n - 1] == hs[..n - 1];
    var before := RecordsAfter(d, hs[..n - 1]);
    if n == h + 1 {
      RecordsComeFromList(d, hs[h].batch.plan, before, hs[h].batch.trains);
    } else {
      if hs[n - 1].Observe? {
        OldWaiters(d, hs[n - 1].batch.plan, before, hs[n - 1].batch.trains, since);
      }
      OldRecords(d, hs, h, n - 1, since, k);
    }
  }

  /** Over a whole history: whoever is listed as waiting since `since` or earlier was so
      listed in an earlier batch, as long as all batches after that were observed after
      `since`. */
  lemma WaitersWereThere(d: Distances, hs: seq<Happening>, h: nat, i: nat, since: nat, r: string, c: Candidate)
    requires Faithful(hs) && h <= i < |hs| && hs[h].Observe? && hs[i].Observe? && ObservedLater(hs, h, i + 1, since)
    requires Lists(OutputAt(d, hs, i), r, c) && c.arrivedAt <= since
    ensures ListsSame(OutputAt(d, hs, h), r, c)
  {
    if i == h {
      assert Lists(OutputAt(d, hs, h), r, c);
    } else {
      var records := RecordsAfter(d, hs[..i]);
      OldWaiters(d, hs[i].batch.plan, records, hs[i].batch.trains, since);
      OldRecords(d, hs, h, i, since, Key(c.trainId, r));
      var q, e :| Lists(OutputAt(d, hs, h), q, e) && Key(e.trainId, q) == Key(c.trainId, r)
                  && e.arrivedAt == records[Key(c.trainId, r)];
      assert FaithfulAt(hs, h) && FaithfulAt(hs, i);
      ListedTrains(d, hs[h].batch.plan, RecordsAfter(d, hs[..h]), hs[h].batch.trains, q, e);
      ListedTrains(d, hs[i].batch.plan, records, hs[i].batch.trains, r, c);
      KeyDetermines(c.trainId, r, e.trainId, q);
    }
  }

  // A train that entered is still inside, or its old record is gone.
  lemma {:induction false} EnteredRecords(
    d: Distances, hs: seq<Happening>, e: nat, n: nat, since: nat, train: string, r: string)
    requires e < n <= |hs| && hs[e] == Enter(train) && ObservedLater(hs, e, n, since)
    ensures var records := RecordsAfter(d, hs[..n]);
      train in InsideAfter(hs[..n]) || (Key(train, r) in records ==> records[Key(train, r)] > since)
  {
    assert hs[..n][..n - 1] == hs[..n - 1];
    if n - 1 > e {
      EnteredRecords(d, hs, e, n - 1, since, train, r);
      match hs[n - 1]
      case Observe(b) => OldWaiters(d, b.plan, RecordsAfter(d, hs[..n - 1]), b.trains, since);
      case Enter(_) =>
      case Forget(gone) =>
        if gone == train {
          assert Key(train, r)[..|train| + 1] == train + "\n";
        }
    }
  }

  /** A train that entered is listed again only as a newcomer: while it is inside it is not
      listed, and what ends that drops its waiting records. */
  lemma EnteredReturnsAsNewcomer(d: Distances, hs: seq<Happening>, e: nat, i: nat, since: nat, r: string, c: Candidate)
    requires Faithful(hs) && e < i < |hs| && hs[e] == Enter(c.trainId) && hs[i].Observe?
    requires ObservedLater(hs, e, i + 1, since) && Lists(OutputAt(d, hs, i), r, c)
    ensures c.arrivedAt > since
  {
    var records := RecordsAfter(d, hs[..i]);
    EnteredRecords(d, hs, e, i, since, c.trainId, r);
    assert FaithfulAt(hs, i);
    ListedTrains(d, hs[i].batch.plan, records, hs[i].batch.trains, r, c);
    OldWaiters(d, hs[i].batch.plan, records, hs[i].batch.trains, since);
  }

  // Listed trains are among the observed ones and not in a released phase.
  lemma {:induction false} ListedTrains(
    d: Distances, plan: Plan, waiting: map<string, nat>, trains: seq<Train>, r: string, c: Candidate)
    requires Lists(ObservedAll(d, plan, waiting, trains).candidates, r, c)
    ensures exists t :: t in trains && t.trainId == c.trainId && t.phase != ReleasePending && t.phase != InsideResource
    ensures exists t :: t in trains && OneLine(t.trainId) == OneLine(c.trainId) && t.trainId == c.trainId
  {
    var front, last := trains[..|trains| - 1], trains[|trains| - 1];
    var b := ObservedAll(d, plan, waiting, front);
    assert trains == front + [last];
    if Lists(b.candidates, r, c) {
      ListedTrains(d, plan, waiting, front, r, c);
    } else {
      assert last.trainId == c.trainId;
    }
  }

  /** A competing train keeps its waiting start from batch to batch unless time goes back;
      telemetry updates never reset it. */
  lemma {:induction false} WaitingStartKept(
    d: Distances, plan: Plan, waiting: map<string, nat>, trains: seq<Train>, i: nat)
    requires i < |trains| && Competing(d, trains[i]).Some?
    requires forall t <- trains :: OneLine(t.trainId)
    requires forall m, n | 0 <= m < n < |trains| :: trains[m].trainId != trains[n].trainId
    ensures var b := ObservedAll(d, plan, waiting, trains);
      var key := Key(trains[i].trainId, Competing(d, trains[i]).value.resourceId);
      key in Kept(b) && Kept(b)[key] == Arrival(waiting, key, trains[i].simulationTime)
  {
    var front, last := trains[..|trains| - 1], trains[|trains| - 1];
    var key := Key(trains[i].trainId, Competing(d, trains[i]).value.resourceId);
    if i == |trains| - 1 {
      UnseenKey(d, plan, waiting, front, trains[i].trainId, Competing(d, trains[i]).value.resourceId);
    } else {
      WaitingStartKept(d, plan, waiting, front, i);
      if Competing(d, last).Some? {
        KeyDetermines(trains[i].trainId, Competing(d, trains[i]).value.resourceId,
                      last.trainId, Competing(d, last).value.resourceId);
      }
    }
  }

  lemma {:induction false} UnseenKey(
    d: Distances, plan: Plan, waiting: map<string, nat>, trains: seq<Train>, train: string, r: string)
    requires OneLine(train) && forall t <- trains :: t.trainId != train && OneLine(t.trainId)
    ensures var b := ObservedAll(d, plan, waiting, trains); var key := Key(train, r);
      key in b.waiting <==> key in waiting
    ensures var b := ObservedAll(d, plan, waiting, trains); var key := Key(train, r);
      key in waiting ==> b.waiting[key] == waiting[key]
  {
    if trains != [] {
      UnseenKey(d, plan, waiting, trains[..|trains| - 1], train, r);
      var last := trains[|trains| - 1];
      if Competing(d, last).Some? {
        KeyDetermines(train, r, last.trainId, Competing(d, last).value.resourceId);
      }
    }
  }
}
