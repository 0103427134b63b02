/** What a batch of the candidate builder yields, on the fields of its trains: who is listed
    where, in which order, since when, and in which phase every train is. */
module CandidateLaws {
  import opened Basics
  import opened Policy
  import opened CandidateBuilder

  // ----- where a train stands -----

  predicate InRange(reach: Reach, approach: real) {
    reach.distance.Some? && reach.distance.value <= approach
  }

  // Of the corridors within `approach` the `i`-th is nearest, the first of several.
  predicate FirstNearest(reaches: seq<Reach>, approach: real, i: int) {
    && 0 <= i < |reaches| && InRange(reaches[i], approach)
    && (forall j | 0 <= j < i && InRange(reaches[j], approach) ::
          reaches[i].distance.value < reaches[j].distance.value)
    && (forall j | i < j < |reaches| && InRange(reaches[j], approach) ::
          reaches[i].distance.value <= reaches[j].distance.value)
  }

  // The train has neither a command nor entered, and its line has a route.
  predicate Moves(t: Train) {
    t.phase != ReleasePending && t.phase != InsideResource && t.reaches.Some?
  }

  // The train moves, and the `i`-th corridor ahead is the first nearest within `approach`.
  predicate Approaches(d: Distances, t: Train, i: int) {
    Moves(t) && FirstNearest(t.reaches.value, d.approach, i)
  }

  // The train stands before its `i`-th corridor: it is past the control point.
  predicate StandsBefore(d: Distances, t: Train, i: int) {
    Approaches(d, t, i) && t.reaches.value[i].distance.value <= d.controlPoint
  }

  // The train stands at resource `r`.
  ghost predicate StandsAt(d: Distances, t: Train, r: string) {
    exists i :: StandsBefore(d, t, i) && t.reaches.value[i].resourceId == r
  }

  lemma FirstNearestIsOne(reaches: seq<Reach>, approach: real, i: int, j: int)
    requires FirstNearest(reaches, approach, i) && FirstNearest(reaches, approach, j)
    ensures i == j
  {
  }

  lemma {:induction false} NearestAt(reaches: seq<Reach>, approach: real) returns (i: int)
    ensures match Nearest(reaches, approach)
      case None => forall j | 0 <= j < |reaches| :: !InRange(reaches[j], approach)
      case Some(n) => FirstNearest(reaches, approach, i) && reaches[i] == n
  {
    i := 0;
    if reaches != [] {
      var front, last := reaches[..|reaches| - 1], reaches[|reaches| - 1];
      i := NearestAt(front, approach);
      if Nearest(reaches, approach) != Nearest(front, approach) {
        i := |reaches| - 1;
      }
    }
  }

  lemma CompetesWhereItStands(d: Distances, t: Train) returns (i: int)
    ensures match Competing(d, t)
      case None => forall j :: !StandsBefore(d, t, j)
      case Some(n) => StandsBefore(d, t, i) && t.reaches.value[i] == n
  {
    i := 0;
    if t.reaches.Some? {
      i := NearestAt(t.reaches.value, d.approach);
      forall j | StandsBefore(d, t, j) ensures Competing(d, t).Some? {
        FirstNearestIsOne(t.reaches.value, d.approach, i, j);
      }
    }
  }

  // ----- who is listed -----

  // What a list says of a train that stands before its `i`-th corridor.
  predicate Says(plan: Plan, c: Candidate, t: Train, i: int)
    requires t.reaches.Some? && 0 <= i < |t.reaches.value|
  {
    var reach := t.reaches.value[i];
    && c.trainId == t.trainId && c.lineId == t.lineId && c.receivedWall == t.receivedWall
    && c.resourceId == reach.resourceId && c.direction == reach.direction && c.movementIds == reach.movementIds
    && c.planPriority == if (t.trainId, reach.resourceId) in plan then plan[(t.trainId, reach.resourceId)] else Some(0.0)
  }

  ghost predicate Describes(d: Distances, plan: Plan, c: Candidate, t: Train, r: string) {
    exists i :: StandsBefore(d, t, i) && t.reaches.value[i].resourceId == r && Says(plan, c, t, i)
  }

  // The places in the batch of the trains that stand at `r`.
  ghost function Standing(d: Distances, trains: seq<Train>, r: string): seq<nat> {
    if trains == [] then []
    else
      var front := Standing(d, trains[..|trains| - 1], r);
      if StandsAt(d, trains[|trains| - 1], r) then front + [|trains| - 1] else front
  }

  lemma {:induction false} StandingIff(d: Distances, trains: seq<Train>, r: string)
    ensures var who := Standing(d, trains, r);
      && (forall k, l | 0 <= k < l < |who| :: who[k] < who[l])
      && (forall n :: n in who <==> 0 <= n < |trains| && StandsAt(d, trains[n], r))
  {
    if trains != [] {
      StandingIff(d, trains[..|trains| - 1], r);
      var front := Standing(d, trains[..|trains| - 1], r);
      assert forall k | 0 <= k < |front| :: front[k] in front;
    }
  }

  lemma {:induction false} AsManyAsStand(
    d: Distances, plan: Plan, waiting: map<string, nat>, trains: seq<Train>, r: string)
    ensures |ListAt(ObservedAll(d, plan, waiting, trains).candidates, r)| == |Standing(d, trains, r)|
  {
    if trains != [] {
      AsManyAsStand(d, plan, waiting, trains[..|trains| - 1], r);
      ListedOneMore(d, plan, ObservedAll(d, plan, waiting, trains[..|trains| - 1]), trains[|trains| - 1], r);
    }
  }

  lemma {:induction false} ListNamesStanding(
    d: Distances, plan: Plan, waiting: map<string, nat>, trains: seq<Train>, r: string, k: nat)
    requires k < |Standing(d, trains, r)|
    ensures var list, n := ListAt(ObservedAll(d, plan, waiting, trains).candidates, r), Standing(d, trains, r)[k];
      k < |list| && n < |trains| && Describes(d, plan, list[k], trains[n], r)
  {
    var front, t := trains[..|trains| - 1], trains[|trains| - 1];
    var list := ListAt(ObservedAll(d, plan, waiting, front).candidates, r);
    AsManyAsStand(d, plan, waiting, front, r);
    ListedOneMore(d, plan, ObservedAll(d, plan, waiting, front), t, r);
    if k < |Standing(d, front, r)| {
      ListNamesStanding(d, plan, waiting, front, r, k);
      assert ListAt(ObservedAll(d, plan, waiting, trains).candidates, r)[..|list|][k] == list[k];
    }
  }

  /** Exactly who is listed at a resource: the trains of the batch that stand at it, in the
      order of the batch and each once, with what is known of the train, its corridor and the
      plan. */
  lemma ListedIff(d: Distances, plan: Plan, waiting: map<string, nat>, trains: seq<Train>, r: string)
    returns (who: seq<nat>)
    ensures forall k, l | 0 <= k < l < |who| :: who[k] < who[l]
    ensures forall n :: n in who <==> 0 <= n < |trains| && StandsAt(d, trains[n], r)
    ensures var list := ListAt(ObservedAll(d, plan, waiting, trains).candidates, r);
      && |list| == |who|
      && forall k | 0 <= k < |who| :: who[k] < |trains| && Describes(d, plan, list[k], trains[who[k]], r)
  {
    who := Standing(d, trains, r);
    StandingIff(d, trains, r);
    AsManyAsStand(d, plan, waiting, trains, r);
    forall k | 0 <= k < |who|
      ensures who[k] < |trains|
      ensures Describes(d, plan, ListAt(ObservedAll(d, plan, waiting, trains).candidates, r)[k], trains[who[k]], r)
    {
      ListNamesStanding(d, plan, waiting, trains, r, k);
    }
  }

  lemma ListedOneMore(d: Distances, plan: Plan, b: Build, t: Train, r: string)
    ensures var list, longer := ListAt(b.candidates, r), ListAt(Observed(d, plan, b, t).candidates, r);
      if StandsAt(d, t, r) then |longer| == |list| + 1 && longer[..|list|] == list
                                && Describes(d, plan, longer[|list|], t, r)
      else longer == list
  {
    var i := CompetesWhereItStands(d, t);
    if StandsAt(d, t, r) {
      StandsAtOne(d, t, r, i);
      var longer := ListAt(Observed(d, plan, b, t).candidates, r);
      assert Says(plan, longer[|longer| - 1], t, i);
    }
  }

  lemma StandsAtOne(d: Distances, t: Train, r: string, i: int)
    requires StandsAt(d, t, r) && (StandsBefore(d, t, i) || forall j :: !StandsBefore(d, t, j))
    ensures StandsBefore(d, t, i) && t.reaches.value[i].resourceId == r
  {
    var j :| StandsBefore(d, t, j) && t.reaches.value[j].resourceId == r;
    if StandsBefore(d, t, i) {
      FirstNearestIsOne(t.reaches.value, d.approach, i, j);
    }
  }

  // ----- the phases -----

  // The nearest corridor within `approach` is beyond the control point.
  ghost predicate NearestBeyondControl(d: Distances, t: Train) {
    exists i :: Approaches(d, t, i) && t.reaches.value[i].distance.value > d.controlPoint
  }

  ghost predicate NearestPastControl(d: Distances, t: Train) {
    exists i :: StandsBefore(d, t, i)
  }

  predicate NothingInRange(d: Distances, t: Train) {
    t.reaches.None? || forall j | 0 <= j < |t.reaches.value| :: !InRange(t.reaches.value[j], d.approach)
  }

  // The phase of a train: its own if it has a command or entered, and else by its nearest corridor.
  ghost predicate PhaseIs(d: Distances, t: Train, p: Phase) {
    if t.phase == ReleasePending || t.phase == InsideResource then p == t.phase
    else
      && (p == Approaching <==> NearestBeyondControl(d, t))
      && (p == WaitingPermission <==> NearestPastControl(d, t))
      && (p == Monitored <==> NothingInRange(d, t))
  }

  /** The phase of every train, by the last report of it in the batch: its own if it has a
      command or entered; else monitored when no corridor is within the approach distance,
      approaching when the least distance within it is beyond the control point, and
      waiting otherwise. */
  lemma PhasesIff(d: Distances, plan: Plan, waiting: map<string, nat>, trains: seq<Train>, n: nat)
    requires n < |trains| && forall m | n < m < |trains| :: trains[m].trainId != trains[n].trainId
    ensures var t, phases := trains[n], ObservedAll(d, plan, waiting, trains).phases;
      t.trainId in phases && PhaseIs(d, t, phases[t.trainId])
  {
    LastReportCounts(d, plan, waiting, trains, n);
    PhaseOnFields(d, trains[n]);
  }

  lemma {:induction false} LastReportCounts(
    d: Distances, plan: Plan, waiting: map<string, nat>, trains: seq<Train>, n: nat)
    requires n < |trains| && forall m | n < m < |trains| :: trains[m].trainId != trains[n].trainId
    ensures var t, phases := trains[n], ObservedAll(d, plan, waiting, trains).phases;
      t.trainId in phases && phases[t.trainId] == PhaseOf(d, t)
  {
    var last := |trains| - 1;
    if n < last {
      assert trains[..last][n] == trains[n];
      LastReportCounts(d, plan, waiting, trains[..last], n);
    }
  }

  lemma PhaseOnFields(d: Distances, t: Train)
    ensures PhaseIs(d, t, PhaseOf(d, t))
  {
    if Moves(t) {
      var i := NearestAt(t.reaches.value, d.approach);
      if Nearest(t.reaches.value, d.approach).Some? {
        PhaseAt(d, t, i);
      }
    }
  }

  lemma PhaseAt(d: Distances, t: Train, i: int)
    requires Approaches(d, t, i)
    ensures NearestBeyondControl(d, t) <==> t.reaches.value[i].distance.value > d.controlPoint
    ensures NearestPastControl(d, t) <==> t.reaches.value[i].distance.value <= d.controlPoint
    ensures !NothingInRange(d, t)
  {
    forall j | Approaches(d, t, j) ensures i == j {
      FirstNearestIsOne(t.reaches.value, d.approach, i, j);
    }
    assert t.reaches.value[i].distance.value <= d.controlPoint ==> StandsBefore(d, t, i);
  }

  // ----- since when -----

  // The waiting start of a train with records `waiting`: the one on record, unless there is
  // none or the clock is behind it.
  function Since(waiting: map<string, nat>, train: string, r: string, now: nat): nat {
    var key := train + "\n" + r;
    if key in waiting && 0 < waiting[key] <= now then waiting[key] else now
  }

  /** Since when a train is listed: since the start on record, which it keeps, and otherwise
      since the time of its report. */
  lemma {:induction false} ListedSince(
    d: Distances, plan: Plan, waiting: map<string, nat>, trains: seq<Train>, n: nat, r: string, c: Candidate)
    requires n < |trains| && forall t <- trains :: OneLine(t.trainId)
    requires forall l, m | 0 <= l < m < |trains| :: trains[l].trainId != trains[m].trainId
    requires c in ListAt(ObservedAll(d, plan, waiting, trains).candidates, r) && c.trainId == trains[n].trainId
    ensures var records := Kept(ObservedAll(d, plan, waiting, trains)); var key := c.trainId + "\n" + r;
      && c.arrivedAt == Since(waiting, c.trainId, r, trains[n].simulationTime)
      && key in records && records[key] == c.arrivedAt
  {
    var last := |trains| - 1;
    var front, t := trains[..last], trains[last];
    var before := ObservedAll(d, plan, waiting, front);
    if c in ListAt(before.candidates, r) {
      ListedBefore(d, plan, waiting, trains, n, r, c);
      ListedSince(d, plan, waiting, front, n, r, c);
      OtherRecordKept(d, plan, before, t, c.trainId, r);
    } else {
      ListedNow(d, plan, before, t, r, c);
      assert n == last;
      UnseenKey(d, plan, waiting, front, c.trainId, r);
    }
  }

  lemma ListedBefore(
    d: Distances, plan: Plan, waiting: map<string, nat>, trains: seq<Train>, n: nat, r: string, c: Candidate)
    requires n < |trains| && c.trainId == trains[n].trainId
    requires forall l, m | 0 <= l < m < |trains| :: trains[l].trainId != trains[m].trainId
    requires c in ListAt(ObservedAll(d, plan, waiting, trains[..|trains| - 1]).candidates, r)
    ensures n < |trains| - 1
  {
    ListedTrains(d, plan, waiting, trains[..|trains| - 1], r, c);
  }

  lemma OtherRecordKept(d: Distances, plan: Plan, b: Build, t: Train, train: string, r: string)
    requires OneLine(train) && OneLine(t.trainId) && train != t.trainId && Key(train, r) in Kept(b)
    ensures Key(train, r) in Kept(Observed(d, plan, b, t))
    ensures Kept(Observed(d, plan, b, t))[Key(train, r)] == Kept(b)[Key(train, r)]
  {
    if Competing(d, t).Some? {
      KeyDetermines(train, r, t.trainId, Competing(d, t).value.resourceId);
    }
  }

  lemma ListedNow(d: Distances, plan: Plan, b: Build, t: Train, r: string, c: Candidate)
    requires c in ListAt(Observed(d, plan, b, t).candidates, r) && c !in ListAt(b.candidates, r)
    ensures c.trainId == t.trainId && c.arrivedAt == Arrival(b.waiting, Key(t.trainId, r), t.simulationTime)
    ensures Key(c.trainId, r) in Kept(Observed(d, plan, b, t))
    ensures Kept(Observed(d, plan, b, t))[Key(c.trainId, r)] == c.arrivedAt
  {
  }

  /** Records are left for exactly the trains listed, at the resource where they are. */
  lemma RecordedIff(d: Distances, plan: Plan, waiting: map<string, nat>, trains: seq<Train>, key: string)
    ensures var b := ObservedAll(d, plan, waiting, trains);
      key in Kept(b) <==> exists r, c :: Lists(b.candidates, r, c) && c.trainId + "\n" + r == key
  {
    RecordsComeFromList(d, plan, waiting, trains);
    ListedAreRecorded(d, plan, waiting, trains);
    var b := ObservedAll(d, plan, waiting, trains);
    if key in Kept(b) {
      var r, c :| Lists(b.candidates, r, c) && Key(c.trainId, r) == key;
      assert c.trainId + "\n" + r == key;
    }
    if r, c :| Lists(b.candidates, r, c) && c.trainId + "\n" + r == key {
      assert Key(c.trainId, r) == key;
    }
  }

  lemma {:induction false} ListedAreRecorded(d: Distances, plan: Plan, waiting: map<string, nat>, trains: seq<Train>)
    ensures var b := ObservedAll(d, plan, waiting, trains);
      && b.active <= b.waiting.Keys
      && forall r, c | Lists(b.candidates, r, c) :: Key(c.trainId, r) in b.active
  {
    if trains != [] {
      ListedAreRecorded(d, plan, waiting, trains[..|trains| - 1]);
    }
  }

  /** Forgetting a train drops exactly its own records, if no id has a line break. */
  lemma ForgetsItsOwn(records: map<string, nat>, train: string, u: string, r: string)
    requires OneLine(train) && OneLine(u)
    ensures var left, key := Remembered(records, train), u + "\n" + r;
      && (key in left <==> key in records && u != train)
      && (key in left ==> left[key] == records[key])
  {
    KeyDetermines(u, r, train, "");
    assert Key(u, r) == u + "\n" + r;
  }
}
