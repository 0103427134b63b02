/** What the service's passes over resources, decisions, rows and intersections amount to, on
    the fields of what they leave behind. */
module ServiceLaws {
  import opened Basics
  import opened Reservations
  import opened Policy
  import opened DispatchSpec
  import opened Lifecycle
  import opened Setup
  import opened Cycle
  import L = LiveRows

  // ----- the state built from a topology -----

  // The id of a directional resource.
  function Id(corridorId: string, d: Direction): string {
    match d
    case Forward => corridorId + ":FORWARD"
    case Reverse => corridorId + ":REVERSE"
  }

  // A shared corridor of the list has the id.
  ghost predicate IsShared(shared: seq<Shared>, corridorId: string) {
    exists i :: 0 <= i < |shared| && shared[i].corridorId == corridorId
  }

  // A shared corridor of the list has the id and the line.
  ghost predicate Serves(shared: seq<Shared>, corridorId: string, l: string) {
    exists i :: 0 <= i < |shared| && shared[i].corridorId == corridorId && l in shared[i].members
  }

  predicate Empty(cfg: ManagerConfig, c: Corridor, id: string, d: Direction, wallNow: nat) {
    && c.resourceId == Id(id, d) && c.corridorId == id && c.direction == d
    && c.receivedWall == wallNow && c.lastEntry == 0 && c.occupancy == 0 && !c.commandPending
    && c.minimumHeadway == cfg.policy.defaultMinimumHeadway && c.capacity == cfg.defaultCapacity
    && c.downstreamAvailable && c.candidates == []
  }

  /** A rebuilt manager knows exactly the two directions of the topology's shared corridors,
      empty and with the default headway and capacity. */
  lemma BuiltResources(cfg: ManagerConfig, t: Topology, wallNow: nat, r: string)
    requires ValidManagerConfig(cfg)
    ensures var s := Built(cfg, t, wallNow);
      && (r in s.corridors <==> exists id, d :: IsShared(t.shared, id) && r == Id(id, d))
      && forall id, d | IsShared(t.shared, id) :: Id(id, d) in s.corridors && Empty(cfg, s.corridors[Id(id, d)], id, d, wallNow)
    ensures Built(cfg, t, wallNow).pending == map[]
  {
    var s := Built(cfg, t, wallNow);
    BuiltFromTopology(cfg, t, wallNow);
    forall id, d ensures (id, d) in Pairs(t.shared) <==> IsShared(t.shared, id) {
      PairsAre(t.shared, id, d);
    }
    forall id, d ensures Id(id, d) == ResourceId(id, d) {
    }
    if r in s.corridors {
      var p :| p in Pairs(t.shared) && r == ResourceId(p.0, p.1);
      assert IsShared(t.shared, p.0) && r == Id(p.0, p.1);
    }
    forall id, d | IsShared(t.shared, id)
      ensures Id(id, d) in s.corridors && Empty(cfg, s.corridors[Id(id, d)], id, d, wallNow)
    {
      assert (id, d) in Pairs(t.shared);
    }
  }

  lemma {:induction false} PairsAre(shared: seq<Shared>, id: string, d: Direction)
    ensures (id, d) in Pairs(shared) <==> IsShared(shared, id)
  {
    if shared != [] {
      var front, last := shared[..|shared| - 1], shared[|shared| - 1];
      PairsAre(front, id, d);
      assert shared == front + [last];
      if i :| 0 <= i < |shared| && shared[i].corridorId == id && i < |front| {
        assert front[i].corridorId == id;
      }
      if i :| 0 <= i < |front| && front[i].corridorId == id {
        assert shared[i].corridorId == id;
      }
      assert d == Forward || d == Reverse;
      assert last.corridorId == id ==> shared[|shared| - 1].corridorId == id;
    }
  }

  /** A line has a state at a resource exactly if a shared corridor of the resource has it, it
      has a name and its target headway is not zero: the given target, fifteen seconds by
      default, and no history. */
  lemma BuiltLines(cfg: ManagerConfig, t: Topology, wallNow: nat, id: string, d: Direction, l: string)
    requires ValidManagerConfig(cfg)
    ensures var s := Built(cfg, t, wallNow); var r := Id(id, d);
      var target := if l in t.headways then t.headways[l] else 15000;
      && ((r in s.lines && l in s.lines[r]) <==> Serves(t.shared, id, l) && l != "" && target != 0)
      && (r in s.lines && l in s.lines[r] ==> s.lines[r][l] == LineState(target, 0, 0, 0.0))
  {
    BuiltFromTopology(cfg, t, wallNow);
    assert Id(id, d) == ResourceId(id, d);
    assert LineRight(Built(cfg, t, wallNow), t.shared, t.headways, Id(id, d), l);
    UsesIff(t.shared, id, d, l);
  }

  lemma {:induction false} UsesIff(shared: seq<Shared>, id: string, d: Direction, l: string)
    ensures Uses(shared, ResourceId(id, d), l) <==> Serves(shared, id, l)
  {
    if shared != [] {
      var front, last := shared[..|shared| - 1], shared[|shared| - 1];
      UsesIff(front, id, d, l);
      forall e | ResourceId(id, d) == ResourceId(last.corridorId, e) ensures id == last.corridorId {
        ResourceIdDetermines(id, d, last.corridorId, e);
      }
      if i :| 0 <= i < |shared| && shared[i].corridorId == id && l in shared[i].members && i < |front| {
        assert front[i].corridorId == id && l in front[i].members;
      }
      if i :| 0 <= i < |front| && front[i].corridorId == id && l in front[i].members {
        assert shared[i].corridorId == id && l in shared[i].members;
      }
      assert last.corridorId == id && l in last.members ==> shared[|shared| - 1].corridorId == id;
    }
  }

  predicate Named(m: Movement) {
    && m.movementId != "" && m.intersectionId != "" && m.lineId != ""
    && m.incomingSegmentId != "" && m.outgoingSegmentId != ""
  }

  // Movement `i` of the topology is the last one with all its names that has the id.
  predicate LastNamed(movements: seq<Movement>, i: int, k: string) {
    && 0 <= i < |movements| && Named(movements[i]) && movements[i].movementId == k
    && forall j | i < j < |movements| && Named(movements[j]) :: movements[j].movementId != k
  }

  ghost predicate Crosses(movements: seq<Movement>, ix: string) {
    exists i :: 0 <= i < |movements| && Named(movements[i]) && movements[i].intersectionId == ix
  }

  /** Its reservation book has the movements of the topology that have all their names, the last
      of each id, and their intersections, where nothing is held and no clear remembered. */
  lemma BuiltBook(cfg: ManagerConfig, t: Topology, wallNow: nat, k: string, m: Movement, ix: string)
    requires ValidManagerConfig(cfg)
    ensures var b := Built(cfg, t, wallNow).book;
      && b.defaultClearanceMs == cfg.defaultClearance
      && ((k in b.movements && b.movements[k] == m) <==> exists i :: LastNamed(t.movements, i, k) && t.movements[i] == m)
      && (ix in b.intersections <==> Crosses(t.movements, ix))
      && (ix in b.intersections ==> b.intersections[ix].active == map[] && b.intersections[ix].lastClear == map[])
  {
    BuiltFromTopology(cfg, t, wallNow);
    MovementsAre(cfg.defaultClearance, t.movements, k, m);
    CrossingsAre(cfg.defaultClearance, t.movements, ix);
  }

  lemma {:induction false} MovementsAre(clearance: nat, movements: seq<Movement>, k: string, m: Movement)
    ensures var b := Movements(clearance, movements);
      && b.defaultClearanceMs == clearance
      && ((k in b.movements && b.movements[k] == m) <==> exists i :: LastNamed(movements, i, k) && movements[i] == m)
  {
    if movements != [] {
      var n := |movements| - 1;
      var front := movements[..n];
      MovementsAre(clearance, front, k, m);
      forall i ensures LastNamed(movements, i, k) <==>
        if Named(movements[n]) && movements[n].movementId == k then i == n else LastNamed(front, i, k)
      {
        LastNamedNext(movements, i, k);
      }
      NamedNext(movements, front, k, m);
    }
  }

  // One more movement: it is the last of its id, and changes nothing for others.
  lemma LastNamedNext(movements: seq<Movement>, i: int, k: string)
    requires movements != []
    ensures var n := |movements| - 1;
      LastNamed(movements, i, k) <==>
        if Named(movements[n]) && movements[n].movementId == k then i == n else LastNamed(movements[..n], i, k)
  {
  }

  lemma NamedNext(movements: seq<Movement>, front: seq<Movement>, k: string, m: Movement)
    requires movements != [] && front == movements[..|movements| - 1]
    requires var last := movements[|movements| - 1];
      forall i :: LastNamed(movements, i, k) <==>
        if Named(last) && last.movementId == k then i == |movements| - 1 else LastNamed(front, i, k)
    ensures var last := movements[|movements| - 1];
      (exists i :: LastNamed(movements, i, k) && movements[i] == m) <==>
        if Named(last) && last.movementId == k then last == m else exists i :: LastNamed(front, i, k) && front[i] == m
  {
    var last := movements[|movements| - 1];
    if Named(last) && last.movementId == k {
      assert LastNamed(movements, |movements| - 1, k);
    } else {
      if i :| LastNamed(front, i, k) && front[i] == m {
        assert LastNamed(movements, i, k) && movements[i] == m;
      }
      if i :| LastNamed(movements, i, k) && movements[i] == m {
        assert LastNamed(front, i, k) && front[i] == m;
      }
    }
  }

  lemma {:induction false} CrossingsAre(clearance: nat, movements: seq<Movement>, ix: string)
    ensures ix in Movements(clearance, movements).intersections <==> Crosses(movements, ix)
  {
    if movements != [] {
      var n := |movements| - 1;
      var front := movements[..n];
      CrossingsAre(clearance, front, ix);
      if i :| 0 <= i < |movements| && Named(movements[i]) && movements[i].intersectionId == ix && i < n {
        assert Named(front[i]) && front[i].intersectionId == ix;
      }
      if i :| 0 <= i < n && Named(front[i]) && front[i].intersectionId == ix {
        assert Named(movements[i]) && movements[i].intersectionId == ix;
      }
      assert Named(movements[n]) && movements[n].intersectionId == ix ==> Crosses(movements, ix);
    }
  }

  // ----- offering, filing, issuing -----

  /** After candidates are offered to resources, each of them has its list, or the empty one,
      with the time of the offer; nothing else differs. */
  lemma {:induction false} OfferedOnFields(
    s: State, rs: seq<string>, lists: map<string, seq<Candidate>>, wallNow: nat, r: string)
    ensures var t := Offered(s, rs, lists, wallNow);
      && t == s.(corridors := t.corridors) && t.corridors.Keys == s.corridors.Keys
      && (r in s.corridors ==>
            t.corridors[r] ==
              if r in rs then s.corridors[r].(candidates := if r in lists then lists[r] else [], receivedWall := wallNow)
              else s.corridors[r])
  {
    if rs != [] {
      OfferedOnFields(s, rs[..|rs| - 1], lists, wallNow, r);
      assert rs == rs[..|rs| - 1] + [rs[|rs| - 1]];
    }
  }

  // Row `i` is the last of its train.
  predicate LastOf(ds: seq<Decision>, i: int, train: string) {
    && 0 <= i < |ds| && ds[i].trainId == train
    && forall j | i < j < |ds| :: ds[j].trainId != train
  }

  // One more row: it is the last of its train, and changes nothing for others.
  lemma LastOfNext(ds: seq<Decision>, i: int, train: string)
    requires ds != []
    ensures var n := |ds| - 1;
      LastOf(ds, i, train) <==> if ds[n].trainId == train then i == n else LastOf(ds[..n], i, train)
  {
  }

  /** Filed by train, the last of each stays. */
  lemma {:induction false} FiledIff(ds: seq<Decision>, train: string, d: Decision)
    ensures (train in ByTrain(ds) && ByTrain(ds)[train] == d) <==> exists i :: LastOf(ds, i, train) && ds[i] == d
  {
    if ds != [] {
      var n := |ds| - 1;
      var front := ds[..n];
      FiledIff(front, train, d);
      forall i ensures LastOf(ds, i, train) <==> if ds[n].trainId == train then i == n else LastOf(front, i, train) {
        LastOfNext(ds, i, train);
      }
      FiledNext(ds, front, train, d);
    }
  }

  lemma FiledNext(ds: seq<Decision>, front: seq<Decision>, train: string, d: Decision)
    requires ds != [] && front == ds[..|ds| - 1]
    requires forall i ::
      LastOf(ds, i, train) <==> if ds[|ds| - 1].trainId == train then i == |ds| - 1 else LastOf(front, i, train)
    ensures (exists i :: LastOf(ds, i, train) && ds[i] == d) <==>
      if ds[|ds| - 1].trainId == train then ds[|ds| - 1] == d else exists i :: LastOf(front, i, train) && front[i] == d
  {
    if ds[|ds| - 1].trainId == train {
      assert LastOf(ds, |ds| - 1, train);
    } else {
      if i :| LastOf(front, i, train) && front[i] == d {
        assert LastOf(ds, i, train) && ds[i] == d;
      }
      if i :| LastOf(ds, i, train) && ds[i] == d {
        assert LastOf(front, i, train) && front[i] == d;
      }
    }
  }

  // Decision `n` releases a train that has no command and that no earlier one released.
  predicate GetsCommand(commands: map<string, Decision>, ds: seq<Decision>, n: int) {
    && 0 <= n < |ds| && ds[n].action == Release && ds[n].trainId !in commands
    && forall m | 0 <= m < n && ds[m].action == Release :: ds[m].trainId != ds[n].trainId
  }

  ghost function CommandPlaces(commands: map<string, Decision>, ds: seq<Decision>): seq<nat> {
    if ds == [] then []
    else
      var front := CommandPlaces(commands, ds[..|ds| - 1]);
      if GetsCommand(commands, ds, |ds| - 1) then front + [|ds| - 1] else front
  }

  lemma {:induction false} CommandPlacesAre(commands: map<string, Decision>, ds: seq<Decision>)
    ensures var who := CommandPlaces(commands, ds);
      && (forall k, l | 0 <= k < l < |who| :: who[k] < who[l])
      && (forall n :: n in who <==> GetsCommand(commands, ds, n))
  {
    if ds != [] {
      var front := CommandPlaces(commands, ds[..|ds| - 1]);
      CommandPlacesAre(commands, ds[..|ds| - 1]);
      assert forall k | 0 <= k < |front| :: front[k] in front;
      forall n | n < |ds| - 1 ensures GetsCommand(commands, ds, n) <==> GetsCommand(commands, ds[..|ds| - 1], n) {
      }
    }
  }

  /** Exactly which commands a cycle issues: one for each decision that releases a train that
      has none yet, in order, numbered on, with the revision and time of the cycle and
      otherwise as decided. */
  lemma IssuedIff(commands: map<string, Decision>, ds: seq<Decision>, first: nat, revision: nat, now: nat)
    returns (who: seq<nat>)
    ensures forall k, l | 0 <= k < l < |who| :: who[k] < who[l]
    ensures forall n :: n in who <==> GetsCommand(commands, ds, n)
    ensures var issued := Issued(commands, ds, first, revision, now);
      && |issued| == |who|
      && forall k | 0 <= k < |who| :: who[k] < |ds| && issued[k] ==
           ds[who[k]].(commandId := first + k, topologyRevision := revision, issuedAt := now)
  {
    who := CommandPlaces(commands, ds);
    CommandPlacesAre(commands, ds);
    IssuedAtPlaces(commands, ds, first, revision, now);
  }

  lemma {:induction false} IssuedAtPlaces(
    commands: map<string, Decision>, ds: seq<Decision>, first: nat, revision: nat, now: nat)
    ensures var issued, who := Issued(commands, ds, first, revision, now), CommandPlaces(commands, ds);
      && |issued| == |who|
      && forall k | 0 <= k < |who| :: who[k] < |ds| && issued[k] ==
           ds[who[k]].(commandId := first + k, topologyRevision := revision, issuedAt := now)
  {
    if ds != [] {
      IssuedAtPlaces(commands, ds[..|ds| - 1], first, revision, now);
      if ds[|ds| - 1].trainId !in commands {
        IssuedTrains(commands, ds, first, revision, now);
      }
    }
  }

  // The last decision's train has a new command exactly if an earlier decision released it.
  lemma IssuedTrains(commands: map<string, Decision>, ds: seq<Decision>, first: nat, revision: nat, now: nat)
    requires ds != [] && ds[|ds| - 1].trainId !in commands
    ensures var front, train := ds[..|ds| - 1], ds[|ds| - 1].trainId;
      train in TrainsOf(Issued(commands, front, first, revision, now)) <==>
        exists m :: 0 <= m < |front| && front[m].action == Release && front[m].trainId == train
  {
    IssuedToReleased(commands, ds[..|ds| - 1], first, revision, now, ds[|ds| - 1].trainId);
  }

  lemma {:induction false} IssuedToReleased(
    commands: map<string, Decision>, ds: seq<Decision>, first: nat, revision: nat, now: nat, train: string)
    requires train !in commands
    ensures train in TrainsOf(Issued(commands, ds, first, revision, now)) <==>
      exists m :: 0 <= m < |ds| && ds[m].action == Release && ds[m].trainId == train
  {
    if ds != [] {
      var front, last := ds[..|ds| - 1], ds[|ds| - 1];
      IssuedToReleased(commands, front, first, revision, now, train);
      var issued := Issued(commands, front, first, revision, now);
      TrainsOfMore(issued, last.(commandId := first + |issued|, topologyRevision := revision, issuedAt := now));
      ReleasedOneMore(ds, train);
    }
  }

  lemma TrainsOfMore(issued: seq<Decision>, d: Decision)
    ensures TrainsOf(issued + [d]) == TrainsOf(issued) + {d.trainId}
  {
    var more := issued + [d];
    assert more[|issued|] == d && forall i | 0 <= i < |issued| :: more[i] == issued[i];
    forall t | t in TrainsOf(issued) ensures t in TrainsOf(more) {
      var i :| 0 <= i < |issued| && issued[i].trainId == t;
      assert more[i].trainId == t;
    }
    assert d.trainId in TrainsOf(more);
  }

  lemma ReleasedOneMore(ds: seq<Decision>, train: string)
    requires ds != []
    ensures var n := |ds| - 1;
      (exists m :: 0 <= m < |ds| && ds[m].action == Release && ds[m].trainId == train) <==>
        (ds[n].action == Release && ds[n].trainId == train)
        || exists m :: 0 <= m < |ds[..n]| && ds[..n][m].action == Release && ds[..n][m].trainId == train
  {
    var n := |ds| - 1;
    if m :| 0 <= m < |ds| && ds[m].action == Release && ds[m].trainId == train && m < n {
      assert ds[..n][m].trainId == train;
    }
    if m :| 0 <= m < |ds[..n]| && ds[..n][m].action == Release && ds[..n][m].trainId == train {
      assert ds[m].trainId == train;
    }
  }

  // ----- leaving -----

  // The train holds a movement at the intersection.
  ghost predicate HoldsSome(b: Book, ix: string, train: string) {
    ix in b.intersections && exists k :: k in b.intersections[ix].active && b.intersections[ix].active[k].trainId == train
  }

  /** A clear changes something exactly if the resource it names is occupied or the train holds
      a movement at one of its intersections. */
  lemma LeavesIff(s: State, r: string, ixs: seq<string>, train: string, now: nat)
    ensures CanLeave(s, r, ixs, train, now) <==>
      || (r != "" && r in s.corridors && s.corridors[r].occupancy > 0)
      || exists ix :: ix in ixs && HoldsSome(s.book, ix, train)
  {
    L.AnyHeldIff(s.book, ixs, train, now);
    forall ix ensures HoldsAt(s.book, ix, train) <==> HoldsSome(s.book, ix, train) {
      HoldsIff(s.book, ix, train);
    }
  }

  lemma HoldsIff(b: Book, ix: string, train: string)
    ensures HoldsAt(b, ix, train) <==> HoldsSome(b, ix, train)
  {
    if ix in b.intersections {
      var active := b.intersections[ix].active;
      if k :| k in active && active[k].trainId == train {
        assert k in HeldBy(active, train);
      }
    }
  }

  predicate IsHeld(rt: Runtime, k: string, train: string) {
    k in rt.active && rt.active[k].trainId == train
  }

  // What becomes of an intersection that the train cleared: it loses what the train held, and
  // dates that.
  ghost predicate LeftBehind(was: Runtime, rt: Runtime, train: string, now: nat) {
    && (forall k :: k in rt.active <==> k in was.active && !IsHeld(was, k, train))
    && (forall k <- rt.active :: k in was.active && rt.active[k] == was.active[k])
    && (forall k :: k in rt.lastClear <==> k in was.lastClear || IsHeld(was, k, train))
    && (forall k <- rt.lastClear ::
          if IsHeld(was, k, train) then rt.lastClear[k] == now
          else k in was.lastClear && rt.lastClear[k] == was.lastClear[k])
  }

  /** What a clear leaves behind: one train less on a resource that is named, known and occupied,
      and at each of its intersections everything but what the train held; what it held is
      dated by the clear. */
  lemma LeftOnFields(s: State, r: string, ixs: seq<string>, train: string, now: nat, q: string, ix: string)
    ensures var t := LeftState(s, r, ixs, train, now);
      && t == s.(corridors := t.corridors, book := t.book)
      && t.corridors.Keys == s.corridors.Keys
      && (q in s.corridors ==>
            t.corridors[q] == if q == r && q != "" && s.corridors[q].occupancy > 0
                              then s.corridors[q].(occupancy := s.corridors[q].occupancy - 1) else s.corridors[q])
      && t.book.movements == s.book.movements && t.book.intersections.Keys == s.book.intersections.Keys
      && (ix in s.book.intersections ==>
            if ix in ixs then LeftBehind(s.book.intersections[ix], t.book.intersections[ix], train, now)
            else t.book.intersections[ix] == s.book.intersections[ix])
  {
    ClearedAt(s.book, ixs, train, now, ix);
  }

  lemma {:induction false} ClearedAt(b: Book, ixs: seq<string>, train: string, now: nat, ix: string)
    ensures var c := ClearedAll(b, ixs, train, now);
      && c == b.(intersections := c.intersections) && c.intersections.Keys == b.intersections.Keys
      && (ix in b.intersections ==>
            if ix in ixs then LeftBehind(b.intersections[ix], c.intersections[ix], train, now)
            else c.intersections[ix] == b.intersections[ix])
  {
    if ixs != [] {
      var front, last := ixs[..|ixs| - 1], ixs[|ixs| - 1];
      assert ixs == front + [last];
      ClearedAt(b, front, train, now, ix);
      if last == ix && ix in b.intersections {
        ClearedOnce(ClearedAll(b, front, train, now), ix, train, now);
        if ix in front {
          LeftTwice(b.intersections[ix], ClearedAll(b, front, train, now).intersections[ix],
                    ClearedAll(b, ixs, train, now).intersections[ix], train, now);
        }
      }
    }
  }

  lemma ClearedOnce(b: Book, ix: string, train: string, now: nat)
    requires ix in b.intersections
    ensures LeftBehind(b.intersections[ix], Cleared(b, ix, train, now).intersections[ix], train, now)
  {
  }

  lemma LeftTwice(p: Runtime, q: Runtime, rt: Runtime, train: string, now: nat)
    requires LeftBehind(p, q, train, now) && LeftBehind(q, rt, train, now)
    ensures LeftBehind(p, rt, train, now)
  {
    assert forall k :: !IsHeld(q, k, train);
  }
}
