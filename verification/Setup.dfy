/** Rebuilding the manager from a topology: its movements, both directions of every shared
    corridor, idle, and the target headways of the lines that use them. */
module Setup {
  import opened Basics
  import opened Reservations
  import opened Policy
  import opened DispatchSpec
  import opened DispatchManagers
  import opened DispatchRuns
  import opened Restart
  import opened Lifecycle
  import opened ManagerCalls

  // A shared corridor and the lines that use it.
  datatype Shared = Shared(corridorId: string, members: seq<string>)

  datatype Topology = Topology(
    revision: nat,
    movements: seq<Movement>,
    shared: seq<Shared>,
    headways: map<string, nat>)

  const EmptyTopology := Topology(0, [], [], map[])

  function ResourceId(corridorId: string, direction: Direction): string {
    corridorId + (if direction == Forward then ":FORWARD" else ":REVERSE")
  }

  lemma ResourceIdDetermines(p: string, d: Direction, q: string, e: Direction)
    requires ResourceId(p, d) == ResourceId(q, e)
    ensures p == q && d == e
  {
    var r := ResourceId(p, d);
    assert r[|r| - 1] == if d == Forward then 'D' else 'E';
    assert r[|r| - 1] == if e == Forward then 'D' else 'E';
    assert r[..|p|] == p && r[..|q|] == q;
  }

  // The directional resources in the order the service visits them.
  function Resources(shared: seq<Shared>): seq<string> {
    if shared == [] then []
    else
      var id := shared[|shared| - 1].corridorId;
      Resources(shared[..|shared| - 1]) + [ResourceId(id, Forward), ResourceId(id, Reverse)]
  }

  function ResourceSet(shared: seq<Shared>): set<string> {
    set r | r in Resources(shared)
  }

  function IdleCorridor(cfg: ManagerConfig, corridorId: string, direction: Direction, wallNow: nat): Corridor {
    Corridor(ResourceId(corridorId, direction), corridorId, direction, wallNow, 0,
             cfg.policy.defaultMinimumHeadway, 0, cfg.defaultCapacity, true, false, [])
  }

  function HeadwayOf(headways: map<string, nat>, line: string): nat {
    if line in headways then headways[line] else 15000
  }

  function FreshLine(headways: map<string, nat>, line: string): LineState {
    LineState(HeadwayOf(headways, line), 0, 0, 0.0)
  }

  // ----- the state that is built -----

  function Movements(clearance: nat, movements: seq<Movement>): (b: Book)
    ensures forall ix <- b.intersections :: b.intersections[ix] == EmptyRuntime
  {
    if movements == [] then EmptyBook(clearance)
    else
      var last := movements[|movements| - 1];
      var front := Movements(clearance, movements[..|movements| - 1]);
      if WellNamed(last) then Registered(front, last) else front
  }

  function WithLines(s: State, r: string, members: seq<string>, headways: map<string, nat>): State {
    if members == [] then s
    else
      var last := members[|members| - 1];
      LineWasSet(WithLines(s, r, members[..|members| - 1], headways), r, last, FreshLine(headways, last))
  }

  function WithResource(cfg: ManagerConfig, s: State, c: Shared, d: Direction, headways: map<string, nat>, wallNow: nat)
    : State
  {
    var r := ResourceId(c.corridorId, d);
    WithLines(Upserted(cfg, s, IdleCorridor(cfg, c.corridorId, d, wallNow)), r, c.members, headways)
  }

  function WithBoth(cfg: ManagerConfig, s: State, c: Shared, headways: map<string, nat>, wallNow: nat): State {
    WithResource(cfg, WithResource(cfg, s, c, Forward, headways, wallNow), c, Reverse, headways, wallNow)
  }

  function WithShared(cfg: ManagerConfig, s: State, shared: seq<Shared>, headways: map<string, nat>, wallNow: nat): State {
    if shared == [] then s
    else
      var front := WithShared(cfg, s, shared[..|shared| - 1], headways, wallNow);
      WithBoth(cfg, front, shared[|shared| - 1], headways, wallNow)
  }

  function Built(cfg: ManagerConfig, t: Topology, wallNow: nat): State {
    var s := EmptyState(cfg).(book := Movements(cfg.defaultClearance, t.movements));
    WithShared(cfg, s, t.shared, t.headways, wallNow)
  }

  // ----- what it contains -----

  // Nothing occupied, pending or reserved.
  ghost predicate Idle(s: State) {
    && s.pending == map[]
    && (forall r <- s.corridors :: !Busy(s.corridors[r]) && s.corridors[r].candidates == [])
    && (forall ix <- s.book.intersections :: s.book.intersections[ix] == EmptyRuntime)
  }

  function Pairs(shared: seq<Shared>): set<(string, Direction)> {
    if shared == [] then {}
    else
      var id := shared[|shared| - 1].corridorId;
      Pairs(shared[..|shared| - 1]) + {(id, Forward), (id, Reverse)}
  }

  /** Exactly the directional resources of `pairs`, each idle and in its own direction. */
  ghost predicate IdleTrack(
    cfg: ManagerConfig, corridors: map<string, Corridor>, pairs: set<(string, Direction)>, wallNow: nat)
  {
    && (forall p <- pairs ::
          && ResourceId(p.0, p.1) in corridors
          && corridors[ResourceId(p.0, p.1)] == IdleCorridor(cfg, p.0, p.1, wallNow))
    && (forall r <- corridors :: exists p :: p in pairs && r == ResourceId(p.0, p.1))
  }

  // Line `l` uses resource `r`.
  predicate Uses(shared: seq<Shared>, r: string, l: string) {
    shared != [] &&
    var last := shared[|shared| - 1];
    || Uses(shared[..|shared| - 1], r, l)
    || (l in last.members && (r == ResourceId(last.corridorId, Forward) || r == ResourceId(last.corridorId, Reverse)))
  }

  /** Every line that uses a resource is known there with its target headway, no credit and
      no history, and no other line is. */
  ghost predicate LinesOf(s: State, shared: seq<Shared>, headways: map<string, nat>) {
    forall r, l :: LineRight(s, shared, headways, r, l)
  }

  ghost predicate LineRight(s: State, shared: seq<Shared>, headways: map<string, nat>, r: string, l: string) {
    && (l in LinesAt(s, r) <==> Uses(shared, r, l) && l != "" && HeadwayOf(headways, l) > 0)
    && (l in LinesAt(s, r) ==> LinesAt(s, r)[l] == FreshLine(headways, l))
  }

  // ----- building it step by step -----

  lemma {:induction false} LinesKeepRest(s: State, r: string, members: seq<string>, headways: map<string, nat>)
    ensures var t := WithLines(s, r, members, headways);
      t.corridors == s.corridors && t.pending == s.pending && t.book == s.book
      && t.lastLine == s.lastLine && t.consecutive == s.consecutive
  {
    if members != [] {
      LinesKeepRest(s, r, members[..|members| - 1], headways);
    }
  }

  // What adding the members' lines at `r` does to line `l` at `q`.
  lemma {:induction false} LinesAdded(
    s: State, r: string, members: seq<string>, headways: map<string, nat>, q: string, l: string)
    requires r != ""
    ensures var t := WithLines(s, r, members, headways);
      var added := q == r && l in members && l != "" && HeadwayOf(headways, l) > 0;
      && (l in LinesAt(t, q) <==> l in LinesAt(s, q) || added)
      && (l in LinesAt(t, q) ==> LinesAt(t, q)[l] == if added then FreshLine(headways, l) else LinesAt(s, q)[l])
  {
    if members != [] {
      LinesAdded(s, r, members[..|members| - 1], headways, q, l);
      assert members == members[..|members| - 1] + [members[|members| - 1]];
    }
  }

  lemma TrackAdded(
    cfg: ManagerConfig, s: State, pairs: set<(string, Direction)>, id: string, d: Direction, wallNow: nat)
    requires ValidManagerConfig(cfg) && IdleTrack(cfg, s.corridors, pairs, wallNow)
    ensures IdleTrack(cfg, Upserted(cfg, s, IdleCorridor(cfg, id, d, wallNow)).corridors, pairs + {(id, d)}, wallNow)
  {
    var t := Upserted(cfg, s, IdleCorridor(cfg, id, d, wallNow));
    if ResourceId(id, d) in s.corridors {
      var p :| p in pairs && ResourceId(id, d) == ResourceId(p.0, p.1);
      ResourceIdDetermines(id, d, p.0, p.1);
    }
    assert t.corridors == s.corridors[ResourceId(id, d) := IdleCorridor(cfg, id, d, wallNow)];
    forall p | p in pairs + {(id, d)}
      ensures ResourceId(p.0, p.1) in t.corridors
      ensures t.corridors[ResourceId(p.0, p.1)] == IdleCorridor(cfg, p.0, p.1, wallNow)
    {
      if ResourceId(p.0, p.1) == ResourceId(id, d) {
        ResourceIdDetermines(id, d, p.0, p.1);
      }
    }
    forall r | r in t.corridors ensures exists p :: p in pairs + {(id, d)} && r == ResourceId(p.0, p.1) {
      if r == ResourceId(id, d) {
        assert (id, d) in pairs + {(id, d)};
      } else {
        var p :| p in pairs && r == ResourceId(p.0, p.1);
        assert p in pairs + {(id, d)};
      }
    }
  }

  // Everything but the lines after setting up the resources of `pairs`.
  ghost predicate Placed(cfg: ManagerConfig, s: State, pairs: set<(string, Direction)>, wallNow: nat, b: Book) {
    && IdleTrack(cfg, s.corridors, pairs, wallNow)
    && s.pending == map[] && s.lastLine == map[] && s.consecutive == map[] && s.book == b
  }

  lemma ResourceAdded(
    cfg: ManagerConfig, s: State, pairs: set<(string, Direction)>, c: Shared, d: Direction,
    headways: map<string, nat>, wallNow: nat, b: Book)
    requires ValidManagerConfig(cfg) && Placed(cfg, s, pairs, wallNow, b)
    ensures Placed(cfg, WithResource(cfg, s, c, d, headways, wallNow), pairs + {(c.corridorId, d)}, wallNow, b)
  {
    TrackAdded(cfg, s, pairs, c.corridorId, d, wallNow);
    var u := Upserted(cfg, s, IdleCorridor(cfg, c.corridorId, d, wallNow));
    LinesKeepRest(u, ResourceId(c.corridorId, d), c.members, headways);
  }

  lemma ResourceLines(
    cfg: ManagerConfig, s: State, c: Shared, d: Direction, headways: map<string, nat>, wallNow: nat, q: string, l: string)
    ensures var t := WithResource(cfg, s, c, d, headways, wallNow);
      var added := q == ResourceId(c.corridorId, d) && l in c.members && l != "" && HeadwayOf(headways, l) > 0;
      && (l in LinesAt(t, q) <==> l in LinesAt(s, q) || added)
      && (l in LinesAt(t, q) ==> LinesAt(t, q)[l] == if added then FreshLine(headways, l) else LinesAt(s, q)[l])
  {
    var u := Upserted(cfg, s, IdleCorridor(cfg, c.corridorId, d, wallNow));
    LinesAdded(u, ResourceId(c.corridorId, d), c.members, headways, q, l);
  }

  lemma {:induction false} SharedPlaced(
    cfg: ManagerConfig, s: State, shared: seq<Shared>, headways: map<string, nat>, wallNow: nat)
    requires ValidManagerConfig(cfg) && s == EmptyState(cfg).(book := s.book)
    ensures Placed(cfg, WithShared(cfg, s, shared, headways, wallNow), Pairs(shared), wallNow, s.book)
  {
    if shared != [] {
      var front, last := shared[..|shared| - 1], shared[|shared| - 1];
      SharedPlaced(cfg, s, front, headways, wallNow);
      var t := WithShared(cfg, s, front, headways, wallNow);
      ResourceAdded(cfg, t, Pairs(front), last, Forward, headways, wallNow, s.book);
      var u := WithResource(cfg, t, last, Forward, headways, wallNow);
      ResourceAdded(cfg, u, Pairs(front) + {(last.corridorId, Forward)}, last, Reverse, headways, wallNow, s.book);
      assert Pairs(shared) == Pairs(front) + {(last.corridorId, Forward)} + {(last.corridorId, Reverse)};
    }
  }

  lemma {:induction false} SharedLines(
    cfg: ManagerConfig, s: State, shared: seq<Shared>, headways: map<string, nat>, wallNow: nat, r: string, l: string)
    requires s.lines == map[]
    ensures LineRight(WithShared(cfg, s, shared, headways, wallNow), shared, headways, r, l)
  {
    if shared != [] {
      var front, last := shared[..|shared| - 1], shared[|shared| - 1];
      SharedLines(cfg, s, front, headways, wallNow, r, l);
      var t := WithShared(cfg, s, front, headways, wallNow);
      ResourceLines(cfg, t, last, Forward, headways, wallNow, r, l);
      var u := WithResource(cfg, t, last, Forward, headways, wallNow);
      ResourceLines(cfg, u, last, Reverse, headways, wallNow, r, l);
    }
  }

  /** What a rebuilt manager holds: the topology's movements and nothing reserved, both
      directions of every shared corridor idle, and each line with its target headway. */
  lemma BuiltFromTopology(cfg: ManagerConfig, t: Topology, wallNow: nat)
    requires ValidManagerConfig(cfg)
    ensures var s := Built(cfg, t, wallNow);
      && Idle(s) && IdleTrack(cfg, s.corridors, Pairs(t.shared), wallNow) && LinesOf(s, t.shared, t.headways)
      && s.book == Movements(cfg.defaultClearance, t.movements)
  {
    var s := EmptyState(cfg).(book := Movements(cfg.defaultClearance, t.movements));
    SharedPlaced(cfg, s, t.shared, t.headways, wallNow);
    forall r, l ensures LineRight(Built(cfg, t, wallNow), t.shared, t.headways, r, l) {
      SharedLines(cfg, s, t.shared, t.headways, wallNow, r, l);
    }
  }

  lemma {:induction false} MovementsKeyed(clearance: nat, movements: seq<Movement>)
    ensures SoundBook(Movements(clearance, movements))
  {
    if movements != [] {
      MovementsKeyed(clearance, movements[..|movements| - 1]);
    }
  }

  lemma BuiltIsSafe(cfg: ManagerConfig, t: Topology, wallNow: nat)
    requires ValidManagerConfig(cfg)
    ensures var s := Built(cfg, t, wallNow); Safe(s) && SoundBook(s.book) && PendingHasRoom(s)
  {
    var s := Built(cfg, t, wallNow);
    BuiltFromTopology(cfg, t, wallNow);
    MovementsKeyed(cfg.defaultClearance, t.movements);
    forall r | r in s.lines ensures PositiveTargets(s.lines[r]) {
      forall l | l in s.lines[r] ensures s.lines[r][l].targetHeadway > 0 {
        assert LineRight(s, t.shared, t.headways, r, l);
      }
    }
  }

  /** Building twice from one topology gives the same resources and movements. */
  lemma BuiltAgain(cfg: ManagerConfig, t: Topology, then_: nat, now: nat)
    requires ValidManagerConfig(cfg)
    ensures Rebuilt(Built(cfg, t, then_), Built(cfg, t, now))
  {
    var s, f := Built(cfg, t, then_), Built(cfg, t, now);
    BuiltFromTopology(cfg, t, then_);
    BuiltFromTopology(cfg, t, now);
    forall r | r in s.corridors
      ensures r in f.corridors && f.corridors[r] == s.corridors[r].(receivedWall := now)
    {
      var p :| p in Pairs(t.shared) && r == ResourceId(p.0, p.1);
    }
    forall r | r in f.corridors ensures r in s.corridors {
      var p :| p in Pairs(t.shared) && r == ResourceId(p.0, p.1);
    }
  }

  // ----- the loops -----

  method Rebuild(cfg: ManagerConfig, topology: Topology, wallNow: nat) returns (m: DispatchManager)
    requires ValidManagerConfig(cfg)
    ensures fresh(m) && fresh(m.reservations) && m.cfg == cfg && Running(m)
    ensures m.View() == Built(cfg, topology, wallNow)
  {
    m := new DispatchManager(cfg);
    RegisterAll(m, topology);
    AddResources(m, topology.shared, topology.headways, wallNow);
  }

  method RegisterAll(m: DispatchManager, topology: Topology)
    requires Running(m) && m.View() == EmptyState(m.cfg)
    modifies m, m.reservations
    ensures Running(m)
    ensures m.View() == EmptyState(m.cfg).(book := Movements(m.cfg.defaultClearance, topology.movements))
  {
    for i := 0 to |topology.movements|
      invariant Running(m)
      invariant m.View() == EmptyState(m.cfg).(book := Movements(m.cfg.defaultClearance, topology.movements[..i]))
    {
      Register(m, topology.movements[i]);
      assert topology.movements[..i + 1][..i] == topology.movements[..i];
    }
    assert topology.movements[..|topology.movements|] == topology.movements;
  }

  method Register(m: DispatchManager, movement: Movement)
    requires Running(m) && forall ix <- m.View().book.intersections :: m.View().book.intersections[ix] == EmptyRuntime
    modifies m, m.reservations
    ensures Running(m) && m.View() == Next(m.cfg, old(m.View()), RegisterMovement(movement))
  {
    SetupNext(m, RegisterMovement(movement));
    var _ := m.RegisterIntersectionMovement(movement);
  }

  method AddResources(m: DispatchManager, shared: seq<Shared>, headways: map<string, nat>, wallNow: nat)
    requires Running(m) && m.View() == EmptyState(m.cfg).(book := m.View().book)
    modifies m
    ensures Running(m) && m.View() == WithShared(m.cfg, old(m.View()), shared, headways, wallNow)
  {
    ghost var s := m.View();
    for i := 0 to |shared|
      invariant Running(m) && m.View() == WithShared(m.cfg, s, shared[..i], headways, wallNow)
    {
      SharedPlaced(m.cfg, s, shared[..i], headways, wallNow);
      AddShared(m, shared[i], headways, wallNow, Pairs(shared[..i]));
      assert shared[..i + 1][..i] == shared[..i];
    }
    assert shared[..|shared|] == shared;
  }

  method AddShared(m: DispatchManager, c: Shared, headways: map<string, nat>, wallNow: nat,
                   ghost pairs: set<(string, Direction)>)
    requires Running(m) && Placed(m.cfg, m.View(), pairs, wallNow, m.View().book)
    modifies m
    ensures Running(m) && m.View() == WithBoth(m.cfg, old(m.View()), c, headways, wallNow)
  {
    ghost var s := m.View();
    AddResource(m, c, Forward, headways, wallNow, pairs);
    ResourceAdded(m.cfg, s, pairs, c, Forward, headways, wallNow, s.book);
    AddResource(m, c, Reverse, headways, wallNow, pairs + {(c.corridorId, Forward)});
  }

  method AddResource(m: DispatchManager, c: Shared, d: Direction, headways: map<string, nat>, wallNow: nat,
                     ghost pairs: set<(string, Direction)>)
    requires Running(m) && Placed(m.cfg, m.View(), pairs, wallNow, m.View().book)
    modifies m
    ensures Running(m) && m.View() == WithResource(m.cfg, old(m.View()), c, d, headways, wallNow)
  {
    var corridor := IdleCorridor(m.cfg, c.corridorId, d, wallNow);
    SetupNext(m, Upsert(corridor));
    m.UpsertCorridor(corridor);
    AddLines(m, corridor.resourceId, c.members, headways);
  }

  method AddLines(m: DispatchManager, resource: string, members: seq<string>, headways: map<string, nat>)
    requires Running(m)
    modifies m
    ensures Running(m) && m.View() == WithLines(old(m.View()), resource, members, headways)
  {
    ghost var s := m.View();
    for i := 0 to |members|
      invariant Running(m) && m.View() == WithLines(s, resource, members[..i], headways)
    {
      AddLine(m, resource, members[i], FreshLine(headways, members[i]));
      assert members[..i + 1][..i] == members[..i];
    }
    assert members[..|members|] == members;
  }

  method AddLine(m: DispatchManager, resource: string, line: string, state: LineState)
    requires Running(m)
    modifies m
    ensures Running(m) && m.View() == LineWasSet(old(m.View()), resource, line, state)
  {
    TidyNext(m.cfg, m.labels, SetLine(resource, line, state));
    m.UpsertLineState(resource, line, state);
  }
}
