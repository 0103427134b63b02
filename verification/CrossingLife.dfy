/** A life in which a train holds a crossing while it is inside a corridor, for the examples. */
module CrossingLife {
  import opened Basics
  import opened Reservations
  import opened Policy
  import opened DispatchSpec
  import opened DispatchManagers
  import opened DispatchRuns
  import opened Restart
  import opened Lifecycle
  import opened Setup
  import opened LiveRows
  import opened Lives
  import opened TwoCorridors
  import R = ReservationRuns

  // The two corridors and a crossing with one movement.
  function Crossing(): Topology {
    Tracks([R.SoloMovement()])
  }

  lemma CrossingBook(cfg: ManagerConfig, now: nat)
    requires ValidManagerConfig(cfg)
    ensures Built(cfg, Crossing(), now).book
         == Book(cfg.defaultClearance, map["M" := R.SoloMovement()], map["I" := EmptyRuntime])
  {
    BuiltFromTopology(cfg, Crossing(), now);
    var ms := [R.SoloMovement()];
    assert ms[..0] == [] && Movements(cfg.defaultClearance, []) == EmptyBook(cfg.defaultClearance);
    assert Movements(cfg.defaultClearance, ms) == Registered(EmptyBook(cfg.defaultClearance), R.SoloMovement());
  }

  // The book of the crossing with the given reservations and dates.
  function AtCrossing(clearance: nat, rt: Runtime): Book {
    Book(clearance, map["M" := R.SoloMovement()], map["I" := rt])
  }

  const Held := Runtime(map["M" := Reservation("I", "M", "A", 1)], map[])
  const Passed := Runtime(map[], map["M" := 1])

  lemma CrossingReserved(clearance: nat)
    ensures Reservable(AtCrossing(clearance, EmptyRuntime), ["M"], 1)
    ensures Reserved(AtCrossing(clearance, EmptyRuntime), "A", ["M"], 1) == AtCrossing(clearance, Held)
  {
    var b := AtCrossing(clearance, EmptyRuntime);
    assert NewAt(b, "I", "A", ["M"], 1) == Held.active;
    assert EmptyRuntime.active + Held.active == Held.active;
    assert Reserved(b, "A", ["M"], 1).intersections == map["I" := Held];
  }

  lemma CrossingCleared(clearance: nat)
    ensures ClearedAll(AtCrossing(clearance, Held), ["I"], "A", 1) == AtCrossing(clearance, Passed)
  {
    var b := AtCrossing(clearance, Held);
    assert ["I"][..0] == [];
    assert ClearedAll(b, ["I"][..0], "A", 1) == b;
    var rt := b.intersections["I"];
    assert HeldBy(rt.active, "A") == {"M"};
    assert rt.active - {"M"} == map[];
    var c := Cleared(b, "I", "A", 1);
    assert c.intersections["I"].active == map[];
    assert c.intersections["I"].lastClear == map["M" := 1];
    assert c.intersections == map["I" := Passed];
  }

  lemma CrossingStart(cfg: ManagerConfig)
    requires ValidManagerConfig(cfg)
    ensures var b := Built(cfg, Crossing(), 1).book;
      Reservable(b, ["M"], 1) && Reserved(b, "A", ["M"], 1) == AtCrossing(cfg.defaultClearance, Held)
  {
    CrossingBook(cfg, 1);
    CrossingReserved(cfg.defaultClearance);
  }

  // The released train enters.
  lemma TrainEnters(cfg: ManagerConfig, m: Moment, d: Decision) returns (next: Moment)
    requires ValidManagerConfig(cfg) && GoodLines(m.state) && m.live == [Row(CommandOf(d), false)]
    requires d.resourceId == On("C") && d.trainId == "A"
    ensures DeedAt(cfg, 1, m, Accept(0, 1), next)
    ensures next == Moment(Confirmed(m.state, On("C"), "A", 1), [Row(CommandOf(d), true)], m.stray, m.unfiled)
  {
    next := Moment(Confirmed(m.state, On("C"), "A", 1), [Row(CommandOf(d), true)], m.stray, m.unfiled);
    assert m.live[0 := Row(CommandOf(d), true)] == next.live;
    assert !HasPassage(m.live, "A");
  }

  // Entering corridor C leaves corridor D ready.
  lemma EntryElsewhere(cfg: ManagerConfig, u: State)
    requires Ready(u, "D") && On("C") in u.corridors && u.corridors[On("C")].corridorId == "C"
    ensures Ready(Confirmed(u, On("C"), "A", 1), "D")
  {
    StepKeepsLines(cfg, u, Confirm(On("C"), "A", 1));
    if On("C") == On("D") {
      ResourceIdDetermines("C", Forward, "D", Forward);
    }
    ReadyElsewhere(u, Confirmed(u, On("C"), "A", 1), "D", On("C"));
  }

  lemma ReleasedBeforeEntry(s: State, d: Decision)
    requires Ready(s, "C") && Ready(s, "D") && d.action == Release && d.trainId == "A" && d.movementIds == ["M"]
    ensures var u := Planned(Offer(s, "C", "A", ["M"]), On("C"), 1, d);
      Ready(u, "D") && On("C") in u.corridors && u.corridors[On("C")].corridorId == "C"
  {
    ReleaseElsewhere(s, "C", "D", "A", ["M"], d);
    OfferKeepsReady(s, "C", "A", ["M"]);
    ReleaseParts(Offer(s, "C", "A", ["M"]), On("C"), 1, d);
  }

  /** Train A is released on corridor C over the crossing and enters. */
  lemma FirstEntry(cfg: ManagerConfig) returns (moments: seq<Moment>, deeds: seq<Deed>, d: Decision)
    requires ValidManagerConfig(cfg)
    ensures Life(cfg, Crossing(), 1, moments, deeds) && |deeds| == 3
    ensures deeds == [Offering("C", "A", ["M"]), Releasing("C", d), Accept(0, 1)]
    ensures d.action == Release && d.trainId == "A" && d.resourceId == On("C") && d.movementIds == ["M"]
    ensures On("C") in moments[1].state.corridors
    ensures moments[3] == Moment(moments[3].state, [Row(CommandOf(d), true)], [], {})
    ensures moments[3].state.book == AtCrossing(cfg.defaultClearance, Held) && Ready(moments[3].state, "D")
  {
    CrossingStart(cfg);
    var front, past, entered;
    front, past, d := FirstRelease(cfg, [R.SoloMovement()], ["M"]);
    ReleasedBeforeEntry(front[0].state, d);
    ReleasedState(front[0].state, "C", "A", ["M"], d);
    entered := TrainEnters(cfg, front[2], d);
    EntryElsewhere(cfg, front[2].state);
    LifeGrows(cfg, Crossing(), 1, front, past, Accept(0, 1), entered);
    moments, deeds := front + [entered], past + [Accept(0, 1)];
  }
}
