/** What the passage machine reports in every frame and why, on the fields of the commands and
    of the trains that were seen. */
module PassageLaws {
  import opened Basics
  import opened Passage
  import opened PassageRuns

  // ----- what a frame shows -----

  predicate Within(c: Command, x: real) {
    c.entry <= x <= c.exit || c.exit <= x <= c.entry
  }

  // The frame shows the command's train, inside the corridor or outside.
  ghost predicate Shows(f: Frame, c: Command, inside: bool) {
    exists t :: t in f.trains && t.trainId == c.trainId && t.visible && Within(c, t.position) == inside
  }

  // In frame `x` the train was seen outside, after one between `m` and `x` saw it inside, and
  // none since did.  A frame at time zero does not count.
  ghost predicate OutSince(frames: seq<Frame>, c: Command, m: nat, n: nat, x: nat)
    requires n <= |frames|
  {
    && m <= x < n && frames[x].time != 0 && Shows(frames[x], c, false)
    && SeenInside(frames, c, m, x) && forall i | x < i < n :: !Shows(frames[i], c, true)
  }

  ghost predicate SeenInside(frames: seq<Frame>, c: Command, m: nat, n: nat)
    requires n <= |frames|
  {
    exists i :: m <= i < n && Shows(frames[i], c, true)
  }

  // Frame `x` is the first that saw the train outside since it was last inside.
  ghost predicate FirstOut(frames: seq<Frame>, c: Command, m: nat, n: nat, x: nat)
    requires n <= |frames|
  {
    OutSince(frames, c, m, n, x) && forall y: nat | y < x :: !OutSince(frames, c, m, n, y)
  }

  // What is remembered of a passage begun in frame `m`, before frame `n`.
  ghost predicate Remembers(frames: seq<Frame>, m: nat, n: nat, p: Passing)
    requires n <= |frames|
  {
    && (p.acknowledged <==> SeenInside(frames, p.command, m, n))
    && (p.wasInside <==> p.acknowledged)
    && (p.exitObservedAt != 0 ==> exists x: nat :: FirstOut(frames, p.command, m, n, x) && frames[x].time == p.exitObservedAt)
    && (p.exitObservedAt == 0 ==> forall x: nat :: !OutSince(frames, p.command, m, n, x))
  }

  lemma RemembersNothing(frames: seq<Frame>, m: nat, c: Command)
    requires m <= |frames|
    ensures Remembers(frames, m, m, Passing(c, false, false, 0))
  {
  }

  // ----- one more frame -----

  lemma OutSinceNext(frames: seq<Frame>, c: Command, m: nat, n: nat, x: nat)
    requires m <= n < |frames|
    ensures OutSince(frames, c, m, n + 1, x) <==>
      if x == n then frames[n].time != 0 && Shows(frames[n], c, false) && SeenInside(frames, c, m, n)
      else OutSince(frames, c, m, n, x) && !Shows(frames[n], c, true)
  {
  }

  lemma SeenInsideNext(frames: seq<Frame>, c: Command, m: nat, n: nat)
    requires m <= n < |frames|
    ensures SeenInside(frames, c, m, n + 1) <==> SeenInside(frames, c, m, n) || Shows(frames[n], c, true)
  {
    if i :| m <= i < n && Shows(frames[i], c, true) {
      assert Shows(frames[i], c, true);
    }
  }

  // The train is inside.
  lemma RemembersInside(frames: seq<Frame>, m: nat, n: nat, p: Passing)
    requires m <= n < |frames| && Shows(frames[n], p.command, true) && !Shows(frames[n], p.command, false)
    ensures Remembers(frames, m, n + 1, Passing(p.command, true, true, 0))
  {
    var k := n + 1;
    SeenInsideNext(frames, p.command, m, n);
    forall x: nat ensures !OutSince(frames, p.command, m, k, x) {
      OutSinceNext(frames, p.command, m, n, x);
    }
  }

  // The train is not seen, or seen outside when that was noted already or does not count.
  lemma RemembersStill(frames: seq<Frame>, m: nat, n: nat, p: Passing)
    requires m <= n < |frames| && Remembers(frames, m, n, p) && !Shows(frames[n], p.command, true)
    requires Shows(frames[n], p.command, false) ==> !p.acknowledged || p.exitObservedAt != 0 || frames[n].time == 0
    ensures Remembers(frames, m, n + 1, p)
  {
    var k := n + 1;
    SeenInsideNext(frames, p.command, m, n);
    forall x: nat | x != n ensures OutSince(frames, p.command, m, k, x) <==> OutSince(frames, p.command, m, n, x) {
      OutSinceNext(frames, p.command, m, n, x);
    }
    OutSinceNext(frames, p.command, m, n, n);
    if p.exitObservedAt != 0 {
      var x: nat :| FirstOut(frames, p.command, m, n, x) && frames[x].time == p.exitObservedAt;
      assert FirstOut(frames, p.command, m, k, x);
    }
  }

  // The train is outside for the first time since it was inside.
  lemma RemembersOut(frames: seq<Frame>, m: nat, n: nat, p: Passing)
    requires m <= n < |frames| && Remembers(frames, m, n, p) && !Shows(frames[n], p.command, true)
    requires Shows(frames[n], p.command, false) && p.acknowledged && p.exitObservedAt == 0 && frames[n].time != 0
    ensures Remembers(frames, m, n + 1, p.(exitObservedAt := frames[n].time))
  {
    var k := n + 1;
    SeenInsideNext(frames, p.command, m, n);
    forall x: nat | x != n ensures !OutSince(frames, p.command, m, k, x) {
      OutSinceNext(frames, p.command, m, n, x);
    }
    OutSinceNext(frames, p.command, m, n, n);
    assert FirstOut(frames, p.command, m, k, n);
  }

  // ----- whose passage it is -----

  // Passages are filed under their train, to which the command's id belongs.
  ghost predicate Owns(owner: Identity -> string, s: State) {
    forall t <- s.passages :: PassesFor(owner, s.passages[t].command, t)
  }

  predicate PassesFor(owner: Identity -> string, c: Command, train: string) {
    train != "" && c.trainId == train && owner(IdentityOf(c)) == train
  }

  lemma {:induction false} DrainOwns(owner: Identity -> string, s: State, cs: seq<Command>, now: int)
    requires Owns(owner, s) && forall c <- cs :: Owned(owner, c)
    ensures Owns(owner, Drained(s, cs, now))
  {
    if cs != [] {
      DrainOwns(owner, s, cs[..|cs| - 1], now);
      assert cs[|cs| - 1] in cs;
      ReceiveOwns(owner, Drained(s, cs[..|cs| - 1], now), cs[|cs| - 1], now);
    }
  }

  lemma ReceiveOwns(owner: Identity -> string, s: State, c: Command, now: int)
    requires Owns(owner, s) && Owned(owner, c)
    ensures Owns(owner, Received(s, c, now))
  {
  }

  lemma {:induction false} SeeAllOwns(owner: Identity -> string, s: State, ts: seq<Train>, revision: int, time: int)
    requires Owns(owner, s)
    ensures Owns(owner, SeenAll(s, ts, revision, time))
  {
    if ts != [] {
      SeeAllOwns(owner, s, ts[..|ts| - 1], revision, time);
    }
  }

  lemma {:induction false} MissAllOwns(owner: Identity -> string, s: State, trains: seq<string>, time: int)
    requires Owns(owner, s)
    ensures Owns(owner, MissedAll(s, trains, time))
  {
    if trains != [] {
      MissAllOwns(owner, s, trains[..|trains| - 1], time);
    }
  }

  lemma {:induction false} GameOwns(owner: Identity -> string, states: seq<State>, frames: seq<Frame>, n: nat)
    requires IsGame(states, frames) && OwnedGame(owner, frames) && n <= |frames|
    ensures Owns(owner, states[n])
  {
    if n > 0 {
      GameOwns(owner, states, frames, n - 1);
      var s, f := states[n - 1], frames[n - 1];
      assert f in frames;
      DrainOwns(owner, s, f.commands, f.now);
      SeeAllOwns(owner, Drained(s, f.commands, f.now), f.trains, f.revision, f.time);
      MissAllOwns(owner, AfterSeen(s, f), f.missing, f.time);
    }
  }

  // ----- one train in one frame -----

  // Another revision or line than the command's, or no corridor known for it.
  predicate Foreign(c: Command, t: Train, revision: int) {
    (revision != 0 && c.topologyRevision != revision) || c.lineId != t.lineId || !c.hasBounds
  }

  // The tail has had two seconds since the train was first outside.
  predicate TailIsClear(p: Passing, time: int) {
    p.acknowledged && p.wasInside && p.exitObservedAt != 0 && time - p.exitObservedAt >= 2000
  }

  // What seeing the train makes of its passage: nothing if it ends.
  function Becomes(p: Passing, t: Train, revision: int, time: int): Option<Passing> {
    if Foreign(p.command, t, revision) then None
    else if Within(p.command, t.position) then Some(Passing(p.command, true, true, 0))
    else if TailIsClear(p, time) then None
    else if p.acknowledged && p.wasInside && p.exitObservedAt == 0 then Some(p.(exitObservedAt := time))
    else Some(p)
  }

  function Says(p: Passing, t: Train, revision: int, time: int): Option<Kind> {
    if Foreign(p.command, t, revision) then (if p.acknowledged then None else Some(Rejected))
    else if Within(p.command, t.position) then (if p.acknowledged then None else Some(Accepted))
    else if TailIsClear(p, time) then Some(Cleared)
    else None
  }

  function Report(kind: Option<Kind>, c: Command, time: int): seq<Event> {
    if kind.None? then [] else [Event(kind.value, IdentityOf(c), c.trainId, c.resourceId, time)]
  }

  predicate SameFinished(s: State, t: State) {
    t.finished == s.finished && t.flushed == s.flushed
  }

  // The command is among the finished ones now; beyond 4096 of them all are forgotten.
  predicate NowFinished(s: State, t: State, k: Identity) {
    if |s.finished + {k}| > 4096 then t.finished == {} && t.flushed
    else t.finished == s.finished + {k} && t.flushed == s.flushed
  }

  lemma SeenOnFields(s: State, t: Train, revision: int, time: int)
    requires t.trainId != "" && t.visible && t.trainId in s.passages
    ensures var p, u := s.passages[t.trainId], Seen(s, t, revision, time);
      && u.events == s.events + Report(Says(p, t, revision, time), p.command, time)
      && match Becomes(p, t, revision, time)
         case None => u.passages == s.passages - {t.trainId} && NowFinished(s, u, IdentityOf(p.command))
         case Some(q) => u.passages == s.passages[t.trainId := q] && SameFinished(s, u)
  {
    var p := s.passages[t.trainId];
    assert Inside(p.command, t.position) <==> Within(p.command, t.position);
    assert Stale(p.command, t, revision) <==> Foreign(p.command, t, revision);
  }

  lemma MissedOnFields(s: State, train: string, time: int)
    requires train in s.passages
    ensures var p, u := s.passages[train], Missed(s, train, time);
      && u.events == s.events + Report(Some(if p.acknowledged then Cleared else Rejected), p.command, time)
      && u.passages == s.passages - {train} && NowFinished(s, u, IdentityOf(p.command))
  {
  }

  // ----- taking a command -----

  // The same id, or without one the same train, resource and time of issue.
  predicate SameCommand(c: Command, e: Command) {
    if c.commandId != "" || e.commandId != "" then c.commandId == e.commandId
    else c.trainId == e.trainId && c.resourceId == e.resourceId && c.issuedAt == e.issuedAt
  }

  lemma SameCommandIff(c: Command, e: Command)
    ensures SameCommand(c, e) <==> IdentityOf(c) == IdentityOf(e)
  {
  }

  // A release with train and resource that is neither finished nor its train's passage.
  predicate IsNews(s: State, c: Command) {
    && c.isRelease && c.trainId != "" && c.resourceId != "" && IdentityOf(c) !in s.finished
    && (c.trainId in s.passages ==> !SameCommand(s.passages[c.trainId].command, c))
  }

  /** What a command that arrives does: if it is news it begins a passage in the place of its
      train's, which is finished, and rejected unless it was acknowledged; else nothing. */
  lemma TakesIff(s: State, c: Command, now: int)
    ensures var t := Received(s, c, now);
      if !IsNews(s, c) then t == s
      else
        && t.passages == s.passages[c.trainId := Passing(c, false, false, 0)]
        && if c.trainId !in s.passages then t.events == s.events && SameFinished(s, t)
           else
             var p := s.passages[c.trainId];
             && t.events == s.events + Report(if p.acknowledged then None else Some(Rejected), p.command, now)
             && NowFinished(s, t, IdentityOf(p.command))
  {
    if c.trainId in s.passages {
      SameCommandIff(s.passages[c.trainId].command, c);
    }
  }

  // ----- the events of one command in one frame -----

  // The events of command `k`, in order.
  function EventsOf(events: seq<Event>, k: Identity): seq<Event> {
    if events == [] then []
    else
      var front, last := EventsOf(events[..|events| - 1], k), events[|events| - 1];
      if last.identity == k then front + [last] else front
  }

  lemma EventsOfMore(events: seq<Event>, kind: Option<Kind>, c: Command, time: int, k: Identity)
    ensures EventsOf(events + Report(kind, c, time), k)
         == EventsOf(events, k) + (if IdentityOf(c) == k then Report(kind, c, time) else [])
  {
    if kind.Some? {
      var more := events + Report(kind, c, time);
      assert more[..|events|] == events;
    } else {
      assert events + [] == events;
    }
  }

  // Other trains do not add to the events of `k`.
  lemma {:induction false} SeeAllElsewhere(
    owner: Identity -> string, s: State, ts: seq<Train>, revision: int, time: int, k: Identity)
    requires Owns(owner, s) && forall t <- ts :: t.trainId != owner(k)
    ensures EventsOf(SeenAll(s, ts, revision, time).events, k) == EventsOf(s.events, k)
  {
    if ts != [] {
      var front, t := ts[..|ts| - 1], ts[|ts| - 1];
      SeeAllElsewhere(owner, s, front, revision, time, k);
      SeeAllOwns(owner, s, front, revision, time);
      SeenElsewhere(owner, SeenAll(s, front, revision, time), t, revision, time, k);
    }
  }

  lemma SeenElsewhere(owner: Identity -> string, s: State, t: Train, revision: int, time: int, k: Identity)
    requires Owns(owner, s) && t.trainId != owner(k)
    ensures EventsOf(Seen(s, t, revision, time).events, k) == EventsOf(s.events, k)
  {
    if t.trainId != "" && t.visible && t.trainId in s.passages {
      var p := s.passages[t.trainId];
      SeenOnFields(s, t, revision, time);
      EventsOfMore(s.events, Says(p, t, revision, time), p.command, time, k);
    }
  }

  // Nor does missing them.
  lemma {:induction false} MissAllElsewhere(
    owner: Identity -> string, s: State, trains: seq<string>, time: int, k: Identity)
    requires Owns(owner, s) && owner(k) !in trains
    ensures EventsOf(MissedAll(s, trains, time).events, k) == EventsOf(s.events, k)
    ensures owner(k) in MissedAll(s, trains, time).passages <==> owner(k) in s.passages
    ensures owner(k) in s.passages ==> MissedAll(s, trains, time).passages[owner(k)] == s.passages[owner(k)]
  {
    if trains != [] {
      var front, train := trains[..|trains| - 1], trains[|trains| - 1];
      MissAllElsewhere(owner, s, front, time, k);
      MissAllOwns(owner, s, front, time);
      var t := MissedAll(s, front, time);
      assert train in trains;
      if train in t.passages {
        MissedOnFields(t, train, time);
        var p := t.passages[train];
        EventsOfMore(t.events, Some(if p.acknowledged then Cleared else Rejected), p.command, time, k);
      }
    }
  }

  // A train that is shown once is told of once.
  lemma {:induction false} SeeAllHere(
    owner: Identity -> string, s: State, ts: seq<Train>, revision: int, time: int, i: nat, k: Identity)
    requires Owns(owner, s) && i < |ts| && ts[i].trainId == owner(k)
    requires forall a, b | 0 <= a < b < |ts| :: ts[a].trainId != ts[b].trainId
    ensures EventsOf(SeenAll(s, ts, revision, time).events, k)
         == EventsOf(Seen(SeenAll(s, ts[..i], revision, time), ts[i], revision, time).events, k)
    ensures EventsOf(SeenAll(s, ts[..i], revision, time).events, k) == EventsOf(s.events, k)
  {
    var front := ts[..|ts| - 1];
    if i == |ts| - 1 {
      assert ts[..i] == front;
      SeeAllElsewhere(owner, s, front, revision, time, k);
    } else {
      SeeAllHere(owner, s, front, revision, time, i, k);
      assert front[..i] == ts[..i];
      SeeAllOwns(owner, s, front, revision, time);
      SeenElsewhere(owner, SeenAll(s, front, revision, time), ts[|ts| - 1], revision, time, k);
    }
  }

  // A missing train is told of once.
  lemma {:induction false} MissAllHere(
    owner: Identity -> string, s: State, trains: seq<string>, time: int, k: Identity)
    requires Owns(owner, s) && owner(k) in trains && owner(k) in s.passages
    requires IdentityOf(s.passages[owner(k)].command) == k
    requires forall i, j | 0 <= i < j < |trains| :: trains[i] != trains[j]
    ensures var p, t := s.passages[owner(k)], MissedAll(s, trains, time);
      && owner(k) !in t.passages
      && EventsOf(t.events, k)
      == EventsOf(s.events, k) + Report(Some(if p.acknowledged then Cleared else Rejected), p.command, time)
  {
    var front, train := trains[..|trains| - 1], trains[|trains| - 1];
    var t := MissedAll(s, front, time);
    MissAllOwns(owner, s, front, time);
    if train == owner(k) {
      MissAllElsewhere(owner, s, front, time, k);
      MissedOnFields(t, train, time);
      var p := s.passages[train];
      EventsOfMore(t.events, Some(if p.acknowledged then Cleared else Rejected), p.command, time, k);
    } else {
      assert owner(k) in front;
      MissAllHere(owner, s, front, time, k);
      MissAllElsewhere(owner, t, [train], time, k);
      assert [train][..0] == [];
      assert MissedAll(t, [train], time) == Missed(t, train, time);
    }
  }

  // ----- the story of every passage -----

  // The passage was begun in frame `m` by a command taken then, and remembers what the frames
  // since showed.
  ghost predicate BegunIn(frames: seq<Frame>, m: nat, n: nat, p: Passing)
    requires n <= |frames|
  {
    m <= n && m < |frames| && p.command in frames[m].commands && Remembers(frames, m, n, p)
  }

  ghost predicate Begun(frames: seq<Frame>, n: nat, p: Passing)
    requires n <= |frames|
  {
    exists m: nat :: BegunIn(frames, m, n, p)
  }

  // A passage after the commands are taken was there before, or is begun by one of them.
  lemma {:induction false} DrainOrigin(s: State, cs: seq<Command>, now: int, train: string)
    requires train in Drained(s, cs, now).passages
    ensures var p := Drained(s, cs, now).passages[train];
      (train in s.passages && p == s.passages[train]) || (p.command in cs && p == Passing(p.command, false, false, 0))
  {
    if cs != [] {
      var front := Drained(s, cs[..|cs| - 1], now);
      assert cs[|cs| - 1] in cs;
      if train in front.passages {
        DrainOrigin(s, cs[..|cs| - 1], now, train);
      }
    }
  }

  lemma DrainedBegun(frames: seq<Frame>, n: nat, s: State, train: string)
    requires n < |frames| && train in Drained(s, frames[n].commands, frames[n].now).passages
    requires train in s.passages ==> Begun(frames, n, s.passages[train])
    ensures Begun(frames, n, Drained(s, frames[n].commands, frames[n].now).passages[train])
  {
    var f := frames[n];
    var p := Drained(s, f.commands, f.now).passages[train];
    DrainOrigin(s, f.commands, f.now, train);
    if !(train in s.passages && p == s.passages[train]) {
      RemembersNothing(frames, n, p.command);
      assert BegunIn(frames, n, n, p);
    }
  }

  lemma ShowsOne(f: Frame, c: Command, t: Train)
    requires DistinctTrains(f) && t in f.trains && t.trainId == c.trainId
    ensures forall inside :: Shows(f, c, inside) <==> t.visible && Within(c, t.position) == inside
  {
    forall u | u in f.trains && u.trainId == c.trainId ensures u == t {
      var i :| 0 <= i < |f.trains| && f.trains[i] == t;
      var j :| 0 <= j < |f.trains| && f.trains[j] == u;
    }
  }

  // What a passage becomes when its train is shown.
  lemma ShownRemembers(frames: seq<Frame>, m: nat, n: nat, p: Passing, t: Train)
    requires n < |frames| && DistinctTrains(frames[n]) && BegunIn(frames, m, n, p)
    requires t in frames[n].trains && t.trainId == p.command.trainId
    requires Becomes(p, t, frames[n].revision, frames[n].time).Some? || !t.visible
    ensures var q := if t.visible then Becomes(p, t, frames[n].revision, frames[n].time).value else p;
      q.command == p.command && BegunIn(frames, m, n + 1, q)
  {
    ShowsOne(frames[n], p.command, t);
    if !t.visible {
      RemembersStill(frames, m, n, p);
    } else if Within(p.command, t.position) {
      RemembersInside(frames, m, n, p);
    } else if p.acknowledged && p.exitObservedAt == 0 && frames[n].time != 0 {
      RemembersOut(frames, m, n, p);
    } else {
      RemembersStill(frames, m, n, p);
    }
  }

  lemma FrameBegun(owner: Identity -> string, frames: seq<Frame>, n: nat, s: State, train: string)
    requires n < |frames| && DistinctTrains(frames[n]) && Owns(owner, s)
    requires forall c <- frames[n].commands :: Owned(owner, c)
    requires train in s.passages ==> Begun(frames, n, s.passages[train])
    requires Names(AfterSeen(s, frames[n]).passages.Keys - SeenIds(frames[n].trains), frames[n].missing)
    requires train in AfterFrame(s, frames[n]).passages
    ensures Begun(frames, n + 1, AfterFrame(s, frames[n]).passages[train])
  {
    var f := frames[n];
    var d, a := Drained(s, f.commands, f.now), AfterSeen(s, f);
    MissAllAt(a, f.missing, f.time, train);
    DrainOwns(owner, s, f.commands, f.now);
    var i := ShownIf(d, f, train);
    if i < |f.trains| {
      SeeAllOnce(d, f.trains, f.revision, f.time, i);
      DrainedBegun(frames, n, s, train);
      var p := d.passages[train];
      var m: nat :| BegunIn(frames, m, n, p);
      var before := SeenAll(d, f.trains[..i], f.revision, f.time);
      if f.trains[i].visible {
        SeenOnFields(before, f.trains[i], f.revision, f.time);
      }
      ShownRemembers(frames, m, n, p, f.trains[i]);
    } else {
      SeeAllAt(d, f.trains, f.revision, f.time, train);
      MissedIsGone(a, f, train);
    }
  }

  // Where the frame shows the train, if it does.
  lemma ShownIf(d: State, f: Frame, train: string) returns (i: nat)
    ensures i < |f.trains| ==> f.trains[i].trainId == train
    ensures i >= |f.trains| ==> forall t <- f.trains :: t.trainId != train
  {
    i := |f.trains|;
    if j :| 0 <= j < |f.trains| && f.trains[j].trainId == train {
      i := j;
    }
  }

  // A train that is not in the snapshot is among the missing.
  lemma MissedIsGone(a: State, f: Frame, train: string)
    requires Names(a.passages.Keys - SeenIds(f.trains), f.missing)
    requires train in a.passages && forall t <- f.trains :: t.trainId != train
    ensures train in f.missing && train !in MissedAll(a, f.missing, f.time).passages
  {
    assert train in f.missing;
    MissedOnce(a, f.missing, f.time, train);
  }

  lemma {:induction false} MissedOnce(s: State, trains: seq<string>, time: int, train: string)
    requires train in trains
    ensures train !in MissedAll(s, trains, time).passages
  {
    var front, last := trains[..|trains| - 1], trains[|trains| - 1];
    if last != train {
      assert train in front;
      MissedOnce(s, front, time, train);
    }
  }

  /** In every game every passage was begun by a command of its train that was taken in some
      frame, is acknowledged exactly if a frame since showed the train inside, and remembers
      exactly the first frame that showed it outside since it was last inside. */
  lemma {:induction false} PassagesRemember(
    owner: Identity -> string, states: seq<State>, frames: seq<Frame>, n: nat, train: string)
    requires IsGame(states, frames) && OwnedGame(owner, frames) && n <= |frames| && forall f <- frames :: DistinctTrains(f)
    requires train in states[n].passages
    ensures Begun(frames, n, states[n].passages[train])
  {
    assert n > 0;
    var s, f := states[n - 1], frames[n - 1];
    assert f in frames;
    GameOwns(owner, states, frames, n - 1);
    if train in s.passages {
      PassagesRemember(owner, states, frames, n - 1, train);
    }
    FrameBegun(owner, frames, n - 1, s, train);
  }

  // ----- what is reported -----

  // What frame `n` reports of a command taken in frame `m` that still has its passage: a train
  // that is gone has cleared it if it was inside, and else rejected it; one that does not fit
  // any more rejected it unless it was inside; and one that is seen acknowledges when it is
  // first inside, and has cleared once it was seen outside for two seconds and not inside since.
  ghost function Told(frames: seq<Frame>, m: nat, n: nat, c: Command): Option<Kind>
    requires n < |frames|
  {
    var f := frames[n];
    if forall t <- f.trains :: t.trainId != c.trainId then
      Some(if SeenInside(frames, c, m, n) then Cleared else Rejected)
    else if exists t :: t in f.trains && t.trainId == c.trainId && t.visible && Foreign(c, t, f.revision) then
      if SeenInside(frames, c, m, n) then None else Some(Rejected)
    else if Shows(f, c, true) then
      if SeenInside(frames, c, m, n) then None else Some(Accepted)
    else if Shows(f, c, false) && exists x: nat :: FirstOut(frames, c, m, n, x) && f.time - frames[x].time >= 2000 then
      Some(Cleared)
    else None
  }

  // Whether its passage goes on.
  ghost predicate GoesOn(frames: seq<Frame>, m: nat, n: nat, c: Command)
    requires n < |frames|
  {
    var f := frames[n];
    && Told(frames, m, n, c) != Some(Cleared)
    && exists t :: t in f.trains && t.trainId == c.trainId && (t.visible ==> !Foreign(c, t, f.revision))
  }

  // What a passage says of a shown train is what the frames tell.
  lemma SaysTold(frames: seq<Frame>, m: nat, n: nat, p: Passing, t: Train)
    requires n < |frames| && DistinctTrains(frames[n]) && BegunIn(frames, m, n, p)
    requires t in frames[n].trains && t.trainId == p.command.trainId
    ensures var f := frames[n];
      && Told(frames, m, n, p.command) == (if t.visible then Says(p, t, f.revision, f.time) else None)
      && (GoesOn(frames, m, n, p.command) <==> !t.visible || Becomes(p, t, f.revision, f.time).Some?)
  {
    var f, c := frames[n], p.command;
    ShowsOne(f, c, t);
    OnlyTrain(f, c, t);
    if t.visible && !Foreign(c, t, f.revision) && !Within(c, t.position) {
      ClearIff(frames, m, n, p);
    }
  }

  lemma OnlyTrain(f: Frame, c: Command, t: Train)
    requires DistinctTrains(f) && t in f.trains && t.trainId == c.trainId
    ensures forall u | u in f.trains && u.trainId == c.trainId :: u == t
  {
    forall u | u in f.trains && u.trainId == c.trainId ensures u == t {
      var i :| 0 <= i < |f.trains| && f.trains[i] == t;
      var j :| 0 <= j < |f.trains| && f.trains[j] == u;
    }
  }

  lemma ClearIff(frames: seq<Frame>, m: nat, n: nat, p: Passing)
    requires n < |frames| && Remembers(frames, m, n, p)
    ensures TailIsClear(p, frames[n].time) <==>
      exists x: nat :: FirstOut(frames, p.command, m, n, x) && frames[n].time - frames[x].time >= 2000
  {
    if p.exitObservedAt != 0 {
      var x: nat :| FirstOut(frames, p.command, m, n, x) && frames[x].time == p.exitObservedAt;
      assert SeenInside(frames, p.command, m, x);
      var i :| m <= i < x && Shows(frames[i], p.command, true);
      assert SeenInside(frames, p.command, m, n);
      forall y: nat | FirstOut(frames, p.command, m, n, y) ensures y == x {
        assert OutSince(frames, p.command, m, n, y);
      }
    }
  }

  /** Exactly what is reported of every command in every frame, and when its passage ends: what
      the frames since it was taken tell. */
  lemma ToldIff(owner: Identity -> string, states: seq<State>, frames: seq<Frame>, n: nat, train: string)
    returns (m: nat)
    requires IsGame(states, frames) && OwnedGame(owner, frames) && n < |frames| && forall f <- frames :: DistinctTrains(f)
    requires train in Drained(states[n], frames[n].commands, frames[n].now).passages
    ensures var f := frames[n];
      var d := Drained(states[n], f.commands, f.now);
      var c := d.passages[train].command;
      && m <= n && c in frames[m].commands && c.trainId == train
      && EventsOf(states[n + 1].events, IdentityOf(c))
         == EventsOf(d.events, IdentityOf(c)) + Report(Told(frames, m, n, c), c, f.time)
      && (train in states[n + 1].passages <==> GoesOn(frames, m, n, c))
  {
    var s, f := states[n], frames[n];
    var d := Drained(s, f.commands, f.now);
    assert f in frames;
    GameOwns(owner, states, frames, n);
    if train in s.passages {
      PassagesRemember(owner, states, frames, n, train);
    }
    DrainedBegun(frames, n, s, train);
    DrainOwns(owner, s, f.commands, f.now);
    var p := d.passages[train];
    m :| BegunIn(frames, m, n, p);
    var i := ShownIf(d, f, train);
    if i < |f.trains| {
      ToldShown(owner, frames, m, n, d, train, i);
    } else {
      ToldMissing(owner, frames, m, n, d, train);
    }
  }

  lemma ToldShown(owner: Identity -> string, frames: seq<Frame>, m: nat, n: nat, d: State, train: string, i: nat)
    requires n < |frames| && DistinctTrains(frames[n]) && Owns(owner, d) && train in d.passages
    requires BegunIn(frames, m, n, d.passages[train]) && i < |frames[n].trains| && frames[n].trains[i].trainId == train
    requires var f := frames[n];
      Names(SeenAll(d, f.trains, f.revision, f.time).passages.Keys - SeenIds(f.trains), f.missing)
    ensures var f, c := frames[n], d.passages[train].command;
      var e := MissedAll(SeenAll(d, f.trains, f.revision, f.time), f.missing, f.time);
      && EventsOf(e.events, IdentityOf(c)) == EventsOf(d.events, IdentityOf(c)) + Report(Told(frames, m, n, c), c, f.time)
      && (train in e.passages <==> GoesOn(frames, m, n, c))
  {
    var f, p := frames[n], d.passages[train];
    var k, t := IdentityOf(p.command), f.trains[i];
    var a, before := SeenAll(d, f.trains, f.revision, f.time), SeenAll(d, f.trains[..i], f.revision, f.time);
    assert PassesFor(owner, p.command, train);
    SeeAllOnce(d, f.trains, f.revision, f.time, i);
    SeeAllHere(owner, d, f.trains, f.revision, f.time, i, k);
    SeeAllOwns(owner, d, f.trains, f.revision, f.time);
    assert train in SeenIds(f.trains);
    MissAllElsewhere(owner, a, f.missing, f.time, k);
    SaysTold(frames, m, n, p, t);
    if t.visible {
      SeenOnFields(before, t, f.revision, f.time);
      EventsOfMore(before.events, Says(p, t, f.revision, f.time), p.command, f.time, k);
    }
  }

  lemma ToldMissing(owner: Identity -> string, frames: seq<Frame>, m: nat, n: nat, d: State, train: string)
    requires n < |frames| && Owns(owner, d) && train in d.passages
    requires BegunIn(frames, m, n, d.passages[train]) && forall t <- frames[n].trains :: t.trainId != train
    requires var f := frames[n];
      Names(SeenAll(d, f.trains, f.revision, f.time).passages.Keys - SeenIds(f.trains), f.missing)
    ensures var f, c := frames[n], d.passages[train].command;
      var e := MissedAll(SeenAll(d, f.trains, f.revision, f.time), f.missing, f.time);
      && EventsOf(e.events, IdentityOf(c)) == EventsOf(d.events, IdentityOf(c)) + Report(Told(frames, m, n, c), c, f.time)
      && train !in e.passages && !GoesOn(frames, m, n, c)
  {
    var f, p := frames[n], d.passages[train];
    var k := IdentityOf(p.command);
    var a := SeenAll(d, f.trains, f.revision, f.time);
    assert PassesFor(owner, p.command, train);
    SeeAllAt(d, f.trains, f.revision, f.time, train);
    SeeAllElsewhere(owner, d, f.trains, f.revision, f.time, k);
    SeeAllOwns(owner, d, f.trains, f.revision, f.time);
    assert train in f.missing;
    MissAllHere(owner, a, f.missing, f.time, k);
  }
}
