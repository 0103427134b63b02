/** What the passage machine promises over whole games: the events of every command, and
    how long a train must be outside before its clear. */
module PassageRuns {
  import opened Basics
  import opened Passage
  import Q = ControlQueue

  // ----- the events of one command -----

  function History(events: seq<Event>, k: Identity): seq<Kind> {
    if events == [] then []
    else
      var last := events[|events| - 1];
      History(events[..|events| - 1], k) + (if last.identity == k then [last.kind] else [])
  }

  lemma HistoryNext(events: seq<Event>, e: Event, k: Identity)
    ensures History(events + [e], k) == History(events, k) + (if e.identity == k then [e.kind] else [])
  {
    assert (events + [e])[..|events|] == events;
  }

  // `k` is the command of its train's passage.
  predicate Underway(owner: Identity -> string, s: State, k: Identity) {
    owner(k) in s.passages && IdentityOf(s.passages[owner(k)].command) == k
  }

  ghost predicate HistoryRight(owner: Identity -> string, s: State, k: Identity) {
    var h := History(s.events, k);
    if k in s.finished then h == [Rejected] || h == [Accepted, Cleared] || h == [Accepted]
    else if Underway(owner, s, k) then h == if s.passages[owner(k)].acknowledged then [Accepted] else []
    else h == []
  }

  /** Until the finished set is flushed, passages are filed under their train, are not
      finished, and every command's events fit its state.  `owner` says which train a
      command id belongs to. */
  ghost predicate Sound(owner: Identity -> string, s: State) {
    !s.flushed ==>
      && (forall t <- s.passages ::
            && s.passages[t].command.trainId == t && owner(IdentityOf(s.passages[t].command)) == t
            && IdentityOf(s.passages[t].command) !in s.finished)
      && forall k :: HistoryRight(owner, s, k)
  }

  /** The events of a command are a beginning of accept-then-cleared, or a single reject. */
  lemma EventsOfACommand(owner: Identity -> string, s: State, k: Identity)
    requires Sound(owner, s) && !s.flushed
    ensures var h := History(s.events, k); h <= [Accepted, Cleared] || h == [Rejected]
  {
    assert HistoryRight(owner, s, k);
  }

  // The state when `train`'s passage ends with `kind`, or silently.
  function Ended(s: State, train: string, kind: Option<Kind>, time: int): State
    requires train in s.passages
  {
    var p := s.passages[train];
    var t := if kind.None? then s else Emit(s, EventOf(kind.value, p, time));
    Finish(t.(passages := t.passages - {train}), IdentityOf(p.command))
  }

  lemma EndKeepsSound(owner: Identity -> string, s: State, train: string, kind: Option<Kind>, time: int)
    requires Sound(owner, s) && train in s.passages
    requires kind != Some(Accepted)
    requires if kind == Some(Rejected) then !s.passages[train].acknowledged else s.passages[train].acknowledged
    ensures Sound(owner, Ended(s, train, kind, time))
    ensures !Ended(s, train, kind, time).flushed ==> IdentityOf(s.passages[train].command) in Ended(s, train, kind, time).finished
  {
    var t := Ended(s, train, kind, time);
    if !t.flushed {
      forall k ensures HistoryRight(owner, t, k) {
        EndedHistory(owner, s, train, kind, time, k);
      }
    }
  }

  lemma EndedHistory(owner: Identity -> string, s: State, train: string, kind: Option<Kind>, time: int, k: Identity)
    requires Sound(owner, s) && train in s.passages && kind != Some(Accepted)
    requires if kind == Some(Rejected) then !s.passages[train].acknowledged else s.passages[train].acknowledged
    requires !Ended(s, train, kind, time).flushed
    ensures HistoryRight(owner, Ended(s, train, kind, time), k)
  {
    var p, t := s.passages[train], Ended(s, train, kind, time);
    assert HistoryRight(owner, s, k);
    if kind.Some? {
      HistoryNext(s.events, EventOf(kind.value, p, time), k);
    }
    if k == IdentityOf(p.command) {
      assert Underway(owner, s, k) && k !in s.finished;
      assert History(s.events, k) == if p.acknowledged then [Accepted] else [];
      assert [] + [Rejected] == [Rejected] && [Accepted] + [Cleared] == [Accepted, Cleared];
      assert kind.Some? ==> kind.value.Rejected? || kind.value.Cleared?;
    } else {
      assert History(t.events, k) == History(s.events, k);
      assert k in t.finished <==> k in s.finished;
      assert Underway(owner, t, k) <==> Underway(owner, s, k);
    }
  }

  lemma StartKeepsSound(owner: Identity -> string, s: State, c: Command)
    requires Sound(owner, s) && c.trainId !in s.passages && owner(IdentityOf(c)) == c.trainId
    requires !s.flushed ==> IdentityOf(c) !in s.finished
    ensures Sound(owner, s.(passages := s.passages[c.trainId := Fresh(c)]))
  {
    var t := s.(passages := s.passages[c.trainId := Fresh(c)]);
    if !t.flushed {
      forall k ensures HistoryRight(owner, t, k) {
        assert HistoryRight(owner, s, k);
      }
    }
  }

  // A quiet observation, or the acknowledgement.
  lemma UpdateKeepsSound(owner: Identity -> string, s: State, train: string, q: Passing, entered: bool, time: int)
    requires Sound(owner, s) && train in s.passages && q.command == s.passages[train].command
    requires q.acknowledged == (s.passages[train].acknowledged || entered)
    requires entered ==> !s.passages[train].acknowledged
    ensures var u := s.(passages := s.passages[train := q]);
      Sound(owner, if entered then Emit(u, EventOf(Accepted, s.passages[train], time)) else u)
  {
    var p := s.passages[train];
    var u := s.(passages := s.passages[train := q]);
    var t := if entered then Emit(u, EventOf(Accepted, p, time)) else u;
    if !t.flushed {
      forall k ensures HistoryRight(owner, t, k) {
        assert HistoryRight(owner, s, k);
        if entered {
          HistoryNext(s.events, EventOf(Accepted, p, time), k);
        }
      }
    }
  }

  // How an ending passage is reported when it is given up.
  function GivenUp(p: Passing): Option<Kind> {
    if p.acknowledged then None else Some(Rejected)
  }

  /** Ids belong to one train each. */
  predicate Owned(owner: Identity -> string, c: Command) {
    WellFormed(c) ==> owner(IdentityOf(c)) == c.trainId
  }

  lemma ReceiveKeepsSound(owner: Identity -> string, s: State, c: Command, now: int)
    requires Sound(owner, s) && Owned(owner, c)
    ensures Sound(owner, Received(s, c, now))
  {
    if WellFormed(c) && IdentityOf(c) !in s.finished {
      if c.trainId !in s.passages {
        StartKeepsSound(owner, s, c);
      } else if IdentityOf(s.passages[c.trainId].command) != IdentityOf(c) {
        SupersedeKeepsSound(owner, s, c, now);
      }
    }
  }

  lemma SupersedeKeepsSound(owner: Identity -> string, s: State, c: Command, now: int)
    requires Sound(owner, s) && WellFormed(c) && Owned(owner, c) && IdentityOf(c) !in s.finished
    requires c.trainId in s.passages && IdentityOf(s.passages[c.trainId].command) != IdentityOf(c)
    ensures Sound(owner, Received(s, c, now))
  {
    var p := s.passages[c.trainId];
    var t := Ended(s, c.trainId, GivenUp(p), now);
    EndKeepsSound(owner, s, c.trainId, GivenUp(p), now);
    assert t.finished <= s.finished + {IdentityOf(p.command)};
    StartKeepsSound(owner, t, c);
    assert s.passages[c.trainId := Fresh(c)] == (s.passages - {c.trainId})[c.trainId := Fresh(c)];
    assert Received(s, c, now) == t.(passages := t.passages[c.trainId := Fresh(c)]);
  }

  lemma SeeKeepsSound(owner: Identity -> string, s: State, t: Train, revision: int, time: int)
    requires Sound(owner, s)
    ensures Sound(owner, Seen(s, t, revision, time))
  {
    if t.trainId != "" && t.visible && t.trainId in s.passages {
      var p := s.passages[t.trainId];
      if Stale(p.command, t, revision) {
        EndKeepsSound(owner, s, t.trainId, GivenUp(p), time);
        assert Seen(s, t, revision, time) == Ended(s, t.trainId, GivenUp(p), time);
      } else {
        var (q, outcome) := Observe(p, Inside(p.command, t.position), time);
        if outcome == Leave {
          EndKeepsSound(owner, s, t.trainId, Some(Cleared), time);
          assert Seen(s, t, revision, time) == Ended(s, t.trainId, Some(Cleared), time);
        } else {
          UpdateKeepsSound(owner, s, t.trainId, q, outcome == Enter, time);
        }
      }
    }
  }

  lemma MissKeepsSound(owner: Identity -> string, s: State, train: string, time: int)
    requires Sound(owner, s)
    ensures Sound(owner, Missed(s, train, time))
  {
    if train in s.passages {
      var kind := if s.passages[train].acknowledged then Some(Cleared) else Some(Rejected);
      EndKeepsSound(owner, s, train, kind, time);
      assert Missed(s, train, time) == Ended(s, train, kind, time);
    }
  }

  // ----- frames and games -----

  /** One frame: what was queued, what was seen, and in which order the missing trains were
      found. */
  datatype Frame = Frame(
    commands: seq<Command>, now: int, revision: int, trains: seq<Train>, time: int, missing: seq<string>)

  function AfterSeen(s: State, f: Frame): State {
    SeenAll(Drained(s, f.commands, f.now), f.trains, f.revision, f.time)
  }

  function AfterFrame(s: State, f: Frame): State {
    MissedAll(AfterSeen(s, f), f.missing, f.time)
  }

  ghost predicate IsGame(states: seq<State>, frames: seq<Frame>) {
    && |states| == |frames| + 1 && states[0] == Initial
    && forall i | 0 <= i < |frames| ::
         && Names(AfterSeen(states[i], frames[i]).passages.Keys - SeenIds(frames[i].trains), frames[i].missing)
         && states[i + 1] == AfterFrame(states[i], frames[i])
  }

  ghost predicate OwnedGame(owner: Identity -> string, frames: seq<Frame>) {
    forall f <- frames :: forall c <- f.commands :: Owned(owner, c)
  }

  lemma {:induction false} DrainKeepsSound(owner: Identity -> string, s: State, cs: seq<Command>, now: int)
    requires Sound(owner, s) && forall c <- cs :: Owned(owner, c)
    ensures Sound(owner, Drained(s, cs, now))
  {
    if cs != [] {
      DrainKeepsSound(owner, s, cs[..|cs| - 1], now);
      ReceiveKeepsSound(owner, Drained(s, cs[..|cs| - 1], now), cs[|cs| - 1], now);
    }
  }

  lemma {:induction false} SeeAllKeepsSound(owner: Identity -> string, s: State, ts: seq<Train>, revision: int, time: int)
    requires Sound(owner, s)
    ensures Sound(owner, SeenAll(s, ts, revision, time))
  {
    if ts != [] {
      SeeAllKeepsSound(owner, s, ts[..|ts| - 1], revision, time);
      SeeKeepsSound(owner, SeenAll(s, ts[..|ts| - 1], revision, time), ts[|ts| - 1], revision, time);
    }
  }

  lemma {:induction false} MissAllKeepsSound(owner: Identity -> string, s: State, trains: seq<string>, time: int)
    requires Sound(owner, s)
    ensures Sound(owner, MissedAll(s, trains, time))
  {
    if trains != [] {
      MissAllKeepsSound(owner, s, trains[..|trains| - 1], time);
      MissKeepsSound(owner, MissedAll(s, trains[..|trains| - 1], time), trains[|trains| - 1], time);
    }
  }

  lemma FrameKeepsSound(owner: Identity -> string, s: State, f: Frame)
    requires Sound(owner, s) && forall c <- f.commands :: Owned(owner, c)
    ensures Sound(owner, AfterFrame(s, f))
  {
    var d := Drained(s, f.commands, f.now);
    DrainKeepsSound(owner, s, f.commands, f.now);
    SeeAllKeepsSound(owner, d, f.trains, f.revision, f.time);
    MissAllKeepsSound(owner, AfterSeen(s, f), f.missing, f.time);
  }

  /** In every game, until the finished set is flushed, each command's events are a beginning
      of accept-then-cleared or a single reject. */
  lemma {:induction false} EventsStayOrdered(
    owner: Identity -> string, states: seq<State>, frames: seq<Frame>, n: nat, k: Identity)
    requires IsGame(states, frames) && OwnedGame(owner, frames) && n <= |frames|
    ensures Sound(owner, states[n])
    ensures !states[n].flushed ==>
      var h := History(states[n].events, k); h <= [Accepted, Cleared] || h == [Rejected]
  {
    if n > 0 {
      EventsStayOrdered(owner, states, frames, n - 1, k);
      assert frames[n - 1] in frames;
      FrameKeepsSound(owner, states[n - 1], frames[n - 1]);
    }
    if !states[n].flushed {
      EventsOfACommand(owner, states[n], k);
    }
  }

  // ----- finished commands stay finished -----

  /** Nothing more happens to `k`: it stays finished and gets no further event. */
  ghost predicate Frozen(s: State, t: State, k: Identity) {
    (t.flushed || (k in t.finished && History(t.events, k) == History(s.events, k) && !s.flushed))
  }

  lemma EndFreezesOthers(owner: Identity -> string, s: State, train: string, kind: Option<Kind>, time: int, k: Identity)
    requires Sound(owner, s) && !s.flushed && train in s.passages && k in s.finished
    ensures Frozen(s, Ended(s, train, kind, time), k)
  {
    if kind.Some? {
      HistoryNext(s.events, EventOf(kind.value, s.passages[train], time), k);
    }
  }

  lemma ReceiveFreezes(owner: Identity -> string, s: State, c: Command, now: int, k: Identity)
    requires Sound(owner, s) && !s.flushed && k in s.finished
    ensures Frozen(s, Received(s, c, now), k)
  {
    if c.trainId in s.passages {
      var p := s.passages[c.trainId];
      EndFreezesOthers(owner, s, c.trainId, GivenUp(p), now, k);
    }
  }

  lemma SeeFreezes(owner: Identity -> string, s: State, t: Train, revision: int, time: int, k: Identity)
    requires Sound(owner, s) && !s.flushed && k in s.finished
    ensures Frozen(s, Seen(s, t, revision, time), k)
  {
    if t.trainId != "" && t.visible && t.trainId in s.passages {
      var p := s.passages[t.trainId];
      if Stale(p.command, t, revision) {
        EndFreezesOthers(owner, s, t.trainId, GivenUp(p), time, k);
        assert Seen(s, t, revision, time) == Ended(s, t.trainId, GivenUp(p), time);
      } else if Observe(p, Inside(p.command, t.position), time).1 == Leave {
        EndFreezesOthers(owner, s, t.trainId, Some(Cleared), time, k);
        assert Seen(s, t, revision, time) == Ended(s, t.trainId, Some(Cleared), time);
      } else {
        HistoryNext(s.events, EventOf(Accepted, p, time), k);
      }
    }
  }

  lemma MissFreezes(owner: Identity -> string, s: State, train: string, time: int, k: Identity)
    requires Sound(owner, s) && !s.flushed && k in s.finished
    ensures Frozen(s, Missed(s, train, time), k)
  {
    if train in s.passages {
      EndFreezesOthers(owner, s, train, Some(Cleared), time, k);
      EndFreezesOthers(owner, s, train, Some(Rejected), time, k);
    }
  }

  // Flushing is for good.
  lemma {:induction false} FlushedStays(s: State, cs: seq<Command>, now: int, ts: seq<Train>, revision: int, time: int,
                                        missing: seq<string>)
    requires s.flushed
    ensures Drained(s, cs, now).flushed && SeenAll(s, ts, revision, time).flushed && MissedAll(s, missing, time).flushed
    decreases |cs| + |ts| + |missing|
  {
    if cs != [] {
      FlushedStays(s, cs[..|cs| - 1], now, ts, revision, time, missing);
    }
    if ts != [] {
      FlushedStays(s, cs, now, ts[..|ts| - 1], revision, time, missing);
    }
    if missing != [] {
      FlushedStays(s, cs, now, ts, revision, time, missing[..|missing| - 1]);
    }
  }

  lemma {:induction false} DrainFreezes(owner: Identity -> string, s: State, cs: seq<Command>, now: int, k: Identity)
    requires Sound(owner, s) && !s.flushed && k in s.finished && forall c <- cs :: Owned(owner, c)
    ensures Frozen(s, Drained(s, cs, now), k)
  {
    if cs != [] {
      var front := cs[..|cs| - 1];
      DrainFreezes(owner, s, front, now, k);
      DrainKeepsSound(owner, s, front, now);
      if !Drained(s, front, now).flushed {
        ReceiveFreezes(owner, Drained(s, front, now), cs[|cs| - 1], now, k);
      }
    }
  }

  lemma {:induction false} SeeAllFreezes(
    owner: Identity -> string, s: State, ts: seq<Train>, revision: int, time: int, k: Identity)
    requires Sound(owner, s) && !s.flushed && k in s.finished
    ensures Frozen(s, SeenAll(s, ts, revision, time), k)
  {
    if ts != [] {
      var front := ts[..|ts| - 1];
      SeeAllFreezes(owner, s, front, revision, time, k);
      SeeAllKeepsSound(owner, s, front, revision, time);
      if !SeenAll(s, front, revision, time).flushed {
        SeeFreezes(owner, SeenAll(s, front, revision, time), ts[|ts| - 1], revision, time, k);
      }
    }
  }

  lemma {:induction false} MissAllFreezes(owner: Identity -> string, s: State, trains: seq<string>, time: int, k: Identity)
    requires Sound(owner, s) && !s.flushed && k in s.finished
    ensures Frozen(s, MissedAll(s, trains, time), k)
  {
    if trains != [] {
      var front := trains[..|trains| - 1];
      MissAllFreezes(owner, s, front, time, k);
      MissAllKeepsSound(owner, s, front, time);
      if !MissedAll(s, front, time).flushed {
        MissFreezes(owner, MissedAll(s, front, time), trains[|trains| - 1], time, k);
      }
    }
  }

  lemma FrameFreezes(owner: Identity -> string, s: State, f: Frame, k: Identity)
    requires Sound(owner, s) && !s.flushed && k in s.finished && forall c <- f.commands :: Owned(owner, c)
    ensures Frozen(s, AfterFrame(s, f), k)
  {
    var d, a := Drained(s, f.commands, f.now), AfterSeen(s, f);
    DrainFreezes(owner, s, f.commands, f.now, k);
    DrainKeepsSound(owner, s, f.commands, f.now);
    if d.flushed {
      FlushedStays(d, [], 0, f.trains, f.revision, f.time, []);
    } else {
      SeeAllFreezes(owner, d, f.trains, f.revision, f.time, k);
      SeeAllKeepsSound(owner, d, f.trains, f.revision, f.time);
    }
    if a.flushed {
      FlushedStays(a, [], 0, [], 0, f.time, f.missing);
    } else {
      MissAllFreezes(owner, a, f.missing, f.time, k);
    }
  }

  /** Once finished, a command gets no further event for the rest of the game, or until the
      finished set is flushed. */
  lemma {:induction false} FinishedForGood(
    owner: Identity -> string, states: seq<State>, frames: seq<Frame>, m: nat, n: nat, k: Identity)
    requires IsGame(states, frames) && OwnedGame(owner, frames) && m <= n <= |frames|
    requires !states[m].flushed && k in states[m].finished
    ensures Frozen(states[m], states[n], k)
  {
    if m < n {
      FinishedForGood(owner, states, frames, m, n - 1, k);
      EventsStayOrdered(owner, states, frames, n - 1, k);
      var s, f := states[n - 1], frames[n - 1];
      assert f in frames;
      if s.flushed {
        FlushedStays(s, f.commands, f.now, [], 0, 0, []);
        FlushedStays(Drained(s, f.commands, f.now), [], 0, f.trains, f.revision, f.time, []);
        FlushedStays(AfterSeen(s, f), [], 0, [], 0, f.time, f.missing);
      } else {
        FrameFreezes(owner, s, f, k);
      }
    }
  }

  // One thing that happens to the machine inside a frame.
  datatype Happening =
    | Receive(command: Command, now: int)
    | See(train: Train, revision: int, time: int)
    | Miss(trainId: string, missTime: int)

  function AfterHappening(s: State, h: Happening): State {
    match h
    case Receive(c, now) => Received(s, c, now)
    case See(t, revision, time) => Seen(s, t, revision, time)
    case Miss(train, time) => Missed(s, train, time)
  }

  // `train`'s passage is for command `k`.
  predicate PassageOf(s: State, train: string, k: Identity) {
    train in s.passages && IdentityOf(s.passages[train].command) == k
  }

  // A clear of `k` is among the events after the first `n`.
  predicate ClearedSince(events: seq<Event>, n: nat, k: Identity) {
    exists i :: n <= i < |events| && events[i].kind == Cleared && events[i].identity == k
  }

  /** The happening gives `train`'s passage up: another well-formed, unfinished command for
      the train arrives, or the train is seen where the command no longer applies. */
  predicate GivesUp(s: State, h: Happening, train: string)
    requires train in s.passages
  {
    var p := s.passages[train];
    match h
    case Receive(c, _) =>
      && WellFormed(c) && c.trainId == train
      && IdentityOf(c) !in s.finished && IdentityOf(c) != IdentityOf(p.command)
    case See(t, revision, _) => t.trainId == train && t.visible && Stale(p.command, t, revision)
    case Miss(_, _) => false
  }

  /** An acknowledged passage ends without a clear exactly when it is given up. */
  lemma EndsWithoutClearIff(s: State, h: Happening, train: string)
    requires Filed(s) && train in s.passages && s.passages[train].acknowledged
    ensures var k, t := IdentityOf(s.passages[train].command), AfterHappening(s, h);
      !PassageOf(t, train, k) && !ClearedSince(t.events, |s.events|, k) <==> GivesUp(s, h, train)
  {
    var p, t := s.passages[train], AfterHappening(s, h);
    var k := IdentityOf(p.command);
    match h
    case Receive(c, now) =>
    case See(u, revision, time) =>
      if u.trainId == train && u.visible && !Stale(p.command, u, revision)
         && Observe(p, Inside(p.command, u.position), time).1 == Leave {
        assert t.events[|s.events|] == EventOf(Cleared, p, time);
      }
    case Miss(other, time) =>
      if other == train {
        assert t.events[|s.events|] == EventOf(Cleared, p, time);
      }
  }

  /** What is given up while inside is never cleared: it is finished with its acknowledgement
      as its only event, unless the finished set was flushed. */
  lemma GivenUpIsNeverCleared(owner: Identity -> string, s: State, h: Happening, train: string)
    requires Sound(owner, s) && !s.flushed && train in s.passages && s.passages[train].acknowledged
    requires train != "" && GivesUp(s, h, train)
    ensures var k, t := IdentityOf(s.passages[train].command), AfterHappening(s, h);
      t.flushed || (k in t.finished && History(t.events, k) == [Accepted])
  {
    var p, t := s.passages[train], AfterHappening(s, h);
    var k := IdentityOf(p.command);
    assert owner(k) == train && Underway(owner, s, k) && HistoryRight(owner, s, k);
    assert t.events == s.events;
  }

  // In particular what a newer command supersedes.
  lemma SupersededIsNeverCleared(owner: Identity -> string, s: State, c: Command, now: int)
    requires Sound(owner, s) && !s.flushed && WellFormed(c) && IdentityOf(c) !in s.finished
    requires c.trainId in s.passages && s.passages[c.trainId].acknowledged
    requires IdentityOf(s.passages[c.trainId].command) != IdentityOf(c)
    ensures var k := IdentityOf(s.passages[c.trainId].command); var t := Received(s, c, now);
      t.flushed || (k in t.finished && History(t.events, k) == [Accepted])
  {
    GivenUpIsNeverCleared(owner, s, Receive(c, now), c.trainId);
  }

  // ----- two games in which an entered train is never reported to have left -----

  const First := Command("C1", "T", "L", "R", true, 1, true, 0.0, 10.0, 0)
  const Second := Command("C2", "T", "L", "R", true, 1, true, 0.0, 10.0, 0)
  const Here := Train("T", "L", 5.0, true)
  const Entering := Frame([First], 0, 1, [Here], 1000, [])

  function EnteredState(): State {
    State(map["T" := Passing(First, true, true, 0)], {}, [Event(Accepted, ById("C1"), "T", "R", 1000)], false)
  }

  lemma EnteringFrame()
    ensures AfterSeen(Initial, Entering) == EnteredState() && AfterFrame(Initial, Entering) == EnteredState()
    ensures Names(AfterSeen(Initial, Entering).passages.Keys - SeenIds(Entering.trains), [])
  {
    OneCommand(Initial, First, 0);
    var d := Drained(Initial, [First], 0);
    assert d == State(map["T" := Fresh(First)], {}, [], false);
    OneTrain(d, Here, 1, 1000);
    assert Observe(Fresh(First), true, 1000) == (Passing(First, true, true, 0), Enter);
    assert Seen(d, Here, 1, 1000).passages == EnteredState().passages;
    assert SeenIds([Here]) == {"T"};
  }

  lemma OneCommand(s: State, c: Command, now: int)
    ensures Drained(s, [c], now) == Received(s, c, now)
  {
    assert [c][..0] == [];
  }

  lemma OneTrain(s: State, t: Train, revision: int, time: int)
    ensures SeenAll(s, [t], revision, time) == Seen(s, t, revision, time)
  {
    assert [t][..0] == [];
  }

  lemma OneFinished(k: Identity)
    ensures Finish(EnteredState(), k) == EnteredState().(finished := {k})
  {
    assert {} + {k} == {k};
  }

  const Again := Frame([Second], 0, 1, [Here], 2000, [])

  function SupersededState(): State {
    State(map["T" := Passing(Second, true, true, 0)], {ById("C1")},
          EnteredState().events + [Event(Accepted, ById("C2"), "T", "R", 2000)], false)
  }

  lemma SupersedingFrame()
    ensures AfterSeen(EnteredState(), Again) == SupersededState()
  {
    var s := EnteredState();
    OneFinished(ById("C1"));
    OneCommand(s, Second, 0);
    var d := Drained(s, [Second], 0);
    assert d == State(map["T" := Fresh(Second)], {ById("C1")}, s.events, false);
    OneTrain(d, Here, 1, 2000);
    assert Observe(Fresh(Second), true, 2000) == (Passing(Second, true, true, 0), Enter);
    assert Seen(d, Here, 1, 2000).passages == SupersededState().passages;
  }

  /** A newer command arrives while the train is inside. */
  lemma SupersededGame() returns (states: seq<State>, frames: seq<Frame>)
    ensures IsGame(states, frames) && |frames| == 2 && ById("C1") in states[2].finished && !states[2].flushed
    ensures Underway(k => "T", states[1], ById("C1")) && History(states[2].events, ById("C1")) == [Accepted]
  {
    EnteringFrame();
    SupersedingFrame();
    assert SeenIds([Here]) == {"T"} && SupersededState().passages.Keys - {"T"} == {};
    states, frames := [Initial, EnteredState(), SupersededState()], [Entering, Again];
    HistoryNext(EnteredState().events, Event(Accepted, ById("C2"), "T", "R", 2000), ById("C1"));
    FirstHistory();
  }

  const Rerouted := Frame([], 0, 2, [Here], 2000, [])

  function GivenUpState(): State {
    State(map[], {ById("C1")}, EnteredState().events, false)
  }

  lemma ReroutedFrame()
    ensures AfterSeen(EnteredState(), Rerouted) == GivenUpState()
  {
    var s := EnteredState();
    OneFinished(ById("C1"));
    OneTrain(s, Here, 2, 2000);
    assert s.passages - {"T"} == map[];
  }

  /** The topology changes while the train is inside. */
  lemma StaleGame() returns (states: seq<State>, frames: seq<Frame>)
    ensures IsGame(states, frames) && |frames| == 2 && ById("C1") in states[2].finished && !states[2].flushed
    ensures Underway(k => "T", states[1], ById("C1")) && History(states[2].events, ById("C1")) == [Accepted]
  {
    EnteringFrame();
    ReroutedFrame();
    assert SeenIds([Here]) == {"T"} && GivenUpState().passages.Keys - {"T"} == {};
    states, frames := [Initial, EnteredState(), GivenUpState()], [Entering, Rerouted];
    FirstHistory();
  }

  lemma FirstHistory()
    ensures History(EnteredState().events, ById("C1")) == [Accepted]
  {
    var e := Event(Accepted, ById("C1"), "T", "R", 1000);
    assert EnteredState().events == [] + [e];
    HistoryNext([], e, ById("C1"));
  }

  // ----- the tail -----

  // Where the frame sees the command's train, if it does.
  predicate SeesInside(f: Frame, c: Command, inside: bool) {
    exists t :: t in f.trains && t.trainId == c.trainId && t.visible && Inside(c, t.position) == inside
  }

  predicate DistinctTrains(f: Frame) {
    forall i, j | 0 <= i < j < |f.trains| :: f.trains[i].trainId != f.trains[j].trainId
  }

  /** Since frame `m`, observed outside then, the train was never observed inside. */
  ghost predicate OutsideSince(frames: seq<Frame>, c: Command, m: nat, n: nat)
    requires m < n <= |frames|
  {
    SeesInside(frames[m], c, false) && forall i | m <= i < n :: !SeesInside(frames[i], c, true)
  }

  // A recorded exit stands for an earlier frame since which the train stayed outside.
  ghost predicate ExitRecorded(frames: seq<Frame>, n: nat, p: Passing)
    requires n <= |frames|
  {
    p.exitObservedAt != 0 ==> exists m :: 0 <= m < n && frames[m].time == p.exitObservedAt && OutsideSince(frames, p.command, m, n)
  }

  // Other trains' entries do not touch a passage.
  lemma {:induction false} SeeAllAt(s: State, ts: seq<Train>, revision: int, time: int, train: string)
    requires forall t <- ts :: t.trainId != train
    ensures train in SeenAll(s, ts, revision, time).passages <==> train in s.passages
    ensures train in s.passages ==> SeenAll(s, ts, revision, time).passages[train] == s.passages[train]
  {
    if ts != [] {
      SeeAllAt(s, ts[..|ts| - 1], revision, time, train);
    }
  }

  // A train listed once is observed once.
  lemma {:induction false} SeeAllOnce(s: State, ts: seq<Train>, revision: int, time: int, i: nat)
    requires i < |ts| && forall a, b | 0 <= a < b < |ts| :: ts[a].trainId != ts[b].trainId
    ensures var train := ts[i].trainId;
      var before := SeenAll(s, ts[..i], revision, time); var after := Seen(before, ts[i], revision, time);
      var end := SeenAll(s, ts, revision, time);
      && (train in before.passages <==> train in s.passages)
      && (train in s.passages ==> before.passages[train] == s.passages[train])
      && (train in end.passages <==> train in after.passages)
      && (train in end.passages ==> end.passages[train] == after.passages[train])
  {
    var front := ts[..|ts| - 1];
    if i == |ts| - 1 {
      SeeAllAt(s, front, revision, time, ts[i].trainId);
      assert ts[..i] == front;
    } else {
      SeeAllOnce(s, front, revision, time, i);
      assert front[..i] == ts[..i];
    }
  }

  // Draining leaves a passage or replaces it by a fresh one.
  lemma {:induction false} DrainAt(s: State, cs: seq<Command>, now: int, train: string)
    requires train in Drained(s, cs, now).passages
    ensures var p := Drained(s, cs, now).passages[train];
      p.exitObservedAt == 0 || (train in s.passages && p == s.passages[train])
  {
    if cs != [] {
      var front := Drained(s, cs[..|cs| - 1], now);
      if train in front.passages {
        DrainAt(s, cs[..|cs| - 1], now, train);
      }
    }
  }

  lemma {:induction false} MissAllAt(s: State, trains: seq<string>, time: int, train: string)
    requires train in MissedAll(s, trains, time).passages
    ensures train in s.passages && MissedAll(s, trains, time).passages[train] == s.passages[train]
  {
    if trains != [] {
      MissAllAt(s, trains[..|trains| - 1], time, train);
    }
  }

  // Passages are filed under their train, flushed or not.
  ghost predicate Filed(s: State) {
    forall t <- s.passages :: t != "" && s.passages[t].command.trainId == t
  }

  lemma {:induction false} DrainKeepsFiled(s: State, cs: seq<Command>, now: int)
    requires Filed(s)
    ensures Filed(Drained(s, cs, now))
  {
    if cs != [] {
      DrainKeepsFiled(s, cs[..|cs| - 1], now);
    }
  }

  lemma {:induction false} SeeAllKeepsFiled(s: State, ts: seq<Train>, revision: int, time: int)
    requires Filed(s)
    ensures Filed(SeenAll(s, ts, revision, time))
  {
    if ts != [] {
      SeeAllKeepsFiled(s, ts[..|ts| - 1], revision, time);
    }
  }

  lemma {:induction false} MissAllKeepsFiled(s: State, trains: seq<string>, time: int)
    requires Filed(s)
    ensures Filed(MissedAll(s, trains, time))
  {
    if trains != [] {
      MissAllKeepsFiled(s, trains[..|trains| - 1], time);
    }
  }

  lemma ExitOneMore(frames: seq<Frame>, n: nat, p: Passing)
    requires n < |frames| && ExitRecorded(frames, n, p) && !SeesInside(frames[n], p.command, true)
    ensures ExitRecorded(frames, n + 1, p)
  {
    if p.exitObservedAt != 0 {
      var m :| 0 <= m < n && frames[m].time == p.exitObservedAt && OutsideSince(frames, p.command, m, n);
      assert OutsideSince(frames, p.command, m, n + 1);
    }
  }

  // What the frame's entry for the train does to its passage.
  lemma SeeKeepsExit(frames: seq<Frame>, n: nat, s: State, i: nat)
    requires n < |frames| && i < |frames[n].trains| && DistinctTrains(frames[n])
    requires var f, train := frames[n], frames[n].trains[i].trainId;
      && Filed(s) && train in Seen(s, f.trains[i], f.revision, f.time).passages && train in s.passages
      && ExitRecorded(frames, n, s.passages[train])
    ensures var f, train := frames[n], frames[n].trains[i].trainId;
      ExitRecorded(frames, n + 1, Seen(s, f.trains[i], f.revision, f.time).passages[train])
  {
    var f, t := frames[n], frames[n].trains[i];
    var p := s.passages[t.trainId];
    var q := Seen(s, t, f.revision, f.time).passages[t.trainId];
    assert t in f.trains;
    if t.visible && Inside(p.command, t.position) {
      assert q.exitObservedAt == 0;
    } else {
      forall u | u in f.trains && u.trainId == t.trainId ensures u == t {
        var j :| 0 <= j < |f.trains| && f.trains[j] == u;
      }
      if q.exitObservedAt != 0 && q != p {
        assert SeesInside(f, p.command, false) && OutsideSince(frames, p.command, n, n + 1);
        assert frames[n].time == q.exitObservedAt;
      } else if q == p {
        ExitUnseenOrOutside(frames, n, t, p);
      }
    }
  }

  lemma ExitUnseenOrOutside(frames: seq<Frame>, n: nat, t: Train, p: Passing)
    requires n < |frames| && ExitRecorded(frames, n, p) && t.trainId == p.command.trainId
    requires forall u | u in frames[n].trains && u.trainId == t.trainId :: u == t
    requires t.visible ==> !Inside(p.command, t.position)
    ensures ExitRecorded(frames, n + 1, p)
  {
    ExitOneMore(frames, n, p);
  }

  lemma FrameKeepsExit(frames: seq<Frame>, n: nat, s: State, train: string)
    requires n < |frames| && DistinctTrains(frames[n]) && Filed(s)
    requires train in s.passages ==> ExitRecorded(frames, n, s.passages[train])
    requires train in AfterFrame(s, frames[n]).passages
    ensures ExitRecorded(frames, n + 1, AfterFrame(s, frames[n]).passages[train])
  {
    var f := frames[n];
    var d, a := Drained(s, f.commands, f.now), AfterSeen(s, f);
    MissAllAt(a, f.missing, f.time, train);
    DrainKeepsFiled(s, f.commands, f.now);
    if i :| 0 <= i < |f.trains| && f.trains[i].trainId == train {
      SeeAllOnce(d, f.trains, f.revision, f.time, i);
      SeeAllKeepsFiled(d, f.trains[..i], f.revision, f.time);
      DrainAt(s, f.commands, f.now, train);
      SeeKeepsExit(frames, n, SeenAll(d, f.trains[..i], f.revision, f.time), i);
    } else {
      SeeAllAt(d, f.trains, f.revision, f.time, train);
      DrainAt(s, f.commands, f.now, train);
      ExitOneMore(frames, n, d.passages[train]);
    }
  }

  lemma {:induction false} ExitsAreRecorded(states: seq<State>, frames: seq<Frame>, n: nat)
    requires IsGame(states, frames) && n <= |frames| && forall f <- frames :: DistinctTrains(f)
    ensures Filed(states[n]) && forall t <- states[n].passages :: ExitRecorded(frames, n, states[n].passages[t])
  {
    if n > 0 {
      ExitsAreRecorded(states, frames, n - 1);
      var s, f := states[n - 1], frames[n - 1];
      assert f in frames;
      DrainKeepsFiled(s, f.commands, f.now);
      SeeAllKeepsFiled(Drained(s, f.commands, f.now), f.trains, f.revision, f.time);
      MissAllKeepsFiled(AfterSeen(s, f), f.missing, f.time);
      forall t | t in states[n].passages ensures ExitRecorded(frames, n, states[n].passages[t]) {
        FrameKeepsExit(frames, n - 1, s, t);
      }
    }
  }

  /** A clear for a train that is present comes only after the tail delay: some earlier frame
      saw it outside at least that long ago, and no frame since has seen it inside. */
  lemma ClearWaitsForTail(states: seq<State>, frames: seq<Frame>, n: nat, i: nat)
    requires IsGame(states, frames) && n < |frames| && forall f <- frames :: DistinctTrains(f)
    requires i < |frames[n].trains|
    requires var f, t := frames[n], frames[n].trains[i];
      var s := SeenAll(Drained(states[n], f.commands, f.now), f.trains[..i], f.revision, f.time);
      && t.trainId in s.passages && t.visible
      && Observe(s.passages[t.trainId], Inside(s.passages[t.trainId].command, t.position), f.time).1 == Leave
    ensures var f, t := frames[n], frames[n].trains[i];
      var c := SeenAll(Drained(states[n], f.commands, f.now), f.trains[..i], f.revision, f.time).passages[t.trainId].command;
      && !Inside(c, t.position)
      && exists m :: 0 <= m < n && f.time - frames[m].time >= TAIL_CLEARANCE_MS && OutsideSince(frames, c, m, n)
  {
    var f, t := frames[n], frames[n].trains[i];
    var d := Drained(states[n], f.commands, f.now);
    assert f in frames;
    ExitsAreRecorded(states, frames, n);
    SeeAllOnce(d, f.trains, f.revision, f.time, i);
    DrainAt(states[n], f.commands, f.now, t.trainId);
    var p := d.passages[t.trainId];
    assert ExitRecorded(frames, n, p);
  }

  // ----- from events to the wire -----

  lemma {:induction false} HistoryPrefix(events: seq<Event>, j: nat, k: Identity)
    requires j <= |events|
    ensures History(events[..j], k) <= History(events, k)
  {
    if j < |events| {
      HistoryPrefix(events[..|events| - 1], j, k);
      assert events[..|events| - 1][..j] == events[..j];
    } else {
      assert events[..j] == events;
    }
  }

  lemma {:induction false} HistoryMember(events: seq<Event>, k: Identity, kind: Kind) returns (i: nat)
    requires kind in History(events, k)
    ensures i < |events| && events[i].identity == k && events[i].kind == kind
  {
    var front, last := events[..|events| - 1], events[|events| - 1];
    if last.identity == k && last.kind == kind {
      i := |events| - 1;
    } else {
      i := HistoryMember(front, k, kind);
    }
  }

  /** Every clear comes after the acknowledgement of the same command. */
  lemma ClearAfterAccept(owner: Identity -> string, s: State, j: nat) returns (i: nat)
    requires Sound(owner, s) && !s.flushed && j < |s.events| && s.events[j].kind == Cleared
    ensures i < j && s.events[i].kind == Accepted && s.events[i].identity == s.events[j].identity
  {
    var k := s.events[j].identity;
    EventsOfACommand(owner, s, k);
    HistoryPrefix(s.events, j + 1, k);
    assert s.events[..j + 1] == s.events[..j] + [s.events[j]];
    HistoryNext(s.events[..j], s.events[j], k);
    var h, before := History(s.events, k), History(s.events[..j], k);
    assert before + [Cleared] <= h && h[|before|] == Cleared;
    assert |before| == 1 && before[0] == h[0] == Accepted;
    i := HistoryMember(s.events[..j], k, Accepted);
  }

  // The posts for the events, `wire` giving path and body of each.
  function Wired(wire: Event -> (string, string), events: seq<Event>): seq<(string, string)> {
    seq(|events|, i requires 0 <= i < |events| => wire(events[i]))
  }

  /** No clear overtakes its acknowledgement: when the sender was handed the game's events in
      order, whatever posts they become, a clear that has left was preceded by the
      acknowledgement of its command. */
  lemma NoClearOvertakesItsAck(
    owner: Identity -> string, s: State, wire: Event -> (string, string),
    states: seq<Q.State>, labels: seq<Q.Label>, n: nat, j: nat)
    returns (i: nat)
    requires Sound(owner, s) && !s.flushed
    requires Q.IsRun(states, labels) && Q.CleanStarts(states, labels) && n <= |labels| && states[n].running
    requires Q.Enqueued(states, labels, n) == Wired(wire, s.events)
    requires j < |Q.Departed(states, labels, n)| && j < |s.events| && s.events[j].kind == Cleared
    ensures i < j && s.events[i].kind == Accepted && s.events[i].identity == s.events[j].identity
    ensures Q.Departed(states, labels, n)[i] == wire(s.events[i])
    ensures Q.Departed(states, labels, n)[j] == wire(s.events[j])
  {
    i := ClearAfterAccept(owner, s, j);
    Q.EventsDepartInOrder(states, labels, n);
  }
}
