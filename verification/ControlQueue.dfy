/** The game side's sender: state-change events wait in one queue and are retried at its
    head; telemetry frames are replaced by newer ones.  The game thread and the sending
    thread interleave at the lock, so each locked section is one step. */
module ControlQueue {
  import opened Basics

  datatype Post = Post(path: string, json: string, attempts: nat)

  datatype Outcome = Delivered | Rejected | Failed

  // `workers` holds, for each live sending thread, the event it is sending.
  datatype State = State(
    running: bool,
    queue: seq<Post>,
    latest: map<string, string>,
    workers: map<nat, Option<Post>>,
    started: nat)

  datatype Label =
    | Start
    | Stop
    | Control(path: string, json: string)
    | Frame(framePath: string, frameJson: string)
    | Take(worker: nat)
    | Done(worker: nat, outcome: Outcome)

  const Initial := State(false, [], map[], map[], 0)

  // A thread takes only between sends and finishes only what it is sending.
  predicate Enabled(s: State, l: Label) {
    match l
    case Take(w) => w in s.workers && s.workers[w].None?
    case Done(w, _) => w in s.workers && s.workers[w].Some?
    case _ => true
  }

  function Next(s: State, l: Label): State
    requires Enabled(s, l)
  {
    match l
    case Start =>
      if s.running then s else State(true, [], map[], s.workers[s.started := None], s.started + 1)
    case Stop =>
      if s.running then s.(running := false, queue := [], latest := map[]) else s
    case Control(path, json) =>
      if s.running then s.(queue := s.queue + [Post(path, json, 0)]) else s
    case Frame(path, json) =>
      if s.running then s.(latest := s.latest[path := json]) else s
    case Take(w) =>
      if !s.running then s.(workers := s.workers - {w})
      else if s.queue == [] then s.(latest := map[])
      else s.(latest := map[], queue := s.queue[1..], workers := s.workers[w := Some(s.queue[0])])
    case Done(w, outcome) =>
      var post := s.workers[w].value;
      var free := s.(workers := s.workers[w := None]);
      if outcome == Failed && s.running then free.(queue := [post.(attempts := post.attempts + 1)] + s.queue) else free
  }

  predicate IsRun(states: seq<State>, labels: seq<Label>) {
    && |states| == |labels| + 1 && states[0] == Initial
    && forall i | 0 <= i < |labels| :: Enabled(states[i], labels[i]) && states[i + 1] == Next(states[i], labels[i])
  }

  // ----- the sender object -----

  class TelemetrySender {
    var running: bool
    var pendingControlPosts: seq<Post>
    var latestPayloadByPath: map<string, string>
    var workers: map<nat, Option<Post>>
    var started: nat

    function View(): State
      reads this
    {
      State(running, pendingControlPosts, latestPayloadByPath, workers, started)
    }

    constructor ()
      ensures View() == Initial
    {
      running, pendingControlPosts, latestPayloadByPath, workers, started := false, [], map[], map[], 0;
    }

    method StartSending()
      modifies this
      ensures View() == Next(old(View()), Start)
    {
      if running {
        return;
      }
      running := true;
      latestPayloadByPath := map[];
      pendingControlPosts := [];
      workers := workers[started := None];
      started := started + 1;
    }

    method StopSending()
      modifies this
      ensures View() == Next(old(View()), Stop)
    {
      if !running {
        return;
      }
      running := false;
      latestPayloadByPath := map[];
      pendingControlPosts := [];
    }

    method EnqueueControlPost(path: string, json: string)
      modifies this
      ensures View() == Next(old(View()), Control(path, json))
    {
      if running {
        pendingControlPosts := pendingControlPosts + [Post(path, json, 0)];
      }
    }

    method EnqueueJson(path: string, json: string)
      modifies this
      ensures View() == Next(old(View()), Frame(path, json))
    {
      if running {
        latestPayloadByPath := latestPayloadByPath[path := json];
      }
    }

    /** The worker's locked section: all newest frames, and one event from the head. */
    method TakeWork(worker: nat) returns (payloads: map<string, string>, post: Option<Post>)
      requires Enabled(View(), Take(worker))
      modifies this
      ensures View() == Next(old(View()), Take(worker))
      ensures payloads == if running then old(latestPayloadByPath) else map[]
      ensures post == if running && old(pendingControlPosts) != [] then Some(old(pendingControlPosts)[0]) else None
    {
      payloads, post := map[], None;
      if !running {
        workers := workers - {worker};
        return;
      }
      payloads := latestPayloadByPath;
      latestPayloadByPath := map[];
      if |pendingControlPosts| > 0 {
        post := Some(pendingControlPosts[0]);
        pendingControlPosts := pendingControlPosts[1..];
        workers := workers[worker := post];
      }
    }

    /** After sending: delivered and rejected events are done with; after any other failure
        the event goes back to the head, unless sending was stopped. */
    method SendControlPost(worker: nat, outcome: Outcome)
      requires Enabled(View(), Done(worker, outcome))
      modifies this
      ensures View() == Next(old(View()), Done(worker, outcome))
    {
      var post := workers[worker].value;
      workers := workers[worker := None];
      if outcome == Failed {
        RetryControlPost(post);
      }
    }

    method RetryControlPost(post: Post)
      modifies this`pendingControlPosts
      ensures pendingControlPosts ==
        if running then [post.(attempts := post.attempts + 1)] + old(pendingControlPosts) else old(pendingControlPosts)
    {
      var again := post.(attempts := post.attempts + 1);
      if running {
        pendingControlPosts := [again] + pendingControlPosts;
      }
    }
  }

  // ----- order of events -----

  function Bare(p: Post): (string, string) {
    (p.path, p.json)
  }

  function Bares(ps: seq<Post>): seq<(string, string)> {
    seq(|ps|, i requires 0 <= i < |ps| => Bare(ps[i]))
  }

  // What one step adds to the events accepted, and departed, since the last start.
  function EnqueuedBy(s: State, l: Label, before: seq<(string, string)>): seq<(string, string)> {
    match l
    case Start => if s.running then before else []
    case Control(path, json) => if s.running then before + [(path, json)] else before
    case _ => before
  }

  function DepartedBy(s: State, l: Label, before: seq<(string, string)>): seq<(string, string)> {
    if l.Start? && !s.running then [] else before + Leaving(s, l)
  }

  // The event a step delivers or has rejected.
  function Leaving(s: State, l: Label): seq<(string, string)> {
    match l
    case Done(w, outcome) =>
      if outcome != Failed && w in s.workers && s.workers[w].Some? then [Bare(s.workers[w].value)] else []
    case _ => []
  }

  function Enqueued(states: seq<State>, labels: seq<Label>, n: nat): seq<(string, string)>
    requires n <= |labels| <= |states|
  {
    if n == 0 then [] else EnqueuedBy(states[n - 1], labels[n - 1], Enqueued(states, labels, n - 1))
  }

  function Departed(states: seq<State>, labels: seq<Label>, n: nat): seq<(string, string)>
    requires n <= |labels| <= |states|
  {
    if n == 0 then [] else DepartedBy(states[n - 1], labels[n - 1], Departed(states, labels, n - 1))
  }

  /** Sending is started again only after the previous thread has ended. */
  ghost predicate CleanStarts(states: seq<State>, labels: seq<Label>) {
    |states| == |labels| + 1 &&
    forall i | 0 <= i < |labels| && labels[i].Start? && !states[i].running :: states[i].workers == map[]
  }

  ghost predicate OneWorker(s: State) {
    && (forall v, w | v in s.workers && w in s.workers :: v == w)
    && (s.running ==> s.workers != map[])
  }

  // The event being sent, if any.
  ghost function InFlight(s: State): seq<Post> {
    if w :| w in s.workers && s.workers[w].Some? then [s.workers[w].value] else []
  }

  lemma InFlightIs(s: State, w: nat)
    requires OneWorker(s) && w in s.workers
    ensures InFlight(s) == if s.workers[w].Some? then [s.workers[w].value] else []
  {
  }

  // Every accepted event has departed, is in flight or waits, in this order.
  ghost predicate Accounted(s: State, enqueued: seq<(string, string)>, departed: seq<(string, string)>) {
    s.running ==> enqueued == departed + Bares(InFlight(s) + s.queue)
  }

  lemma StepKeepsOneWorker(s: State, l: Label)
    requires OneWorker(s) && Enabled(s, l) && (l.Start? && !s.running ==> s.workers == map[])
    ensures OneWorker(Next(s, l))
  {
    var t := Next(s, l);
    match l
    case Done(w, _) => assert w in t.workers;
    case Take(w) => assert s.running ==> w in t.workers;
    case Start => assert !s.running ==> s.started in t.workers;
    case _ =>
  }

  lemma BaresAppend(p: seq<Post>, q: seq<Post>)
    ensures Bares(p + q) == Bares(p) + Bares(q)
  {
  }

  lemma {:induction false} Order(states: seq<State>, labels: seq<Label>, n: nat)
    requires IsRun(states, labels) && CleanStarts(states, labels) && n <= |labels|
    ensures OneWorker(states[n])
    ensures Accounted(states[n], Enqueued(states, labels, n), Departed(states, labels, n))
  {
    if n > 0 {
      Order(states, labels, n - 1);
      StepKeepsOneWorker(states[n - 1], labels[n - 1]);
      StepAccounts(states[n - 1], labels[n - 1], Enqueued(states, labels, n - 1), Departed(states, labels, n - 1));
    }
  }

  lemma StepAccounts(s: State, l: Label, enqueued: seq<(string, string)>, departed: seq<(string, string)>)
    requires OneWorker(s) && Enabled(s, l) && OneWorker(Next(s, l)) && Accounted(s, enqueued, departed)
    requires l.Start? && !s.running ==> s.workers == map[]
    ensures Accounted(Next(s, l), EnqueuedBy(s, l, enqueued), DepartedBy(s, l, departed))
  {
    var t := Next(s, l);
    match l {
      case Start =>
        if !s.running {
          InFlightIs(t, s.started);
        }
      case Control(path, json) =>
        if s.running {
          var w :| w in s.workers;
          InFlightIs(s, w);
          InFlightIs(t, w);
          assert InFlight(t) + t.queue == (InFlight(s) + s.queue) + [Post(path, json, 0)];
          BaresAppend(InFlight(s) + s.queue, [Post(path, json, 0)]);
        }
      case Take(w) =>
        if s.running {
          InFlightIs(s, w);
          InFlightIs(t, w);
          assert InFlight(t) + t.queue == InFlight(s) + s.queue;
        }
      case Done(w, outcome) =>
        DoneAccounts(s, w, outcome, enqueued, departed);
      case _ =>
    }
  }

  lemma DoneAccounts(
    s: State, w: nat, outcome: Outcome, enqueued: seq<(string, string)>, departed: seq<(string, string)>)
    requires OneWorker(s) && Enabled(s, Done(w, outcome)) && OneWorker(Next(s, Done(w, outcome)))
    requires Accounted(s, enqueued, departed)
    ensures Accounted(Next(s, Done(w, outcome)), enqueued, departed + Leaving(s, Done(w, outcome)))
  {
    var t, post := Next(s, Done(w, outcome)), s.workers[w].value;
    InFlightIs(s, w);
    InFlightIs(t, w);
    BaresAppend([post], s.queue);
    assert [] + t.queue == t.queue;
    if outcome == Failed && s.running {
      var again := post.(attempts := post.attempts + 1);
      BaresAppend([again], s.queue);
      assert Bares([again]) == Bares([post]);
      assert departed + [] == departed;
    } else {
      assert Bares([post]) == [Bare(post)];
    }
  }

  /** Events leave in the order they were accepted, whatever fails and however the threads
      interleave: what has departed is a prefix of what was accepted, so no event overtakes
      an earlier one. */
  lemma EventsDepartInOrder(states: seq<State>, labels: seq<Label>, n: nat)
    requires IsRun(states, labels) && CleanStarts(states, labels) && n <= |labels| && states[n].running
    ensures Departed(states, labels, n) <= Enqueued(states, labels, n)
  {
    Order(states, labels, n);
  }

  // ----- the newest frame -----

  // The call leaves the frame waiting for `path` where it is.
  predicate LeavesFrame(l: Label, path: string) {
    !l.Take? && !l.Stop? && !(l.Frame? && l.framePath == path)
  }

  // Call `i` gave the frame while sending, and no call since replaced, took or dropped it.
  predicate FrameSince(states: seq<State>, labels: seq<Label>, i: nat, n: nat, path: string, json: string)
    requires n <= |labels| <= |states|
  {
    && i < n && states[i].running && labels[i] == Frame(path, json)
    && forall k | i < k < n :: LeavesFrame(labels[k], path)
  }

  /** At every moment the frame waiting for a path is the newest given since the last round of
      the sending thread, the last stop and the last start; older ones are gone. */
  lemma {:induction false} FrameIsNewest(states: seq<State>, labels: seq<Label>, n: nat, path: string, json: string)
    requires IsRun(states, labels) && n <= |labels|
    ensures (path in states[n].latest && states[n].latest[path] == json)
      <==> exists i: nat :: FrameSince(states, labels, i, n, path, json)
    ensures !states[n].running ==> states[n].latest == map[]
  {
    if n > 0 {
      var m := n - 1;
      FrameIsNewest(states, labels, m, path, json);
      var s, l := states[m], labels[m];
      if i: nat :| FrameSince(states, labels, i, n, path, json) && i < m {
        assert FrameSince(states, labels, i, m, path, json);
      }
      if LeavesFrame(l, path) {
        if i: nat :| FrameSince(states, labels, i, m, path, json) {
          assert FrameSince(states, labels, i, n, path, json);
        }
      }
      if s.running && l == Frame(path, json) {
        assert FrameSince(states, labels, m, n, path, json);
      }
    }
  }

  // ----- why restarts must wait for the thread -----

  // Everything that ever departed, across restarts.
  function Gone(states: seq<State>, labels: seq<Label>, n: nat): seq<(string, string)>
    requires n <= |labels| <= |states|
  {
    if n == 0 then [] else Gone(states, labels, n - 1) + Leaving(states[n - 1], labels[n - 1])
  }

  // An acknowledgement is in flight when sending is stopped and started again.
  function HastyRestart(): seq<Label> {
    [Start, Control("ack", "1"), Take(0), Stop, Start, Control("cleared", "2"), Take(1), Done(1, Delivered),
     Done(0, Failed), Take(1), Done(1, Delivered)]
  }

  function HastyStates(): seq<State> {
    var ack, cleared := Post("ack", "1", 0), Post("cleared", "2", 0);
    var again := Post("ack", "1", 1);
    [Initial,
     State(true, [], map[], map[0 := None], 1),
     State(true, [ack], map[], map[0 := None], 1),
     State(true, [], map[], map[0 := Some(ack)], 1),
     State(false, [], map[], map[0 := Some(ack)], 1),
     State(true, [], map[], map[0 := Some(ack), 1 := None], 2),
     State(true, [cleared], map[], map[0 := Some(ack), 1 := None], 2),
     State(true, [], map[], map[0 := Some(ack), 1 := Some(cleared)], 2),
     State(true, [], map[], map[0 := Some(ack), 1 := None], 2),
     State(true, [again], map[], map[0 := None, 1 := None], 2),
     State(true, [], map[], map[0 := None, 1 := Some(again)], 2),
     State(true, [], map[], map[0 := None, 1 := None], 2)]
  }

  lemma HastyStep(i: nat)
    requires i < |HastyRestart()|
    ensures Enabled(HastyStates()[i], HastyRestart()[i])
    ensures HastyStates()[i + 1] == Next(HastyStates()[i], HastyRestart()[i])
  {
  }

  lemma HastyIsRun()
    ensures IsRun(HastyStates(), HastyRestart())
  {
    var states, labels := HastyStates(), HastyRestart();
    forall i | 0 <= i < |labels| ensures Enabled(states[i], labels[i]) && states[i + 1] == Next(states[i], labels[i]) {
      HastyStep(i);
    }
  }

  /** If sending is restarted while a thread still holds an event, a later clear can
      overtake the acknowledgement: the restart condition is needed. */
  lemma HastyRestartBreaksOrder()
    ensures IsRun(HastyStates(), HastyRestart()) && !CleanStarts(HastyStates(), HastyRestart())
    ensures Gone(HastyStates(), HastyRestart(), 11) == [("cleared", "2"), ("ack", "1")]
  {
    var states, labels := HastyStates(), HastyRestart();
    HastyIsRun();
    assert labels[4].Start? && !states[4].running && 0 in states[4].workers;
    forall i | 0 <= i < 11 ensures Leaving(states[i], labels[i]) == HastyLeaves(i) {
      HastyLeaving(i);
    }
    HastyGone(states, labels, 11);
  }

  lemma HastyLeaving(i: nat)
    requires i < 11
    ensures Leaving(HastyStates()[i], HastyRestart()[i]) == HastyLeaves(i)
  {
  }

  function HastyLeaves(i: nat): seq<(string, string)> {
    if i == 7 then [("cleared", "2")] else if i == 10 then [("ack", "1")] else []
  }

  function HastyHasLeft(n: nat): seq<(string, string)> {
    if n < 8 then [] else if n < 11 then [("cleared", "2")] else [("cleared", "2"), ("ack", "1")]
  }

  lemma {:induction false} HastyGone(states: seq<State>, labels: seq<Label>, n: nat)
    requires n <= 11 == |labels| < |states| && forall i | 0 <= i < 11 :: Leaving(states[i], labels[i]) == HastyLeaves(i)
    ensures Gone(states, labels, n) == HastyHasLeft(n)
  {
    if n > 0 {
      HastyGone(states, labels, n - 1);
      assert Gone(states, labels, n) == HastyHasLeft(n - 1) + HastyLeaves(n - 1);
    }
  }

  // ----- exactly when starting keeps the order -----

  // Everything that was ever accepted, across restarts.
  function AllAccepted(states: seq<State>, labels: seq<Label>, n: nat): seq<(string, string)>
    requires n <= |labels| <= |states|
  {
    if n == 0 then [] else AllAccepted(states, labels, n - 1) + Accepting(states[n - 1], labels[n - 1])
  }

  function Accepting(s: State, l: Label): seq<(string, string)> {
    if l.Control? && s.running then [(l.path, l.json)] else []
  }

  /** `p` is `q` with some elements left out. */
  ghost predicate Subsequence<T>(p: seq<T>, q: seq<T>) {
    p == [] ||
    (q != [] &&
     (Subsequence(p, q[..|q| - 1]) ||
      (p[|p| - 1] == q[|q| - 1] && Subsequence(p[..|p| - 1], q[..|q| - 1]))))
  }

  lemma {:induction false} LeaveOut<T>(p: seq<T>, m: seq<T>, r: seq<T>, q: seq<T>)
    requires Subsequence(p + m + r, q)
    ensures Subsequence(p + r, q)
    decreases |q|
  {
    if p + r != [] && p + m + r != [] {
      var all, front := p + m + r, q[..|q| - 1];
      if Subsequence(all, front) {
        LeaveOut(p, m, r, front);
      } else if r != [] {
        assert all[..|all| - 1] == p + m + r[..|r| - 1];
        LeaveOut(p, m, r[..|r| - 1], front);
        assert (p + r)[..|p + r| - 1] == p + r[..|r| - 1];
      } else if m != [] {
        assert all[..|all| - 1] == p + m[..|m| - 1] + r;
        LeaveOut(p, m[..|m| - 1], r, front);
      } else {
        assert all == p + r;
      }
    }
  }

  lemma SubsequenceNext<T>(p: seq<T>, q: seq<T>, x: T)
    ensures Subsequence(p, q) ==> Subsequence(p, q + [x])
    ensures Subsequence(p, q) ==> Subsequence(p + [x], q + [x])
  {
    assert (q + [x])[..|q|] == q && (p + [x])[..|p|] == p;
  }

  lemma {:induction false} SubsequenceMember<T>(p: seq<T>, q: seq<T>, x: T)
    requires Subsequence(p, q) && x in p
    ensures x in q
  {
    var front := q[..|q| - 1];
    assert q == front + [q[|q| - 1]] && p == p[..|p| - 1] + [p[|p| - 1]];
    if Subsequence(p, front) {
      SubsequenceMember(p, front, x);
    } else if x in p[..|p| - 1] {
      SubsequenceMember(p[..|p| - 1], front, x);
    }
  }

  // What departed, is in flight or waits was accepted in this order.
  ghost predicate KeptInOrder(s: State, gone: seq<(string, string)>, accepted: seq<(string, string)>) {
    && Subsequence(gone + Bares(InFlight(s) + s.queue), accepted)
    && (!s.running ==> s.queue == [])
  }

  lemma StepKeepsOrder(s: State, l: Label, gone: seq<(string, string)>, accepted: seq<(string, string)>)
    requires OneWorker(s) && Enabled(s, l) && OneWorker(Next(s, l)) && KeptInOrder(s, gone, accepted)
    requires l.Start? && !s.running ==> s.workers == map[]
    ensures KeptInOrder(Next(s, l), gone + Leaving(s, l), accepted + Accepting(s, l))
  {
    assert gone + [] == gone && accepted + [] == accepted;
    match l {
      case Start =>
        if !s.running {
          InFlightIs(Next(s, l), s.started);
          assert InFlight(Next(s, l)) + Next(s, l).queue == InFlight(s) + s.queue == [];
        }
      case Stop =>
        if s.running {
          StopKeepsOrder(s, gone, accepted);
        }
      case Control(path, json) =>
        if s.running {
          ControlKeepsOrder(s, path, json, gone, accepted);
        }
      case Frame(_, _) =>
      case Take(w) =>
        TakeKeepsOrder(s, w, gone, accepted);
      case Done(w, outcome) =>
        DoneKeepsOrder(s, w, outcome, gone, accepted);
    }
  }

  lemma StopKeepsOrder(s: State, gone: seq<(string, string)>, accepted: seq<(string, string)>)
    requires OneWorker(s) && s.running && KeptInOrder(s, gone, accepted)
    ensures KeptInOrder(Next(s, Stop), gone, accepted)
  {
    var t := Next(s, Stop);
    BaresAppend(InFlight(s), s.queue);
    assert gone + Bares(InFlight(s) + s.queue) == gone + Bares(InFlight(s)) + Bares(s.queue) + [];
    LeaveOut(gone + Bares(InFlight(s)), Bares(s.queue), [], accepted);
    assert InFlight(t) + t.queue == InFlight(s);
    assert gone + Bares(InFlight(s)) + [] == gone + Bares(InFlight(t) + t.queue);
  }

  lemma ControlKeepsOrder(
    s: State, path: string, json: string, gone: seq<(string, string)>, accepted: seq<(string, string)>)
    requires OneWorker(s) && s.running && KeptInOrder(s, gone, accepted)
    ensures KeptInOrder(Next(s, Control(path, json)), gone, accepted + [(path, json)])
  {
    var t := Next(s, Control(path, json));
    var w :| w in s.workers;
    InFlightIs(s, w);
    InFlightIs(t, w);
    assert InFlight(t) + t.queue == (InFlight(s) + s.queue) + [Post(path, json, 0)];
    BaresAppend(InFlight(s) + s.queue, [Post(path, json, 0)]);
    SubsequenceNext(gone + Bares(InFlight(s) + s.queue), accepted, (path, json));
    assert gone + Bares(InFlight(t) + t.queue) == gone + Bares(InFlight(s) + s.queue) + [(path, json)];
  }

  lemma TakeKeepsOrder(s: State, w: nat, gone: seq<(string, string)>, accepted: seq<(string, string)>)
    requires OneWorker(s) && Enabled(s, Take(w)) && OneWorker(Next(s, Take(w))) && KeptInOrder(s, gone, accepted)
    ensures KeptInOrder(Next(s, Take(w)), gone, accepted)
  {
    var t := Next(s, Take(w));
    InFlightIs(s, w);
    if s.running {
      InFlightIs(t, w);
      assert InFlight(t) + t.queue == InFlight(s) + s.queue;
    } else {
      assert t.workers == map[];
      assert InFlight(t) + t.queue == InFlight(s) + s.queue == [];
    }
  }

  lemma DoneKeepsOrder(
    s: State, w: nat, outcome: Outcome, gone: seq<(string, string)>, accepted: seq<(string, string)>)
    requires OneWorker(s) && Enabled(s, Done(w, outcome)) && OneWorker(Next(s, Done(w, outcome)))
    requires KeptInOrder(s, gone, accepted)
    ensures KeptInOrder(Next(s, Done(w, outcome)), gone + Leaving(s, Done(w, outcome)), accepted)
  {
    DoneKeepsEvents(s, w, outcome, gone);
    if outcome == Failed && !s.running {
      LeaveOut(gone, [Bare(s.workers[w].value)], Bares(s.queue), accepted);
    }
  }

  // The event stays, departed or waiting again, unless it failed after the stop.
  lemma DoneKeepsEvents(s: State, w: nat, outcome: Outcome, gone: seq<(string, string)>)
    requires OneWorker(s) && Enabled(s, Done(w, outcome)) && OneWorker(Next(s, Done(w, outcome)))
    ensures var t, post := Next(s, Done(w, outcome)), s.workers[w].value;
      var now, was := gone + Leaving(s, Done(w, outcome)) + Bares(InFlight(t) + t.queue), gone + Bares(InFlight(s) + s.queue);
      if outcome == Failed && !s.running then
        now == gone + Bares(s.queue) && was == gone + [Bare(post)] + Bares(s.queue)
      else now == was
  {
    var t, post := Next(s, Done(w, outcome)), s.workers[w].value;
    InFlightIs(s, w);
    InFlightIs(t, w);
    BaresAppend([post], s.queue);
    assert [] + t.queue == t.queue && Bares([post]) == [Bare(post)] && gone + [] == gone;
    if outcome == Failed && s.running {
      var again := post.(attempts := post.attempts + 1);
      BaresAppend([again], s.queue);
      assert Bares([again]) == Bares([post]);
    } else {
      assert gone + Bares([post] + s.queue) == gone + [Bare(post)] + Bares(s.queue);
    }
  }

  /** As long as sending starts again only after the previous thread has ended, everything
      that ever departed was accepted in that order, across all restarts. */
  lemma {:induction false} OrderAcrossRestarts(states: seq<State>, labels: seq<Label>, n: nat)
    requires IsRun(states, labels) && CleanStarts(states, labels) && n <= |labels|
    ensures OneWorker(states[n]) && KeptInOrder(states[n], Gone(states, labels, n), AllAccepted(states, labels, n))
    ensures Subsequence(Gone(states, labels, n), AllAccepted(states, labels, n))
  {
    if n > 0 {
      OrderAcrossRestarts(states, labels, n - 1);
      StepKeepsOneWorker(states[n - 1], labels[n - 1]);
      StepKeepsOrder(states[n - 1], labels[n - 1], Gone(states, labels, n - 1), AllAccepted(states, labels, n - 1));
    } else {
      assert InFlight(states[0]) == [];
    }
    var gone, kept := Gone(states, labels, n), Bares(InFlight(states[n]) + states[n].queue);
    assert gone + kept == gone + kept + [];
    LeaveOut(gone, kept, [], AllAccepted(states, labels, n));
    assert gone + [] == gone;
  }

  // ----- continuing a run -----

  // Later starts wait for the thread.
  ghost predicate CleanFrom(states: seq<State>, labels: seq<Label>, m: nat)
    requires |states| == |labels| + 1
  {
    forall i | m <= i < |labels| && labels[i].Start? && !states[i].running :: states[i].workers == map[]
  }

  // `ss`, `ls` continues the run `states`, `labels`, starting again only when the thread has ended.
  ghost predicate Continues(ss: seq<State>, ls: seq<Label>, states: seq<State>, labels: seq<Label>) {
    IsRun(ss, ls) && states <= ss && labels <= ls && CleanFrom(ss, ls, |labels|)
  }

  /** However the run goes on, nothing that was accepted later departs earlier. */
  ghost predicate AlwaysInOrder(states: seq<State>, labels: seq<Label>) {
    forall ss, ls | Continues(ss, ls, states, labels) :: Subsequence(Gone(ss, ls, |ls|), AllAccepted(ss, ls, |ls|))
  }

  lemma {:induction false} SameBeginning(
    states: seq<State>, labels: seq<Label>, ss: seq<State>, ls: seq<Label>, n: nat)
    requires n <= |labels| < |states| && n <= |ls| < |ss| && states <= ss && labels <= ls
    ensures Gone(ss, ls, n) == Gone(states, labels, n) && AllAccepted(ss, ls, n) == AllAccepted(states, labels, n)
  {
    if n > 0 {
      SameBeginning(states, labels, ss, ls, n - 1);
    }
  }

  // One step more.
  lemma Extended(states: seq<State>, labels: seq<Label>, l: Label, t: State, from: nat)
    requires IsRun(states, labels) && CleanFrom(states, labels, from) && (l.Start? ==> |labels| < from)
    requires Enabled(states[|labels|], l) && t == Next(states[|labels|], l)
    ensures IsRun(states + [t], labels + [l]) && CleanFrom(states + [t], labels + [l], from)
    ensures Gone(states + [t], labels + [l], |labels| + 1)
         == Gone(states, labels, |labels|) + Leaving(states[|labels|], l)
    ensures AllAccepted(states + [t], labels + [l], |labels| + 1)
         == AllAccepted(states, labels, |labels|) + Accepting(states[|labels|], l)
  {
    ExtendedRun(states, labels, l, t);
    ExtendedClean(states, labels, l, t, from);
    ExtendedEvents(states, labels, l, t);
  }

  lemma ExtendedEvents(states: seq<State>, labels: seq<Label>, l: Label, t: State)
    requires |states| == |labels| + 1
    ensures Gone(states + [t], labels + [l], |labels| + 1)
         == Gone(states, labels, |labels|) + Leaving(states[|labels|], l)
    ensures AllAccepted(states + [t], labels + [l], |labels| + 1)
         == AllAccepted(states, labels, |labels|) + Accepting(states[|labels|], l)
  {
    SameBeginning(states, labels, states + [t], labels + [l], |labels|);
  }

  lemma ExtendedRun(states: seq<State>, labels: seq<Label>, l: Label, t: State)
    requires IsRun(states, labels) && Enabled(states[|labels|], l) && t == Next(states[|labels|], l)
    ensures IsRun(states + [t], labels + [l])
  {
  }

  lemma ExtendedClean(states: seq<State>, labels: seq<Label>, l: Label, t: State, from: nat)
    requires |states| == |labels| + 1 && CleanFrom(states, labels, from) && (l.Start? ==> |labels| < from)
    ensures CleanFrom(states + [t], labels + [l], from)
  {
  }

  // The run went on with the first `n` of the labels `more`, through the states `path`.
  ghost predicate WentOn(states: seq<State>, labels: seq<Label>, more: seq<Label>, path: seq<State>, n: nat, from: nat,
                         ss: seq<State>, ls: seq<Label>)
    requires n <= |more| < |path| && |states| == |labels| + 1
  {
    && IsRun(ss, ls) && CleanFrom(ss, ls, from)
    && states <= ss && ls == labels + more[..n] && ss[|ls|] == path[n]
    && EventsWentOn(states, labels, more, path, n, ss, ls)
  }

  ghost predicate EventsWentOn(states: seq<State>, labels: seq<Label>, more: seq<Label>, path: seq<State>, n: nat,
                               ss: seq<State>, ls: seq<Label>)
    requires n <= |more| < |path| && |states| == |labels| + 1 && |ss| == |ls| + 1
  {
    && Gone(ss, ls, |ls|) == Gone(states, labels, |labels|) + Gone(path, more, n)
    && AllAccepted(ss, ls, |ls|) == AllAccepted(states, labels, |labels|) + AllAccepted(path, more, n)
  }

  lemma GoOn(states: seq<State>, labels: seq<Label>, more: seq<Label>, path: seq<State>, n: nat, from: nat,
             ss: seq<State>, ls: seq<Label>)
    requires n < |more| < |path| && |states| == |labels| + 1 && WentOn(states, labels, more, path, n, from, ss, ls)
    requires !more[n].Start? && Enabled(path[n], more[n]) && path[n + 1] == Next(path[n], more[n])
    ensures WentOn(states, labels, more, path, n + 1, from, ss + [path[n + 1]], ls + [more[n]])
  {
    ExtendedRun(ss, ls, more[n], path[n + 1]);
    ExtendedClean(ss, ls, more[n], path[n + 1], from);
    EventsGoOn(states, labels, more, path, n, ss, ls);
    assert ls + [more[n]] == labels + more[..n + 1];
  }

  lemma EventsGoOn(states: seq<State>, labels: seq<Label>, more: seq<Label>, path: seq<State>, n: nat,
                   ss: seq<State>, ls: seq<Label>)
    requires n < |more| < |path| && |states| == |labels| + 1 && |ss| == |ls| + 1 && ss[|ls|] == path[n]
    requires EventsWentOn(states, labels, more, path, n, ss, ls)
    ensures EventsWentOn(states, labels, more, path, n + 1, ss + [path[n + 1]], ls + [more[n]])
  {
    ExtendedEvents(ss, ls, more[n], path[n + 1]);
    assert Gone(path, more, n + 1) == Gone(path, more, n) + Leaving(path[n], more[n]);
    assert AllAccepted(path, more, n + 1) == AllAccepted(path, more, n) + Accepting(path[n], more[n]);
  }

  // Several steps more, none of them a start.
  lemma {:induction false} ExtendedBy(
    states: seq<State>, labels: seq<Label>, more: seq<Label>, path: seq<State>, n: nat, from: nat)
    returns (ss: seq<State>, ls: seq<Label>)
    requires IsRun(states, labels) && CleanFrom(states, labels, from)
    requires n <= |more| < |path| && path[0] == states[|labels|]
    requires forall i | 0 <= i < n :: !more[i].Start? && Enabled(path[i], more[i]) && path[i + 1] == Next(path[i], more[i])
    ensures WentOn(states, labels, more, path, n, from, ss, ls)
  {
    if n == 0 {
      ss, ls := states, labels;
      assert labels + more[..0] == labels;
    } else {
      ss, ls := ExtendedBy(states, labels, more, path, n - 1, from);
      GoOn(states, labels, more, path, n - 1, from, ss, ls);
      ss, ls := ss + [path[n]], ls + [more[n - 1]];
    }
  }

  lemma {:induction false} ThreadsStarted(states: seq<State>, labels: seq<Label>, n: nat, w: nat)
    requires IsRun(states, labels) && n <= |labels| && w in states[n].workers
    ensures w < states[n].started
  {
    if n > 0 {
      assert states[n] == Next(states[n - 1], labels[n - 1]);
      if w in states[n - 1].workers {
        ThreadsStarted(states, labels, n - 1, w);
      }
    }
  }

  // A text longer than that of every event.
  function LongText(events: seq<(string, string)>): string {
    if events == [] then "." else LongText(events[..|events| - 1]) + events[|events| - 1].1
  }

  lemma LongTextIsNew(events: seq<(string, string)>, path: string)
    ensures (path, LongText(events)) !in events
  {
    if (path, LongText(events)) in events {
      var i :| 0 <= i < |events| && events[i] == (path, LongText(events));
      Longer(events, i);
    }
  }

  lemma {:induction false} Longer(events: seq<(string, string)>, i: nat)
    requires i < |events|
    ensures |events[i].1| < |LongText(events)|
  {
    var front := events[..|events| - 1];
    if i < |front| {
      Longer(front, i);
    } else {
      NotEmpty(front);
    }
  }

  lemma {:induction false} NotEmpty(events: seq<(string, string)>)
    ensures LongText(events) != ""
  {
    if events != [] {
      NotEmpty(events[..|events| - 1]);
    }
  }

  lemma Swapped<T>(p: seq<T>, q: seq<T>, x: T, y: T)
    requires x != y && x !in q && y !in q
    ensures !Subsequence(p + [y, x], q + [x, y])
  {
    var all := p + [y, x];
    assert all[..|all| - 1] == p + [y] && (q + [x, y])[..|q| + 1] == q + [x] && (q + [x])[..|q|] == q;
    if Subsequence(all, q) {
      SubsequenceMember(all, q, x);
    }
    if Subsequence(p + [y], q) {
      SubsequenceMember(p + [y], q, y);
    }
  }

  // After the early start, with an old thread `w` and the new one, two events overtake.
  function OldThread(w: nat, newer: nat, x: (string, string), y: (string, string)): seq<Label> {
    [Control(x.0, x.1), Control(y.0, y.1), Take(w), Take(newer), Done(newer, Delivered), Done(w, Delivered)]
  }

  function OldThreadStates(s: State, w: nat, newer: nat, x: Post, y: Post): seq<State> {
    [s,
     s.(queue := [x]),
     s.(queue := [x, y]),
     s.(queue := [y], latest := map[], workers := s.workers[w := Some(x)]),
     s.(queue := [], latest := map[], workers := s.workers[w := Some(x)][newer := Some(y)]),
     s.(queue := [], latest := map[], workers := s.workers[w := Some(x)][newer := Some(y)][newer := None]),
     s.(queue := [], latest := map[], workers := s.workers[w := Some(x)][newer := Some(y)][newer := None][w := None])]
  }

  lemma OldThreadStep(s: State, w: nat, newer: nat, x: (string, string), y: (string, string), i: nat)
    requires s.running && s.queue == [] && w != newer && w in s.workers && newer in s.workers
    requires s.workers[w].None? && s.workers[newer].None? && i < 6
    ensures var path, more := OldThreadStates(s, w, newer, Post(x.0, x.1, 0), Post(y.0, y.1, 0)), OldThread(w, newer, x, y);
      && !more[i].Start? && Enabled(path[i], more[i]) && path[i + 1] == Next(path[i], more[i])
      && Leaving(path[i], more[i]) == (if i == 4 then [y] else if i == 5 then [x] else [])
      && Accepting(path[i], more[i]) == (if i == 0 then [x] else if i == 1 then [y] else [])
  {
  }

  // What the six steps deliver and accept.
  function SixGone(n: nat, x: (string, string), y: (string, string)): seq<(string, string)> {
    if n <= 4 then [] else if n == 5 then [y] else [y, x]
  }

  function SixAccepted(n: nat, x: (string, string), y: (string, string)): seq<(string, string)> {
    if n == 0 then [] else if n == 1 then [x] else [x, y]
  }

  lemma {:induction false} SixSteps(path: seq<State>, more: seq<Label>, x: (string, string), y: (string, string), n: nat)
    requires n <= 6 == |more| < |path|
    requires forall i | 0 <= i < 6 ::
      && Leaving(path[i], more[i]) == (if i == 4 then [y] else if i == 5 then [x] else [])
      && Accepting(path[i], more[i]) == (if i == 0 then [x] else if i == 1 then [y] else [])
    ensures Gone(path, more, n) == SixGone(n, x, y) && AllAccepted(path, more, n) == SixAccepted(n, x, y)
  {
    if n > 0 {
      SixSteps(path, more, x, y, n - 1);
      var i := n - 1;
      assert Gone(path, more, n) == SixGone(i, x, y) + Leaving(path[i], more[i]);
      assert AllAccepted(path, more, n) == SixAccepted(i, x, y) + Accepting(path[i], more[i]);
    }
  }

  // From a running state with two free threads and nothing queued, order can be lost.
  lemma TwoThreadsOvertake(states: seq<State>, labels: seq<Label>, w: nat, newer: nat, from: nat)
    returns (ss: seq<State>, ls: seq<Label>)
    requires IsRun(states, labels) && CleanFrom(states, labels, from)
    requires var s := states[|labels|];
      && s.running && s.queue == [] && w != newer && w in s.workers && newer in s.workers
      && s.workers[w].None? && s.workers[newer].None?
    ensures IsRun(ss, ls) && states <= ss && labels <= ls && CleanFrom(ss, ls, from)
    ensures !Subsequence(Gone(ss, ls, |ls|), AllAccepted(ss, ls, |ls|))
  {
    var s, accepted := states[|labels|], AllAccepted(states, labels, |labels|);
    var text := LongText(accepted);
    var x, y := ("ack", text), ("cleared", text);
    var path, more := OldThreadStates(s, w, newer, Post(x.0, x.1, 0), Post(y.0, y.1, 0)), OldThread(w, newer, x, y);
    forall i | 0 <= i < 6
      ensures !more[i].Start? && Enabled(path[i], more[i]) && path[i + 1] == Next(path[i], more[i])
      ensures Leaving(path[i], more[i]) == (if i == 4 then [y] else if i == 5 then [x] else [])
      ensures Accepting(path[i], more[i]) == (if i == 0 then [x] else if i == 1 then [y] else [])
    {
      OldThreadStep(s, w, newer, x, y, i);
    }
    SixSteps(path, more, x, y, 6);
    ss, ls := ExtendedBy(states, labels, more, path, 6, from);
    LongTextIsNew(accepted, "ack");
    LongTextIsNew(accepted, "cleared");
    Swapped(Gone(states, labels, |labels|), accepted, x, y);
  }

  /** From any reachable state in which sending starts again while a thread of an earlier
      start is alive, some continuation delivers an event accepted later before one accepted
      earlier. */
  lemma EarlyStartOvertakes(states: seq<State>, labels: seq<Label>, w: nat) returns (ss: seq<State>, ls: seq<Label>)
    requires IsRun(states, labels) && !states[|labels|].running && w in states[|labels|].workers
    ensures Continues(ss, ls, states + [Next(states[|labels|], Start)], labels + [Start])
    ensures !Subsequence(Gone(ss, ls, |ls|), AllAccepted(ss, ls, |ls|))
  {
    var s, from := states[|labels|], |labels| + 1;
    ThreadsStarted(states, labels, |labels|, w);
    Extended(states, labels, Start, Next(s, Start), from);
    var begun, start := states + [Next(s, Start)], labels + [Start];
    var t := Next(s, Start);
    if t.workers[w].Some? {
      var u := Next(t, Done(w, Delivered));
      Extended(begun, start, Done(w, Delivered), u, from);
      ss, ls := TwoThreadsOvertake(begun + [u], start + [Done(w, Delivered)], w, s.started, from);
    } else {
      ss, ls := TwoThreadsOvertake(begun, start, w, s.started, from);
    }
  }

  /** Exactly when starting again keeps the order in every future: when no thread of an
      earlier start is alive. */
  lemma StartKeepsOrderIff(states: seq<State>, labels: seq<Label>)
    requires IsRun(states, labels) && CleanStarts(states, labels) && !states[|labels|].running
    ensures AlwaysInOrder(states + [Next(states[|labels|], Start)], labels + [Start])
       <==> states[|labels|].workers == map[]
  {
    var s := states[|labels|];
    var begun, start := states + [Next(s, Start)], labels + [Start];
    if s.workers == map[] {
      forall ss, ls | Continues(ss, ls, begun, start) ensures Subsequence(Gone(ss, ls, |ls|), AllAccepted(ss, ls, |ls|)) {
        StillClean(states, labels, ss, ls);
        OrderAcrossRestarts(ss, ls, |ls|);
      }
    } else {
      var w :| w in s.workers;
      var ss, ls := EarlyStartOvertakes(states, labels, w);
    }
  }

  lemma StillClean(states: seq<State>, labels: seq<Label>, ss: seq<State>, ls: seq<Label>)
    requires |states| == |labels| + 1 && CleanStarts(states, labels) && states[|labels|].workers == map[]
    requires Continues(ss, ls, states + [Next(states[|labels|], Start)], labels + [Start])
    ensures CleanStarts(ss, ls)
  {
    var m := |labels|;
    forall i | 0 <= i < |ls| && ls[i].Start? && !ss[i].running ensures ss[i].workers == map[] {
      if i <= m {
        assert ss[i] == (states + [Next(states[m], Start)])[i] && ls[i] == (labels + [Start])[i];
      }
    }
  }
}
