/** The connection timer: a heap whose outdated nodes are dropped only when they reach the
    top.  It behaves as a plain table from file descriptor to latest deadline.  Times are
    nanoseconds of the monotonic clock. */
module TimerHeap {

  datatype Node = Node(fd: nat, id: nat, expire: int)

  const NANOS_PER_MS := 1_000_000

  function Deadline(now: int, timeoutMs: int): int {
    now + timeoutMs * NANOS_PER_MS
  }

  // The descriptors whose deadline has been reached.
  ghost function Due(live: map<nat, int>, now: int): set<nat> {
    set fd | fd in live && live[fd] <= now
  }

  ghost predicate IsLeast(live: map<nat, int>, d: int) {
    (exists fd :: fd in live && live[fd] == d) && forall fd <- live :: d <= live[fd]
  }

  // Each due descriptor once, earlier deadlines first.
  ghost predicate FiresDue(live: map<nat, int>, now: int, fired: seq<nat>) {
    && (forall fd: nat :: fd in fired <==> fd in live && live[fd] <= now)
    && (forall i, j | 0 <= i < j < |fired| :: fired[i] != fired[j])
    && forall i, j | 0 <= i < j < |fired| && fired[i] in live && fired[j] in live :: live[fired[i]] <= live[fired[j]]
  }

  /** A priority queue: nodes with equal deadlines come off in any order. */
  method Top(heap: multiset<Node>) returns (node: Node)
    requires heap != multiset{}
    ensures node in heap && forall m <- heap :: node.expire <= m.expire
  {
    var left := heap;
    node :| node in left;
    left := left - multiset{node};
    while left != multiset{}
      invariant node in heap && left <= heap
      invariant forall m <- heap :: m in left || node.expire <= m.expire
      decreases |left|
    {
      var m :| m in left;
      if m.expire < node.expire {
        node := m;
      }
      left := left - multiset{m};
    }
  }

  // Every descriptor's current node is in the heap with its deadline.
  ghost predicate Tracked(idMap: map<nat, nat>, live: map<nat, int>, heap: multiset<Node>, idGen: nat)
    requires live.Keys == idMap.Keys
  {
    forall fd <- idMap :: idMap[fd] <= idGen && Node(fd, idMap[fd], live[fd]) in heap
  }

  // No two nodes share an id.
  ghost predicate OwnIds(heap: multiset<Node>, idGen: nat) {
    && (forall m <- heap :: m.id <= idGen && heap[m] == 1)
    && forall m, n | m in heap && n in heap && m.id == n.id :: m == n
  }

  lemma DroppedIds(heap: multiset<Node>, idGen: nat, node: Node)
    requires OwnIds(heap, idGen) && node in heap
    ensures OwnIds(heap - multiset{node}, idGen) && node !in heap - multiset{node}
    ensures forall m <- heap :: m != node ==> m in heap - multiset{node}
  {
  }

  class TimerManager {
    var heap: multiset<Node>
    var idMap: map<nat, nat>
    var idGen: nat
    /** The plain table this object stands for: the latest deadline of each descriptor. */
    ghost var live: map<nat, int>

    ghost predicate Valid()
      reads this
    {
      live.Keys == idMap.Keys && Tracked(idMap, live, heap, idGen) && OwnIds(heap, idGen)
    }

    // The node still stands for its descriptor.
    predicate Current(node: Node)
      reads this
    {
      node.fd in idMap && idMap[node.fd] == node.id
    }

    constructor ()
      ensures Valid() && live == map[]
    {
      heap, idMap, idGen, live := multiset{}, map[], 0, map[];
    }

    /** A new deadline replaces the descriptor's old one. */
    method Add(fd: nat, timeoutMs: int, now: int)
      requires Valid()
      modifies this
      ensures Valid() && live == old(live)[fd := Deadline(now, timeoutMs)]
    {
      idGen := idGen + 1;
      idMap := idMap[fd := idGen];
      heap := heap + multiset{Node(fd, idGen, Deadline(now, timeoutMs))};
      live := live[fd := Deadline(now, timeoutMs)];
    }

    method Remove(fd: nat)
      requires Valid()
      modifies this
      ensures Valid() && live == old(live) - {fd}
    {
      idMap := idMap - {fd};
      live := live - {fd};
    }

    // Drops outdated nodes until the top is current or the heap is empty.
    method DropOutdated() returns (node: Node)
      requires Valid()
      modifies this`heap
      ensures Valid() && |heap| <= |old(heap)|
      ensures heap == multiset{} ==> live == map[]
      ensures heap != multiset{} ==>
        && node in heap && Current(node) && live[node.fd] == node.expire
        && forall fd <- live :: node.expire <= live[fd]
    {
      node := Node(0, 0, 0);
      while heap != multiset{}
        invariant Valid() && |heap| <= |old(heap)|
        decreases |heap|
      {
        node := Top(heap);
        if Current(node) {
          TopIsCurrent(node);
          return;
        }
        DroppedIds(heap, idGen, node);
        heap := heap - multiset{node};
      }
      LiveNeedsHeap();
    }

    lemma LiveNeedsHeap()
      requires Valid()
      ensures live != map[] ==> heap != multiset{}
    {
      if exists fd: nat :: fd in live {
        var fd :| fd in live;
        assert Node(fd, idMap[fd], live[fd]) in heap;
      } else {
        NoKeys(live);
      }
    }

    lemma TopIsCurrent(node: Node)
      requires Valid() && node in heap && Current(node) && forall m <- heap :: node.expire <= m.expire
      ensures live[node.fd] == node.expire
      ensures forall fd <- live :: node.expire <= live[fd]
    {
      assert Node(node.fd, idMap[node.fd], live[node.fd]) in heap;
      forall fd | fd in live ensures node.expire <= live[fd] {
        assert Node(fd, idMap[fd], live[fd]) in heap;
      }
    }

    // After the callback: erases the descriptor and pops its node.
    method Forget(node: Node)
      requires Valid() && node in heap && Current(node)
      modifies this
      ensures Valid() && live == old(live) - {node.fd} && |heap| < |old(heap)|
    {
      DroppedIds(heap, idGen, node);
      idMap := idMap - {node.fd};
      live := live - {node.fd};
      heap := heap - multiset{node};
    }

    /** Fires exactly the due descriptors, once each in deadline order, never an outdated
        or removed deadline; the callback itself must leave the timer alone. */
    method HandleExpired(now: int) returns (fired: seq<nat>)
      requires Valid()
      modifies this
      ensures Valid() && FiresDue(old(live), now, fired)
      ensures live == old(live) - Due(old(live), now)
    {
      fired := [];
      ghost var before := live;
      while heap != multiset{}
        invariant Valid() && FiredSoFar(before, live, now, fired)
        decreases |heap|
      {
        var node := DropOutdated();
        if heap == multiset{} || node.expire > now {
          assert forall fd <- live :: live[fd] > now;
          break;
        }
        FireNext(before, live, now, fired, node.fd);
        fired := fired + [node.fd];
        Forget(node);
      }
      LiveNeedsHeap();
      NothingDue(before, live, now, fired);
    }

    /** The wait until the least live deadline in whole milliseconds, zero when it is less
        than one away or past, and -1 without live timers. */
    method GetNextTimeout(now: int) returns (timeoutMs: int)
      requires Valid()
      modifies this`heap
      ensures Valid() && (timeoutMs == -1 <==> live == map[])
      ensures live != map[] ==> exists d :: IsLeast(live, d) && timeoutMs == WholeMs(d - now)
    {
      var node := DropOutdated();
      if heap == multiset{} {
        return -1;
      }
      assert IsLeast(live, node.expire);
      return WholeMs(node.expire - now);
    }
  }

  // The conversion truncates toward zero; what is not positive becomes zero.
  function WholeMs(nanos: int): (ms: int)
    ensures ms >= 0
    ensures if nanos < 0 then ms == 0 else ms * 1_000_000 <= nanos < (ms + 1) * 1_000_000
  {
    if nanos < 0 then 0 else nanos / NANOS_PER_MS
  }

  // What was fired so far is due, and everything still live is not earlier.
  ghost predicate FiredSoFar(before: map<nat, int>, live: map<nat, int>, now: int, fired: seq<nat>) {
    && (forall fd: nat :: fd in live <==> fd in before && fd !in fired)
    && (forall fd <- live :: live[fd] == before[fd])
    && (forall fd <- fired :: fd in before && before[fd] <= now)
    && (forall i, j | 0 <= i < j < |fired| :: fired[i] != fired[j])
    && (forall i, j | 0 <= i < j < |fired| :: fired[i] in before && fired[j] in before && before[fired[i]] <= before[fired[j]])
    && (forall fd, g | fd in fired && g in live && fd in before :: before[fd] <= live[g])
  }

  lemma NothingDue(before: map<nat, int>, live: map<nat, int>, now: int, fired: seq<nat>)
    requires FiredSoFar(before, live, now, fired) && forall fd <- live :: live[fd] > now
    ensures FiresDue(before, now, fired) && live == before - Due(before, now)
  {
    forall fd: nat ensures fd in live <==> fd in before && fd !in Due(before, now) {
      if fd in before && fd !in live {
        assert fd in fired;
      }
    }
    MinusKeys(before, live, Due(before, now));
    forall fd: nat ensures fd in fired <==> fd in Due(before, now) {
    }
  }

  lemma NoKeys(live: map<nat, int>)
    requires forall fd: nat :: fd !in live
    ensures live == map[]
  {
  }

  lemma MinusKeys(before: map<nat, int>, live: map<nat, int>, gone: set<nat>)
    requires forall fd: nat :: fd in live <==> fd in before && fd !in gone
    requires forall fd <- live :: live[fd] == before[fd]
    ensures live == before - gone
  {
  }

  lemma FireNext(before: map<nat, int>, live: map<nat, int>, now: int, fired: seq<nat>, fd: nat)
    requires FiredSoFar(before, live, now, fired)
    requires fd in live && live[fd] <= now && forall g <- live :: live[fd] <= live[g]
    ensures FiredSoFar(before, live - {fd}, now, fired + [fd])
  {
    var more := fired + [fd];
    forall i, j | 0 <= i < j < |more|
      ensures more[i] != more[j] && more[i] in before && more[j] in before && before[more[i]] <= before[more[j]]
    {
      assert more[i] in fired;
    }
  }

  // ----- whole histories -----

  datatype Op = Add(fd: nat, timeoutMs: int, now: int) | Remove(fd: nat) | Expire(now: int)

  ghost function After(live: map<nat, int>, op: Op): map<nat, int> {
    match op
    case Add(fd, ms, now) => live[fd := Deadline(now, ms)]
    case Remove(fd) => live - {fd}
    case Expire(now) => live - Due(live, now)
  }

  ghost function Table(ops: seq<Op>): map<nat, int> {
    if ops == [] then map[] else After(Table(ops[..|ops| - 1]), ops[|ops| - 1])
  }

  // The operation ends an earlier deadline of `fd`.
  ghost predicate Ends(live: map<nat, int>, op: Op, fd: nat) {
    match op
    case Add(f, _, _) => f == fd
    case Remove(f) => f == fd
    case Expire(now) => fd in Due(live, now)
  }

  /** A live deadline was set by some addition and nothing ended it since. */
  lemma {:induction false} LiveSince(ops: seq<Op>, fd: nat) returns (i: nat)
    requires fd in Table(ops)
    ensures i < |ops| && ops[i].Add? && ops[i].fd == fd && Table(ops)[fd] == Deadline(ops[i].now, ops[i].timeoutMs)
    ensures forall k | i < k < |ops| :: !Ends(Table(ops[..k]), ops[k], fd)
  {
    var front, last := ops[..|ops| - 1], ops[|ops| - 1];
    if last.Add? && last.fd == fd {
      i := |ops| - 1;
    } else {
      i := LiveSince(front, fd);
      forall k | i < k < |ops| ensures !Ends(Table(ops[..k]), ops[k], fd) {
        if k < |ops| - 1 {
          assert front[..k] == ops[..k];
        } else {
          assert ops[..k] == front;
        }
      }
    }
  }

  /** What fires was due by its latest addition: nobody fires for a superseded or removed
      deadline, and not twice for one addition. */
  lemma FiresForLatest(ops: seq<Op>, n: nat, fd: nat) returns (i: nat)
    requires n < |ops| && ops[n].Expire? && fd in Due(Table(ops[..n]), ops[n].now)
    ensures i < n && ops[i].Add? && ops[i].fd == fd && Deadline(ops[i].now, ops[i].timeoutMs) <= ops[n].now
    ensures forall k | i < k < n :: !Ends(Table(ops[..k]), ops[k], fd)
  {
    var front := ops[..n];
    i := LiveSince(front, fd);
    forall k | i < k < n ensures !Ends(Table(ops[..k]), ops[k], fd) {
      assert front[..k] == ops[..k];
    }
  }

  // The operation leaves deadline `d` of `fd` standing.
  predicate Leaves(op: Op, fd: nat, d: int) {
    match op
    case Add(f, _, _) => f != fd
    case Remove(f) => f != fd
    case Expire(now) => now < d
  }

  // Operation `i` set `fd` to deadline `d`, and everything since left that standing.
  predicate SetBy(ops: seq<Op>, i: nat, fd: nat, d: int) {
    && i < |ops| && ops[i].Add? && ops[i].fd == fd && d == ops[i].now + ops[i].timeoutMs * 1_000_000
    && forall k | i < k < |ops| :: Leaves(ops[k], fd, d)
  }

  /** Exactly which deadlines are live after a history: those that an addition set and that no
      later addition, removal or expiry ended. */
  lemma {:induction false} LiveIff(ops: seq<Op>, fd: nat, d: int)
    ensures (fd in Table(ops) && Table(ops)[fd] == d) <==> exists i: nat :: SetBy(ops, i, fd, d)
  {
    if ops != [] {
      var front, last := ops[..|ops| - 1], ops[|ops| - 1];
      LiveIff(front, fd, d);
      if i: nat :| SetBy(ops, i, fd, d) && i < |ops| - 1 {
        assert SetBy(front, i, fd, d);
      }
      if i: nat :| SetBy(front, i, fd, d) && Leaves(last, fd, d) {
        assert SetBy(ops, i, fd, d);
      }
      if last.Add? && last.fd == fd && d == last.now + last.timeoutMs * 1_000_000 {
        assert SetBy(ops, |ops| - 1, fd, d);
      }
    }
  }

  /** Exactly what an expiry fires: the descriptors whose latest addition, not ended since, set
      a deadline that has come. */
  lemma FiresIff(ops: seq<Op>, n: nat, fd: nat, fired: seq<nat>)
    requires n < |ops| && ops[n].Expire? && FiresDue(Table(ops[..n]), ops[n].now, fired)
    ensures fd in fired <==> exists i: nat, d :: SetBy(ops[..n], i, fd, d) && d <= ops[n].now
  {
    var before := Table(ops[..n]);
    if fd in before {
      LiveIff(ops[..n], fd, before[fd]);
    }
    if i: nat, d :| SetBy(ops[..n], i, fd, d) && d <= ops[n].now {
      LiveIff(ops[..n], fd, d);
    }
  }

  /** Driving the timer through a history keeps it equal to the plain table, and every
      expiry fires exactly what the table has due. */
  method Drive(timer: TimerManager, ops: seq<Op>) returns (fired: seq<seq<nat>>)
    requires timer.Valid() && timer.live == map[]
    modifies timer
    ensures timer.Valid() && timer.live == Table(ops) && |fired| == |ops|
    ensures forall n | 0 <= n < |ops| && ops[n].Expire? :: FiresDue(Table(ops[..n]), ops[n].now, fired[n])
  {
    fired := [];
    for n := 0 to |ops|
      invariant timer.Valid() && timer.live == Table(ops[..n]) && |fired| == n
      invariant forall k | 0 <= k < n && ops[k].Expire? :: FiresDue(Table(ops[..k]), ops[k].now, fired[k])
    {
      assert ops[..n + 1][..n] == ops[..n];
      var here := [];
      match ops[n] {
        case Add(fd, ms, now) => timer.Add(fd, ms, now);
        case Remove(fd) => timer.Remove(fd);
        case Expire(now) => here := timer.HandleExpired(now);
      }
      fired := fired + [here];
    }
    assert ops[..|ops|] == ops;
  }
}
