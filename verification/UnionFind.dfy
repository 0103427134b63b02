/** Union-find with path compression as the line analyzer uses it twice: to group matching
    fragments, and to drop shared corridors whose whole component is short. */
module UnionFind {

  // ----- forests -----

  /** `p` is a forest: following parents climbs strictly in `h`, which stays within `top`. */
  ghost predicate Forest(p: seq<nat>, h: seq<nat>, top: nat) {
    && |h| == |p|
    && forall v | 0 <= v < |p| :: p[v] < |p| && h[v] <= top && (p[v] != v ==> h[v] < h[p[v]])
  }

  ghost function Root(p: seq<nat>, h: seq<nat>, top: nat, v: nat): (r: nat)
    requires Forest(p, h, top) && v < |p|
    ensures r < |p| && p[r] == r && h[v] <= h[r] && (r != v ==> h[v] < h[r])
    decreases top - h[v]
  {
    if p[v] == v then v else Root(p, h, top, p[v])
  }

  lemma {:induction false} CompressKeepsRoot(p: seq<nat>, h: seq<nat>, top: nat, v: nat, u: nat)
    requires Forest(p, h, top) && v < |p| && u < |p|
    ensures var q := p[v := Root(p, h, top, v)]; Forest(q, h, top) && Root(q, h, top, u) == Root(p, h, top, u)
    decreases top - h[u]
  {
    var r := Root(p, h, top, v);
    var q := p[v := r];
    if u == v {
      if q[u] != u {
        assert q[r] == r;
      }
    } else if p[u] != u {
      CompressKeepsRoot(p, h, top, v, p[u]);
    }
  }

  // `roots` gives the roots of the first `n` nodes.
  ghost predicate RootsBelow(p: seq<nat>, h: seq<nat>, top: nat, roots: seq<nat>, n: nat)
    requires Forest(p, h, top) && n <= |roots| == |p|
  {
    n == 0 || (RootsBelow(p, h, top, roots, n - 1) && Root(p, h, top, n - 1) == roots[n - 1])
  }

  /** `roots` gives everybody's root in the forest. */
  ghost predicate Represents(p: seq<nat>, h: seq<nat>, top: nat, roots: seq<nat>) {
    Forest(p, h, top) && |roots| == |p| && RootsBelow(p, h, top, roots, |p|)
  }

  lemma {:induction false} RootAt(p: seq<nat>, h: seq<nat>, top: nat, roots: seq<nat>, n: nat, u: nat)
    requires Forest(p, h, top) && u < n <= |roots| == |p| && RootsBelow(p, h, top, roots, n)
    ensures Root(p, h, top, u) == roots[u]
  {
    if u < n - 1 {
      RootAt(p, h, top, roots, n - 1, u);
    }
  }

  lemma {:induction false} AllRoots(p: seq<nat>, h: seq<nat>, top: nat, roots: seq<nat>, n: nat)
    requires Forest(p, h, top) && n <= |roots| == |p|
    requires forall u {:trigger Root(p, h, top, u)} | 0 <= u < n :: Root(p, h, top, u) == roots[u]
    ensures RootsBelow(p, h, top, roots, n)
  {
    if n > 0 {
      AllRoots(p, h, top, roots, n - 1);
      assert Root(p, h, top, n - 1) == roots[n - 1];
    }
  }

  lemma CompressRepresents(p: seq<nat>, h: seq<nat>, top: nat, roots: seq<nat>, v: nat)
    requires Represents(p, h, top, roots) && v < |p|
    ensures Represents(p[v := roots[v]], h, top, roots)
  {
    var q := p[v := roots[v]];
    RootAt(p, h, top, roots, |p|, v);
    CompressKeepsRoot(p, h, top, v, v);
    forall u | 0 <= u < |p| ensures Root(q, h, top, u) == roots[u] {
      RootAt(p, h, top, roots, |p|, u);
      CompressKeepsRoot(p, h, top, v, u);
    }
    AllRoots(q, h, top, roots, |p|);
  }

  /** Finding a root compresses the path and changes nobody's root. */
  method Find(parent: array<nat>, v: nat, ghost h: seq<nat>, ghost top: nat, ghost roots: seq<nat>) returns (r: nat)
    requires v < parent.Length && Represents(parent[..], h, top, roots)
    modifies parent
    ensures Represents(parent[..], h, top, roots) && r == roots[v]
    decreases top - h[v]
  {
    RootAt(parent[..], h, top, roots, parent.Length, v);
    if parent[v] == v {
      return v;
    }
    RootAt(parent[..], h, top, roots, parent.Length, parent[v]);
    r := Find(parent, parent[v], h, top, roots);
    CompressRepresents(parent[..], h, top, roots, v);
    ghost var p := parent[..];
    parent[v] := r;
    assert parent[..] == p[v := r];
  }

  // Hanging root `s` under root `r`: `r` moves up past `s`.
  ghost function Raised(h: seq<nat>, r: nat, s: nat): seq<nat>
    requires r < |h| && s < |h|
  {
    h[r := if h[s] < h[r] then h[r] else h[s] + 1]
  }

  lemma {:induction false} LinkMergesTrees(p: seq<nat>, h: seq<nat>, top: nat, r: nat, s: nat, u: nat)
    requires Forest(p, h, top) && r < |p| && s < |p| && r != s && p[r] == r && p[s] == s && u < |p|
    ensures var q, g := p[s := r], Raised(h, r, s);
      && Forest(q, g, top + 1)
      && Root(q, g, top + 1, u) == if Root(p, h, top, u) == s then r else Root(p, h, top, u)
    decreases top - h[u]
  {
    if p[u] != u {
      LinkMergesTrees(p, h, top, r, s, p[u]);
    } else if u == s {
      var q, g := p[s := r], Raised(h, r, s);
      assert q[r] == r && Root(q, g, top + 1, r) == r;
    }
  }

  // Everybody under `s` moves under `r`.
  ghost function Merged(roots: seq<nat>, r: nat, s: nat): seq<nat> {
    seq(|roots|, u requires 0 <= u < |roots| => if roots[u] == s then r else roots[u])
  }

  lemma LinkRepresents(p: seq<nat>, h: seq<nat>, top: nat, roots: seq<nat>, r: nat, s: nat)
    requires Represents(p, h, top, roots) && r < |p| && s < |p| && r != s && roots[r] == r && roots[s] == s
    ensures Represents(p[s := r], Raised(h, r, s), top + 1, Merged(roots, r, s))
  {
    var q, g, more := p[s := r], Raised(h, r, s), top + 1;
    RootAt(p, h, top, roots, |p|, r);
    RootAt(p, h, top, roots, |p|, s);
    LinkMergesTrees(p, h, top, r, s, r);
    forall u | 0 <= u < |p| ensures Root(q, g, more, u) == Merged(roots, r, s)[u] {
      RootAt(p, h, top, roots, |p|, u);
      LinkMergesTrees(p, h, top, r, s, u);
    }
    AllRoots(q, g, more, Merged(roots, r, s), |p|);
  }

  // ----- connectivity -----

  // A test on index pairs, asked only for `i < j`.
  type Nearness = (nat, nat) -> bool

  predicate Near(near: Nearness, i: nat, j: nat) {
    near(i, j)
  }

  /** Pairs `(i, j)` in loop order before `(a, b)`. */
  predicate Before(i: nat, j: nat, a: nat, b: nat) {
    i < a || (i == a && j < b)
  }

  /** `u` and `v` are the two sides of a near pair that the loops reach before `(a, b)`. */
  predicate Edge(near: Nearness, a: nat, b: nat, u: nat, v: nat) {
    || (u < v && Near(near, u, v) && Before(u, v, a, b))
    || (v < u && Near(near, v, u) && Before(v, u, a, b))
  }

  predicate IsPath(near: Nearness, n: nat, a: nat, b: nat, s: seq<nat>) {
    && s != [] && (forall k | 0 <= k < |s| :: s[k] < n)
    && forall k | 0 <= k < |s| - 1 :: Edge(near, a, b, s[k], s[k + 1])
  }

  /** A chain of near pairs joins `u` and `v`. */
  ghost predicate Joined(near: Nearness, n: nat, a: nat, b: nat, u: nat, v: nat) {
    exists s :: IsPath(near, n, a, b, s) && s[0] == u && s[|s| - 1] == v
  }

  /** The connected components of the whole near relation on `0..n`. */
  ghost predicate Connected(near: Nearness, n: nat, u: nat, v: nat) {
    Joined(near, n, n, n + 1, u, v)
  }

  lemma JoinedRefl(near: Nearness, n: nat, a: nat, b: nat, u: nat)
    requires u < n
    ensures Joined(near, n, a, b, u, u)
  {
    assert IsPath(near, n, a, b, [u]);
  }

  lemma JoinedEdge(near: Nearness, n: nat, a: nat, b: nat, u: nat, v: nat)
    requires u < n && v < n && Edge(near, a, b, u, v)
    ensures Joined(near, n, a, b, u, v)
  {
    assert IsPath(near, n, a, b, [u, v]);
  }

  lemma JoinedTrans(near: Nearness, n: nat, a: nat, b: nat, u: nat, v: nat, w: nat)
    requires Joined(near, n, a, b, u, v) && Joined(near, n, a, b, v, w)
    ensures Joined(near, n, a, b, u, w)
  {
    var s :| IsPath(near, n, a, b, s) && s[0] == u && s[|s| - 1] == v;
    var t :| IsPath(near, n, a, b, t) && t[0] == v && t[|t| - 1] == w;
    var st := s + t[1..];
    forall k | 0 <= k < |st| - 1 ensures Edge(near, a, b, st[k], st[k + 1]) {
      if k < |s| - 1 {
        assert Edge(near, a, b, s[k], s[k + 1]);
      } else {
        assert Edge(near, a, b, t[k - |s| + 1], t[k - |s| + 2]);
      }
    }
    assert IsPath(near, n, a, b, st);
  }

  // More pairs, more joined.
  lemma JoinedGrows(near: Nearness, n: nat, a: nat, b: nat, c: nat, d: nat, u: nat, v: nat)
    requires Joined(near, n, a, b, u, v) && (a < c || (a == c && b <= d))
    ensures Joined(near, n, c, d, u, v)
  {
    var s :| IsPath(near, n, a, b, s) && s[0] == u && s[|s| - 1] == v;
    forall k | 0 <= k < |s| - 1 ensures Edge(near, c, d, s[k], s[k + 1]) {
      assert Edge(near, a, b, s[k], s[k + 1]);
    }
    assert IsPath(near, n, c, d, s);
  }

  // ----- the union loops -----

  // A root is its own root.
  predicate RootMap(roots: seq<nat>) {
    forall u | 0 <= u < |roots| :: roots[u] < |roots| && roots[roots[u]] == roots[u]
  }

  // The trees are the components of the pairs before `(a, b)`: sound and closed.
  ghost predicate Tracks(roots: seq<nat>, near: Nearness, a: nat, b: nat) {
    && RootMap(roots)
    && (forall u, v {:trigger Joined(near, |roots|, a, b, u, v)} |
          0 <= u < |roots| && 0 <= v < |roots| && roots[u] == roots[v] :: Joined(near, |roots|, a, b, u, v))
    && (forall u, v | 0 <= u < |roots| && 0 <= v < |roots| && Edge(near, a, b, u, v) :: roots[u] == roots[v])
  }

  lemma {:induction false} PathSharesRoot(roots: seq<nat>, near: Nearness, a: nat, b: nat, s: seq<nat>)
    requires Tracks(roots, near, a, b) && IsPath(near, |roots|, a, b, s)
    ensures roots[s[0]] == roots[s[|s| - 1]]
  {
    if |s| > 1 {
      PathSharesRoot(roots, near, a, b, s[..|s| - 1]);
      assert Edge(near, a, b, s[|s| - 2], s[|s| - 1]);
    }
  }

  /** Equal roots mean exactly: joined by a chain of near pairs. */
  lemma RootsAreComponents(roots: seq<nat>, near: Nearness, a: nat, b: nat, u: nat, v: nat)
    requires Tracks(roots, near, a, b) && u < |roots| && v < |roots|
    ensures roots[u] == roots[v] <==> Joined(near, |roots|, a, b, u, v)
  {
    if Joined(near, |roots|, a, b, u, v) {
      var s :| IsPath(near, |roots|, a, b, s) && s[0] == u && s[|s| - 1] == v;
      PathSharesRoot(roots, near, a, b, s);
    }
  }

  // Moving past a pair that is not near, or whose sides already share a root.
  lemma PassPair(roots: seq<nat>, near: Nearness, a: nat, b: nat)
    requires Tracks(roots, near, a, b) && a < b < |roots|
    requires !Near(near, a, b) || roots[a] == roots[b]
    ensures Tracks(roots, near, a, b + 1)
  {
    var n, next := |roots|, b + 1;
    forall u, v | 0 <= u < n && 0 <= v < n && roots[u] == roots[v] ensures Joined(near, n, a, next, u, v) {
      JoinedGrows(near, n, a, b, a, next, u, v);
    }
    forall u, v | 0 <= u < n && 0 <= v < n && Edge(near, a, next, u, v) ensures roots[u] == roots[v] {
      assert Edge(near, a, b, u, v) || (u == a && v == b) || (u == b && v == a);
    }
  }

  // Joining the two sides of a near pair.
  lemma JoinPair(roots: seq<nat>, near: Nearness, a: nat, b: nat)
    requires Tracks(roots, near, a, b) && a < b < |roots| && Near(near, a, b) && roots[a] != roots[b]
    ensures Tracks(Merged(roots, roots[a], roots[b]), near, a, b + 1)
  {
    var n, next, merged := |roots|, b + 1, Merged(roots, roots[a], roots[b]);
    forall u, v | 0 <= u < n && 0 <= v < n && merged[u] == merged[v] ensures Joined(near, n, a, next, u, v) {
      LinkJoins(roots, near, a, b, u, v);
    }
    forall u, v | 0 <= u < n && 0 <= v < n && Edge(near, a, next, u, v) ensures merged[u] == merged[v] {
      assert Edge(near, a, b, u, v) || (u == a && v == b) || (u == b && v == a);
    }
  }

  lemma LinkJoins(roots: seq<nat>, near: Nearness, a: nat, b: nat, u: nat, v: nat)
    requires Tracks(roots, near, a, b) && a < b < |roots| && Near(near, a, b) && u < |roots| && v < |roots|
    requires
      || roots[u] == roots[v]
      || (roots[u] == roots[a] && roots[b] == roots[v])
      || (roots[u] == roots[b] && roots[a] == roots[v])
    ensures Joined(near, |roots|, a, b + 1, u, v)
  {
    var n := |roots|;
    if roots[u] == roots[v] {
      JoinedGrows(near, n, a, b, a, b + 1, u, v);
    } else if roots[u] == roots[a] && roots[b] == roots[v] {
      JoinedAcross(near, n, a, b, u, a, b, v);
    } else {
      JoinedAcross(near, n, a, b, u, b, a, v);
    }
  }

  lemma JoinedAcross(near: Nearness, n: nat, a: nat, b: nat, u: nat, x: nat, y: nat, v: nat)
    requires Joined(near, n, a, b, u, x) && Joined(near, n, a, b, y, v) && x < n && y < n
    requires Edge(near, a, b + 1, x, y)
    ensures Joined(near, n, a, b + 1, u, v)
  {
    JoinedGrows(near, n, a, b, a, b + 1, u, x);
    JoinedGrows(near, n, a, b, a, b + 1, y, v);
    JoinedEdge(near, n, a, b + 1, x, y);
    JoinedTrans(near, n, a, b + 1, u, x, y);
    JoinedTrans(near, n, a, b + 1, u, y, v);
  }

  // The row `a` is finished; row `a + 1` starts with its first later index.
  lemma NextRow(roots: seq<nat>, near: Nearness, a: nat)
    requires Tracks(roots, near, a, |roots|)
    ensures Tracks(roots, near, a + 1, a + 2)
  {
    var n, c, d := |roots|, a + 1, a + 2;
    forall u, v | 0 <= u < n && 0 <= v < n && roots[u] == roots[v] ensures Joined(near, n, c, d, u, v) {
      JoinedGrows(near, n, a, n, c, d, u, v);
    }
    forall u, v | 0 <= u < n && 0 <= v < n && Edge(near, c, d, u, v) ensures roots[u] == roots[v] {
      assert Edge(near, a, n, u, v);
    }
  }

  // What the array stands for during the loops.
  ghost predicate State(p: seq<nat>, f: Shape) {
    Represents(p, f.h, f.top, f.roots)
  }

  // The ghost part of a union-find structure.
  datatype Shape = Shape(h: seq<nat>, top: nat, roots: seq<nat>)

  // One pair: if near, the trees of both sides are joined.
  method UnionPair(parent: array<nat>, near: Nearness, a: nat, b: nat, ghost f: Shape) returns (ghost g: Shape)
    requires State(parent[..], f) && Tracks(f.roots, near, a, b) && a < b < parent.Length
    modifies parent
    ensures State(parent[..], g) && Tracks(g.roots, near, a, b + 1)
  {
    g := f;
    if !Near(near, a, b) {
      PassPair(f.roots, near, a, b);
      return;
    }
    var r := Find(parent, a, f.h, f.top, f.roots);
    var s := Find(parent, b, f.h, f.top, f.roots);
    if r != s {
      JoinPair(f.roots, near, a, b);
      LinkRepresents(parent[..], f.h, f.top, f.roots, r, s);
      g := Shape(Raised(f.h, r, s), f.top + 1, Merged(f.roots, r, s));
      ghost var p := parent[..];
      parent[s] := r;
      assert parent[..] == p[s := r];
    } else {
      PassPair(f.roots, near, a, b);
    }
  }

  /** Roots are equal exactly within connected components of the near relation. */
  ghost predicate Components(roots: seq<nat>, near: Nearness) {
    && RootMap(roots)
    && forall u, v {:trigger Connected(near, |roots|, u, v)} | 0 <= u < |roots| && 0 <= v < |roots| ::
         Connected(near, |roots|, u, v) <==> roots[u] == roots[v]
  }

  // Every item is its own root at first.
  ghost function Singles(p: seq<nat>): (f: Shape)
    requires forall i | 0 <= i < |p| :: p[i] == i
    ensures State(p, f) && f.roots == p
  {
    var h: seq<nat> := seq(|p|, k => 0);
    AllRoots(p, h, 0, p, |p|);
    Shape(h, 0, p)
  }

  // The whole double loop.
  method UnionAll(parent: array<nat>, near: Nearness) returns (ghost f: Shape)
    requires forall i | 0 <= i < parent.Length :: parent[i] == i
    modifies parent
    ensures State(parent[..], f) && Components(f.roots, near)
  {
    var n := parent.Length;
    f := Singles(parent[..]);
    StartTracks(f.roots, near);
    for i := 0 to n
      invariant State(parent[..], f) && Tracks(f.roots, near, i, i + 1)
    {
      f := UnionRow(parent, near, i, f);
    }
    TracksAll(f.roots, near);
  }

  method UnionRow(parent: array<nat>, near: Nearness, i: nat, ghost f: Shape) returns (ghost g: Shape)
    requires i < parent.Length && State(parent[..], f) && Tracks(f.roots, near, i, i + 1)
    modifies parent
    ensures State(parent[..], g) && Tracks(g.roots, near, i + 1, i + 2)
  {
    g := f;
    for j := i + 1 to parent.Length
      invariant State(parent[..], g) && Tracks(g.roots, near, i, j)
    {
      g := UnionPair(parent, near, i, j, g);
    }
    NextRow(g.roots, near, i);
  }

  lemma StartTracks(roots: seq<nat>, near: Nearness)
    requires forall i | 0 <= i < |roots| :: roots[i] == i
    ensures Tracks(roots, near, 0, 1)
  {
    forall u, v | 0 <= u < |roots| && 0 <= v < |roots| && roots[u] == roots[v] ensures Joined(near, |roots|, 0, 1, u, v) {
      JoinedRefl(near, |roots|, 0, 1, u);
    }
  }

  lemma TracksAll(roots: seq<nat>, near: Nearness)
    requires Tracks(roots, near, |roots|, |roots| + 1)
    ensures Components(roots, near)
  {
    var n := |roots|;
    forall u, v | 0 <= u < n && 0 <= v < n ensures roots[u] == roots[v] <==> Connected(near, n, u, v) {
      RootsAreComponents(roots, near, n, n + 1, u, v);
    }
  }

  // ----- grouping fragments -----

  // The members below `m` of the component of `u`, in ascending order.
  ghost function MembersBelow(near: Nearness, n: nat, u: nat, m: nat): seq<nat> {
    if m == 0 then []
    else MembersBelow(near, n, u, m - 1) + (if Connected(near, n, u, m - 1) then [m - 1] else [])
  }

  // The indices below `m` with the root `r`.
  ghost function UnderRoot(roots: seq<nat>, r: nat, m: nat): seq<nat>
    requires m <= |roots|
  {
    if m == 0 then [] else UnderRoot(roots, r, m - 1) + (if roots[m - 1] == r then [m - 1] else [])
  }

  lemma {:induction false} UnderRootIsComponent(roots: seq<nat>, near: Nearness, r: nat, m: nat)
    requires Components(roots, near) && r < |roots| && roots[r] == r && m <= |roots|
    ensures UnderRoot(roots, r, m) == MembersBelow(near, |roots|, r, m)
  {
    if m > 0 {
      UnderRootIsComponent(roots, near, r, m - 1);
      assert Connected(near, |roots|, r, m - 1) <==> roots[m - 1] == r;
    }
  }

  // The groups after the indices below `m`.
  ghost predicate Grouped(roots: seq<nat>, groups: map<nat, seq<nat>>, m: nat)
    requires m <= |roots|
  {
    && (forall r <- groups :: r < |roots| && roots[r] == r && groups[r] == UnderRoot(roots, r, m))
    && (forall u | 0 <= u < m :: roots[u] in groups)
    && (forall r | 0 <= r < |roots| && r !in groups :: UnderRoot(roots, r, m) == [])
  }

  lemma GroupNext(roots: seq<nat>, groups: map<nat, seq<nat>>, m: nat)
    requires RootMap(roots) && m < |roots| && Grouped(roots, groups, m)
    ensures var r := roots[m]; Grouped(roots, groups[r := (if r in groups then groups[r] else []) + [m]], m + 1)
  {
  }

  // Some group is `u`'s component.
  ghost predicate Covered(groups: map<nat, seq<nat>>, near: Nearness, n: nat, u: nat) {
    exists r :: r in groups && Connected(near, n, r, u)
  }

  /** One group per component, holding exactly its members in ascending order. */
  ghost predicate GroupsComponents(groups: map<nat, seq<nat>>, near: Nearness, n: nat) {
    && (forall r <- groups :: r < n && groups[r] == MembersBelow(near, n, r, n))
    && (forall u | 0 <= u < n :: Covered(groups, near, n, u))
    && forall r, s {:trigger Connected(near, n, r, s)} | r in groups && s in groups && Connected(near, n, r, s) :: r == s
  }

  lemma GroupsAreComponents(roots: seq<nat>, groups: map<nat, seq<nat>>, near: Nearness)
    requires Components(roots, near) && Grouped(roots, groups, |roots|)
    ensures GroupsComponents(groups, near, |roots|)
  {
    forall r | r in groups ensures groups[r] == MembersBelow(near, |roots|, r, |roots|) {
      UnderRootIsComponent(roots, near, r, |roots|);
    }
    forall u | 0 <= u < |roots| ensures Covered(groups, near, |roots|, u) {
      assert roots[u] in groups && Connected(near, |roots|, roots[u], u);
    }
  }

  method Group(n: nat, near: Nearness) returns (groups: map<nat, seq<nat>>)
    ensures GroupsComponents(groups, near, n)
  {
    var parent := new nat[n](i => i);
    ghost var f := UnionAll(parent, near);
    groups := GroupByRoot(parent, f);
    GroupsAreComponents(f.roots, groups, near);
  }

  method GroupByRoot(parent: array<nat>, ghost f: Shape) returns (groups: map<nat, seq<nat>>)
    requires State(parent[..], f) && RootMap(f.roots)
    modifies parent
    ensures Grouped(f.roots, groups, |f.roots|)
  {
    groups := map[];
    for i := 0 to parent.Length
      invariant State(parent[..], f) && Grouped(f.roots, groups, i)
    {
      groups := AddToGroup(parent, groups, i, f);
    }
  }

  method AddToGroup(parent: array<nat>, before: map<nat, seq<nat>>, i: nat, ghost f: Shape)
    returns (groups: map<nat, seq<nat>>)
    requires State(parent[..], f) && RootMap(f.roots) && i < parent.Length && Grouped(f.roots, before, i)
    modifies parent
    ensures State(parent[..], f) && Grouped(f.roots, groups, i + 1)
  {
    GroupNext(f.roots, before, i);
    var r := Find(parent, i, f.h, f.top, f.roots);
    groups := before[r := (if r in before then before[r] else []) + [i]];
  }

  // ----- filtering short components -----

  // The total length of `u`'s component among the indices below `m`.
  ghost function LengthBelow(near: Nearness, lengths: seq<real>, u: nat, m: nat): real
    requires m <= |lengths|
  {
    if m == 0 then 0.0
    else
      LengthBelow(near, lengths, u, m - 1)
        + (if Connected(near, |lengths|, u, m - 1) then lengths[m - 1] else 0.0)
  }

  /** Item `i` survives when its whole component is long enough. */
  ghost predicate Survives(near: Nearness, lengths: seq<real>, minimum: real, i: nat)
    requires i < |lengths|
  {
    LengthBelow(near, lengths, i, |lengths|) + 0.0000001 >= minimum
  }

  // The survivors below `m` in their order.
  ghost function Survivors<T>(items: seq<T>, near: Nearness, lengths: seq<real>, minimum: real, m: nat): seq<T>
    requires m <= |items| == |lengths|
  {
    if m == 0 then []
    else
      Survivors(items, near, lengths, minimum, m - 1)
        + (if Survives(near, lengths, minimum, m - 1) then [items[m - 1]] else [])
  }

  // The total length under the root `r`.
  ghost function LengthUnder(roots: seq<nat>, lengths: seq<real>, r: nat, m: nat): real
    requires m <= |roots| == |lengths|
  {
    if m == 0 then 0.0
    else LengthUnder(roots, lengths, r, m - 1) + (if roots[m - 1] == r then lengths[m - 1] else 0.0)
  }

  lemma {:induction false} LengthUnderIsComponent(
    roots: seq<nat>, near: Nearness, lengths: seq<real>, u: nat, m: nat)
    requires Components(roots, near) && |lengths| == |roots| && u < |roots| && m <= |roots|
    ensures LengthUnder(roots, lengths, roots[u], m) == LengthBelow(near, lengths, u, m)
  {
    if m > 0 {
      LengthUnderIsComponent(roots, near, lengths, u, m - 1);
      assert Connected(near, |roots|, u, m - 1) <==> roots[u] == roots[m - 1];
    }
  }

  // The items below `m` whose tree is long enough.
  ghost function LongTrees<T>(items: seq<T>, roots: seq<nat>, lengths: seq<real>, minimum: real, m: nat): seq<T>
    requires m <= |items| == |lengths| == |roots|
  {
    if m == 0 then []
    else
      LongTrees(items, roots, lengths, minimum, m - 1)
        + (if LengthUnder(roots, lengths, roots[m - 1], |roots|) + 0.0000001 >= minimum then [items[m - 1]] else [])
  }

  lemma {:induction false} LongTreesSurvive<T>(
    items: seq<T>, roots: seq<nat>, near: Nearness, lengths: seq<real>, minimum: real, m: nat)
    requires Components(roots, near) && m <= |items| == |lengths| == |roots|
    ensures LongTrees(items, roots, lengths, minimum, m) == Survivors(items, near, lengths, minimum, m)
  {
    if m > 0 {
      LongTreesSurvive(items, roots, near, lengths, minimum, m - 1);
      LengthUnderIsComponent(roots, near, lengths, m - 1, |roots|);
    }
  }

  // The sums after the indices below `m`.
  ghost predicate Summed(roots: seq<nat>, sums: map<nat, real>, lengths: seq<real>, m: nat)
    requires m <= |roots| == |lengths|
  {
    && (forall r <- sums :: sums[r] == LengthUnder(roots, lengths, r, m))
    && (forall u | 0 <= u < m :: roots[u] in sums)
    && (forall r: nat | r !in sums :: LengthUnder(roots, lengths, r, m) == 0.0)
  }

  lemma SumNext(roots: seq<nat>, sums: map<nat, real>, lengths: seq<real>, m: nat)
    requires m < |roots| == |lengths| && Summed(roots, sums, lengths, m)
    ensures var r := roots[m];
      Summed(roots, sums[r := (if r in sums then sums[r] else 0.0) + lengths[m]], lengths, m + 1)
  {
  }

  method SumLengths(parent: array<nat>, lengths: seq<real>, ghost f: Shape) returns (sums: map<nat, real>)
    requires State(parent[..], f) && |lengths| == parent.Length
    modifies parent
    ensures State(parent[..], f) && Summed(f.roots, sums, lengths, |lengths|)
  {
    sums := map[];
    for i := 0 to parent.Length
      invariant State(parent[..], f) && Summed(f.roots, sums, lengths, i)
    {
      SumNext(f.roots, sums, lengths, i);
      var r := Find(parent, i, f.h, f.top, f.roots);
      sums := sums[r := (if r in sums then sums[r] else 0.0) + lengths[i]];
    }
  }

  method KeepLong<T>(parent: array<nat>, items: seq<T>, lengths: seq<real>, sums: map<nat, real>, minimum: real,
                     ghost f: Shape) returns (kept: seq<T>)
    requires State(parent[..], f) && |items| == |lengths| == parent.Length
    requires Summed(f.roots, sums, lengths, |lengths|)
    modifies parent
    ensures kept == LongTrees(items, f.roots, lengths, minimum, |items|)
  {
    kept := [];
    for i := 0 to |items|
      invariant State(parent[..], f) && kept == LongTrees(items, f.roots, lengths, minimum, i)
    {
      var r := Find(parent, i, f.h, f.top, f.roots);
      if sums[r] + 0.0000001 >= minimum {
        kept := kept + [items[i]];
      }
    }
  }

  /** Keeps, in order, exactly the items whose connected component is long enough. */
  method FilterShort<T>(items: seq<T>, lengths: seq<real>, near: Nearness, minimum: real) returns (kept: seq<T>)
    requires |lengths| == |items|
    ensures kept == Survivors(items, near, lengths, minimum, |items|)
  {
    var parent := new nat[|items|](i => i);
    ghost var f := UnionAll(parent, near);
    var sums := SumLengths(parent, lengths, f);
    kept := KeepLong(parent, items, lengths, sums, minimum, f);
    LongTreesSurvive(items, f.roots, near, lengths, minimum, |items|);
  }
}
