/** The line analyzer's grid index: it only hands nearby segment pairs to the exact tests,
    and never loses one.  Coordinates are reals. */
module GridIndex {
  import opened Basics

  datatype Point = Point(x: real, y: real, z: real)

  function Lower(p: real, q: real): real {
    if p <= q then p else q
  }

  function Upper(p: real, q: real): real {
    if p <= q then q else p
  }

  /** The horizontal boxes of segments `i` of `a` and `j` of `b` are within `tolerance`. */
  predicate SegmentBoundsNear(a: seq<Point>, i: nat, b: seq<Point>, j: nat, tolerance: real)
    requires i + 1 < |a| && j + 1 < |b|
  {
    && Lower(a[i].x, a[i + 1].x) <= Upper(b[j].x, b[j + 1].x) + tolerance
    && Lower(b[j].x, b[j + 1].x) <= Upper(a[i].x, a[i + 1].x) + tolerance
    && Lower(a[i].z, a[i + 1].z) <= Upper(b[j].z, b[j + 1].z) + tolerance
    && Lower(b[j].z, b[j + 1].z) <= Upper(a[i].z, a[i + 1].z) + tolerance
  }

  // ----- cells and keys -----

  const UINT32 := 0x1_0000_0000

  function CellSize(tolerance: real): (size: real)
    ensures size > 0.0
  {
    Upper(32.0, tolerance * 4.0)
  }

  function Cell(size: real, value: real): int
    requires size > 0.0
  {
    (value / size).Floor
  }

  // The two cell numbers, each truncated to 32 bits; distinct cells may share a key.
  function GridKey(x: int, z: int): nat {
    (x % UINT32) * UINT32 + z % UINT32
  }

  function SegmentPairKey(i: nat, j: nat): nat {
    (i % UINT32) * UINT32 + j % UINT32
  }

  lemma CellMonotone(size: real, p: real, q: real)
    requires size > 0.0 && p <= q
    ensures Cell(size, p) <= Cell(size, q)
  {
    assert p / size <= q / size;
  }

  /** The rectangle of cells a segment covers, widened by `margin`. */
  datatype Cells = Cells(minX: int, maxX: int, minZ: int, maxZ: int)

  predicate Covers(c: Cells, x: int, z: int) {
    c.minX <= x <= c.maxX && c.minZ <= z <= c.maxZ
  }

  function CellsOf(size: real, s: seq<Point>, i: nat, margin: real): (c: Cells)
    requires size > 0.0 && i + 1 < |s| && margin >= 0.0
    ensures c.minX <= c.maxX && c.minZ <= c.maxZ
  {
    var p, q := s[i], s[i + 1];
    CellMonotone(size, Lower(p.x, q.x) - margin, Upper(p.x, q.x) + margin);
    CellMonotone(size, Lower(p.z, q.z) - margin, Upper(p.z, q.z) + margin);
    Cells(Cell(size, Lower(p.x, q.x) - margin), Cell(size, Upper(p.x, q.x) + margin),
          Cell(size, Lower(p.z, q.z) - margin), Cell(size, Upper(p.z, q.z) + margin))
  }

  /** Segments whose boxes are within tolerance share a cell. */
  lemma NearSegmentsShareCell(size: real, a: seq<Point>, i: nat, b: seq<Point>, j: nat, tolerance: real)
    returns (x: int, z: int)
    requires size > 0.0 && tolerance >= 0.0 && i + 1 < |a| && j + 1 < |b|
    requires SegmentBoundsNear(a, i, b, j, tolerance)
    ensures Covers(CellsOf(size, a, i, tolerance), x, z) && Covers(CellsOf(size, b, j, 0.0), x, z)
  {
    var ca, cb := CellsOf(size, a, i, tolerance), CellsOf(size, b, j, 0.0);
    CellMonotone(size, Lower(a[i].x, a[i + 1].x) - tolerance, Upper(b[j].x, b[j + 1].x));
    CellMonotone(size, Lower(b[j].x, b[j + 1].x), Upper(a[i].x, a[i + 1].x) + tolerance);
    CellMonotone(size, Lower(a[i].z, a[i + 1].z) - tolerance, Upper(b[j].z, b[j + 1].z));
    CellMonotone(size, Lower(b[j].z, b[j + 1].z), Upper(a[i].z, a[i + 1].z) + tolerance);
    x := if ca.minX <= cb.minX then cb.minX else ca.minX;
    z := if ca.minZ <= cb.minZ then cb.minZ else ca.minZ;
  }

  // ----- building the grid -----

  type Grid = map<nat, seq<nat>>

  predicate Stored(grid: Grid, key: nat, j: nat) {
    key in grid && j in grid[key]
  }

  predicate InRange(grid: Grid, n: nat) {
    forall k <- grid :: forall j <- grid[k] :: j < n
  }

  // Every segment before `n` is stored under every cell it covers.
  ghost predicate Indexed(grid: Grid, size: real, b: seq<Point>, n: nat)
    requires size > 0.0 && n < |b|
  {
    forall j, x, z | 0 <= j < n && Covers(CellsOf(size, b, j, 0.0), x, z) :: Stored(grid, GridKey(x, z), j)
  }

  ghost predicate Extends(grid: Grid, more: Grid) {
    forall k, j | Stored(grid, k, j) :: Stored(more, k, j)
  }

  method AddSegment(before: Grid, c: Cells, j: nat) returns (grid: Grid)
    requires c.minX <= c.maxX && c.minZ <= c.maxZ && InRange(before, j)
    ensures Extends(before, grid) && InRange(grid, j + 1)
    ensures forall x, z | Covers(c, x, z) :: Stored(grid, GridKey(x, z), j)
  {
    grid := before;
    for x := c.minX to c.maxX + 1
      invariant Extends(before, grid) && InRange(grid, j + 1)
      invariant forall p, q | Covers(c, p, q) && p < x :: Stored(grid, GridKey(p, q), j)
    {
      for z := c.minZ to c.maxZ + 1
        invariant Extends(before, grid) && InRange(grid, j + 1)
        invariant forall p, q | Covers(c, p, q) && (p < x || (p == x && q < z)) :: Stored(grid, GridKey(p, q), j)
      {
        var key := GridKey(x, z);
        ghost var was := grid;
        grid := grid[key := (if key in grid then grid[key] else []) + [j]];
        assert forall k, m | Stored(was, k, m) :: Stored(grid, k, m);
        assert Stored(grid, key, j);
      }
    }
  }

  method BuildGrid(size: real, b: seq<Point>) returns (grid: Grid)
    requires size > 0.0 && |b| >= 2
    ensures Indexed(grid, size, b, |b| - 1) && InRange(grid, |b| - 1)
  {
    grid := map[];
    for j := 0 to |b| - 1
      invariant Indexed(grid, size, b, j) && InRange(grid, j)
    {
      grid := AddSegment(grid, CellsOf(size, b, j, 0.0), j);
    }
  }

  // ----- looking candidates up -----

  predicate Ascending(s: seq<nat>) {
    forall i, j | 0 <= i < j < |s| :: s[i] < s[j]
  }

  // Sorts and removes duplicates.
  method SortedUnique(s: seq<nat>) returns (r: seq<nat>)
    ensures Ascending(r) && forall x :: x in r <==> x in s
  {
    r := [];
    for i := 0 to |s|
      invariant Ascending(r) && forall x :: x in r <==> x in s[..i]
    {
      assert s[..i + 1] == s[..i] + [s[i]];
      r := InsertUnique(r, s[i]);
    }
    assert s[..|s|] == s;
  }

  method InsertUnique(s: seq<nat>, v: nat) returns (r: seq<nat>)
    requires Ascending(s)
    ensures Ascending(r) && forall x :: x in r <==> x in s || x == v
  {
    var i := 0;
    while i < |s| && s[i] < v
      invariant i <= |s| && forall k | 0 <= k < i :: s[k] < v
    {
      i := i + 1;
    }
    if i < |s| && s[i] == v {
      return s;
    }
    r := s[..i] + [v] + s[i..];
    assert forall x :: x in s <==> x in s[..i] || x in s[i..] by {
      assert s == s[..i] + s[i..];
    }
  }

  method Collect(grid: Grid, c: Cells, ghost n: nat) returns (found: seq<nat>)
    requires c.minX <= c.maxX && c.minZ <= c.maxZ && InRange(grid, n)
    ensures forall j <- found :: j < n
    ensures forall x, z, j | Covers(c, x, z) && Stored(grid, GridKey(x, z), j) :: j in found
  {
    found := [];
    for x := c.minX to c.maxX + 1
      invariant forall j <- found :: j < n
      invariant forall p, q, j | Covers(c, p, q) && p < x && Stored(grid, GridKey(p, q), j) :: j in found
    {
      for z := c.minZ to c.maxZ + 1
        invariant forall j <- found :: j < n
        invariant forall p, q, j | Covers(c, p, q) && (p < x || (p == x && q < z))
                                   && Stored(grid, GridKey(p, q), j) :: j in found
      {
        var key := GridKey(x, z);
        if key in grid {
          found := found + grid[key];
        }
      }
    }
  }

  /** `row` is what the index returns for segment `i`: ascending, in range, and with
      every segment whose box is within tolerance. */
  ghost predicate RowComplete(a: seq<Point>, i: nat, b: seq<Point>, tolerance: real, row: seq<nat>)
    requires i + 1 < |a|
  {
    && Ascending(row) && (forall j <- row :: j + 1 < |b|)
    && forall j: nat | j + 1 < |b| && SegmentBoundsNear(a, i, b, j, tolerance) :: j in row
  }

  ghost predicate Complete(a: seq<Point>, b: seq<Point>, tolerance: real, rows: seq<seq<nat>>) {
    && |rows| + 1 == |a|
    && forall i | 0 <= i < |rows| :: RowComplete(a, i, b, tolerance, rows[i])
  }

  /** No pair is lost: every segment pair within tolerance is a candidate, whatever keys
      coincide after truncation. */
  method SpatialCandidates(a: seq<Point>, b: seq<Point>, tolerance: real) returns (result: seq<seq<nat>>)
    requires |a| >= 2 && |b| >= 2 && tolerance >= 0.0
    ensures Complete(a, b, tolerance, result)
  {
    var size := CellSize(tolerance);
    var grid := BuildGrid(size, b);
    result := [];
    for i := 0 to |a| - 1
      invariant |result| == i
      invariant forall k | 0 <= k < i :: RowComplete(a, k, b, tolerance, result[k])
    {
      var found := Collect(grid, CellsOf(size, a, i, tolerance), |b| - 1);
      var row := SortedUnique(found);
      forall j: nat | j + 1 < |b| && SegmentBoundsNear(a, i, b, j, tolerance) ensures j in row {
        var x, z := NearSegmentsShareCell(size, a, i, b, j, tolerance);
        assert Stored(grid, GridKey(x, z), j);
      }
      result := result + [row];
    }
  }

  // ----- passes over candidate pairs and over all pairs -----

  // Folding `f` over segment `i` paired with each of `js`.
  function OverRow<S>(f: (S, nat, nat) -> S, s: S, i: nat, js: seq<nat>): S {
    if js == [] then s else f(OverRow(f, s, i, js[..|js| - 1]), i, js[|js| - 1])
  }

  function OverRows<S>(f: (S, nat, nat) -> S, s: S, rows: seq<seq<nat>>): S {
    if rows == [] then s
    else OverRow(f, OverRows(f, s, rows[..|rows| - 1]), |rows| - 1, rows[|rows| - 1])
  }

  function UpTo(n: nat): seq<nat> {
    seq(n, k => k)
  }

  function AllPairs(m: nat, n: nat): seq<seq<nat>> {
    seq(m, k => UpTo(n))
  }

  // `f` does nothing on the pair.
  ghost predicate Skips<S(!new)>(f: (S, nat, nat) -> S, i: nat, j: nat) {
    forall s :: f(s, i, j) == s
  }

  lemma {:induction false} SparseRow<S(!new)>(f: (S, nat, nat) -> S, s: S, i: nat, js: seq<nat>, n: nat)
    requires Ascending(js) && forall k | 0 <= k < |js| :: js[k] < n
    requires forall j | 0 <= j < n && j !in js :: Skips(f, i, j)
    ensures OverRow(f, s, i, js) == OverRow(f, s, i, UpTo(n))
  {
    if n > 0 {
      assert UpTo(n)[..n - 1] == UpTo(n - 1);
      if js != [] && js[|js| - 1] == n - 1 {
        var front := js[..|js| - 1];
        forall j | 0 <= j < n - 1 && j !in front ensures Skips(f, i, j) {
          assert js == front + [n - 1];
        }
        SparseRow(f, s, i, front, n - 1);
      } else {
        SparseRow(f, s, i, js, n - 1);
        assert Skips(f, i, n - 1);
      }
    }
  }

  /** A pass that does nothing on pairs outside the candidates gives, in the same order,
      what the full double loop gives. */
  lemma {:induction false} SparseRows<S(!new)>(f: (S, nat, nat) -> S, s: S, rows: seq<seq<nat>>, n: nat)
    requires forall i | 0 <= i < |rows| :: Ascending(rows[i]) && forall j <- rows[i] :: j < n
    requires forall i, j | 0 <= i < |rows| && 0 <= j < n && j !in rows[i] :: Skips(f, i, j)
    ensures OverRows(f, s, rows) == OverRows(f, s, AllPairs(|rows|, n))
  {
    if rows != [] {
      var front := rows[..|rows| - 1];
      SparseRows(f, s, front, n);
      assert AllPairs(|rows|, n)[..|rows| - 1] == AllPairs(|front|, n);
      var last := rows[|front|];
      assert forall k | 0 <= k < |last| :: last[k] in last;
      SparseRow(f, OverRows(f, s, front), |front|, last, n);
    }
  }

  // ----- the two passes -----

  /** A pair of routes with the exact tests left abstract: what the first pass finds
      behind the bounds test, what the second finds behind it, and which new crossing
      counts as already known. */
  datatype Pair<!F, !X> = Pair(
    a: seq<Point>,
    b: seq<Point>,
    selfPair: bool,
    sharedTolerance: real,
    overlap: (nat, nat) -> Option<F>,
    crossing: (nat, nat) -> Option<X>,
    known: (seq<X>, X) -> bool)

  predicate WellSized<F, X>(p: Pair<F, X>) {
    |p.a| >= 2 && |p.b| >= 2
  }

  function Near<F, X>(p: Pair<F, X>, i: nat, j: nat, tolerance: real): bool {
    i + 1 < |p.a| && j + 1 < |p.b| && SegmentBoundsNear(p.a, i, p.b, j, tolerance)
  }

  // The fragment the first pass records for a pair, if any.
  function Fragment<F, X>(p: Pair<F, X>, i: nat, j: nat): Option<F> {
    if p.selfPair && j <= i then None
    else if !Near(p, i, j, p.sharedTolerance) then None
    else p.overlap(i, j)
  }

  function FirstStep<F, X>(p: Pair<F, X>): ((seq<F>, set<nat>), nat, nat) -> (seq<F>, set<nat>) {
    (s: (seq<F>, set<nat>), i: nat, j: nat) =>
      match Fragment(p, i, j)
      case None => s
      case Some(f) => (s.0 + [f], s.1 + {SegmentPairKey(i, j)})
  }

  // Pairs of one route with itself that share an end point.
  predicate Adjoining<F, X>(p: Pair<F, X>, i: nat, j: nat) {
    p.selfPair && (j <= i || j == i + 1 || (i == 0 && j + 2 == |p.b|))
  }

  // The crossing the second pass sees at a pair, if any.
  function Crossing<F, X>(p: Pair<F, X>, shared: set<nat>, i: nat, j: nat): Option<X> {
    if Adjoining(p, i, j) || SegmentPairKey(i, j) in shared || !Near(p, i, j, 0.0) then None
    else p.crossing(i, j)
  }

  predicate AlreadyKnown<F, X>(p: Pair<F, X>, found: seq<X>, x: X) {
    p.known(found, x)
  }

  function SecondStep<F, X>(p: Pair<F, X>, shared: set<nat>): (seq<X>, nat, nat) -> seq<X> {
    (s: seq<X>, i: nat, j: nat) =>
      match Crossing(p, shared, i, j)
      case None => s
      case Some(x) => if AlreadyKnown(p, s, x) then s else s + [x]
  }

  method FirstRow<F(!new), X>(p: Pair<F, X>, i: nat, row: seq<nat>, start: seq<F>, startShared: set<nat>)
    returns (fragments: seq<F>, shared: set<nat>)
    ensures (fragments, shared) == OverRow(FirstStep(p), (start, startShared), i, row)
  {
    fragments, shared := start, startShared;
    for k := 0 to |row|
      invariant (fragments, shared) == OverRow(FirstStep(p), (start, startShared), i, row[..k])
    {
      var j := row[k];
      assert row[..k + 1][..k] == row[..k];
      if p.selfPair && j <= i {
        continue;
      }
      if !Near(p, i, j, p.sharedTolerance) || p.overlap(i, j).None? {
        continue;
      }
      shared := shared + {SegmentPairKey(i, j)};
      fragments := fragments + [p.overlap(i, j).value];
    }
    assert row[..|row|] == row;
  }

  method FirstPass<F(!new), X>(p: Pair<F, X>, candidates: seq<seq<nat>>, ghost mergeTolerance: real)
    returns (fragments: seq<F>, shared: set<nat>)
    requires WellSized(p) && 0.0 <= p.sharedTolerance <= mergeTolerance
    requires Complete(p.a, p.b, mergeTolerance, candidates)
    ensures (fragments, shared) == OverRows(FirstStep(p), ([], {}), AllPairs(|p.a| - 1, |p.b| - 1))
  {
    fragments, shared := [], {};
    var step := FirstStep(p);
    for i := 0 to |p.a| - 1
      invariant (fragments, shared) == OverRows(step, ([], {}), candidates[..i])
    {
      ghost var before := (fragments, shared);
      assert before == OverRows(step, ([], {}), candidates[..i]);
      fragments, shared := FirstRow(p, i, candidates[i], fragments, shared);
      assert (fragments, shared) == OverRow(step, before, i, candidates[i]);
      assert candidates[..i + 1][..i] == candidates[..i];
    }
    assert candidates[..|p.a| - 1] == candidates;
    FirstPassSkips(p, candidates, mergeTolerance);
    SparseRows(step, ([], {}), candidates, |p.b| - 1);
  }

  lemma FirstPassSkips<F(!new), X>(p: Pair<F, X>, candidates: seq<seq<nat>>, mergeTolerance: real)
    requires WellSized(p) && 0.0 <= p.sharedTolerance <= mergeTolerance
    requires Complete(p.a, p.b, mergeTolerance, candidates)
    ensures forall i | 0 <= i < |candidates| :: Ascending(candidates[i]) && forall j <- candidates[i] :: j < |p.b| - 1
    ensures forall i, j | 0 <= i < |candidates| && 0 <= j < |p.b| - 1 && j !in candidates[i] :: Skips(FirstStep(p), i, j)
  {
    forall i, j | 0 <= i < |candidates| && 0 <= j < |p.b| - 1 && j !in candidates[i] ensures Skips(FirstStep(p), i, j) {
      assert RowComplete(p.a, i, p.b, mergeTolerance, candidates[i]);
      assert !Near(p, i, j, p.sharedTolerance) && Fragment(p, i, j).None?;
      forall s: (seq<F>, set<nat>) ensures FirstStep(p)(s, i, j) == s {
      }
    }
  }

  lemma SecondStepCases<F, X>(p: Pair<F, X>, shared: set<nat>, s: seq<X>, i: nat, j: nat)
    ensures var c := Crossing(p, shared, i, j);
      SecondStep(p, shared)(s, i, j) == if c.Some? && !AlreadyKnown(p, s, c.value) then s + [c.value] else s
  {
  }

  method SecondRow<F, X(!new)>(p: Pair<F, X>, i: nat, row: seq<nat>, shared: set<nat>, start: seq<X>)
    returns (crossings: seq<X>)
    ensures crossings == OverRow(SecondStep(p, shared), start, i, row)
  {
    crossings := start;
    for k := 0 to |row|
      invariant crossings == OverRow(SecondStep(p, shared), start, i, row[..k])
    {
      var j := row[k];
      assert row[..k + 1][..k] == row[..k];
      SecondStepCases(p, shared, crossings, i, j);
      if p.selfPair && (j <= i || j == i + 1 || (i == 0 && j + 2 == |p.b|)) {
        continue;
      }
      if SegmentPairKey(i, j) in shared || !Near(p, i, j, 0.0) || p.crossing(i, j).None? {
        continue;
      }
      var x := p.crossing(i, j).value;
      assert Crossing(p, shared, i, j) == Some(x);
      if !AlreadyKnown(p, crossings, x) {
        crossings := crossings + [x];
      }
    }
    assert row[..|row|] == row;
  }

  method SecondPass<F, X(!new)>(p: Pair<F, X>, candidates: seq<seq<nat>>, shared: set<nat>, ghost mergeTolerance: real)
    returns (crossings: seq<X>)
    requires WellSized(p) && 0.0 <= mergeTolerance && Complete(p.a, p.b, mergeTolerance, candidates)
    ensures crossings == OverRows(SecondStep(p, shared), [], AllPairs(|p.a| - 1, |p.b| - 1))
  {
    crossings := [];
    var step := SecondStep(p, shared);
    for i := 0 to |p.a| - 1
      invariant crossings == OverRows(step, [], candidates[..i])
    {
      crossings := SecondRow(p, i, candidates[i], shared, crossings);
      assert candidates[..i + 1][..i] == candidates[..i];
    }
    assert candidates[..|p.a| - 1] == candidates;
    SecondPassSkips(p, candidates, shared, mergeTolerance);
    SparseRows(step, [], candidates, |p.b| - 1);
  }

  lemma SecondPassSkips<F, X(!new)>(p: Pair<F, X>, candidates: seq<seq<nat>>, shared: set<nat>, mergeTolerance: real)
    requires WellSized(p) && 0.0 <= mergeTolerance && Complete(p.a, p.b, mergeTolerance, candidates)
    ensures forall i | 0 <= i < |candidates| :: Ascending(candidates[i]) && forall j <- candidates[i] :: j < |p.b| - 1
    ensures forall i, j | 0 <= i < |candidates| && 0 <= j < |p.b| - 1 && j !in candidates[i] ::
      Skips(SecondStep(p, shared), i, j)
  {
    forall i, j | 0 <= i < |candidates| && 0 <= j < |p.b| - 1 && j !in candidates[i]
      ensures Skips(SecondStep(p, shared), i, j)
    {
      assert RowComplete(p.a, i, p.b, mergeTolerance, candidates[i]);
      assert !Near(p, i, j, 0.0) && Crossing(p, shared, i, j).None?;
      forall s: seq<X> ensures SecondStep(p, shared)(s, i, j) == s {
      }
    }
  }

  // The fragments, and the keys of the pairs they lie on, of the full double loop.
  function Overlaps<F, X>(p: Pair<F, X>): (seq<F>, set<nat>)
    requires WellSized(p)
  {
    OverRows(FirstStep(p), ([], {}), AllPairs(|p.a| - 1, |p.b| - 1))
  }

  // The crossings of the full double loop off those pairs.
  function Crossings<F, X>(p: Pair<F, X>): seq<X>
    requires WellSized(p)
  {
    OverRows(SecondStep(p, Overlaps(p).1), [], AllPairs(|p.a| - 1, |p.b| - 1))
  }

  /** Both passes over the index find, in the same order, exactly what testing every
      segment pair would find. */
  method AnalyzePair<F(!new), X(!new)>(p: Pair<F, X>, mergeTolerance: real)
    returns (fragments: seq<F>, crossings: seq<X>)
    requires WellSized(p) && 0.0 <= p.sharedTolerance <= mergeTolerance
    ensures fragments == Overlaps(p).0 && crossings == Crossings(p)
  {
    var candidates := SpatialCandidates(p.a, p.b, mergeTolerance);
    var shared;
    fragments, shared := FirstPass(p, candidates, mergeTolerance);
    assert (fragments, shared) == Overlaps(p);
    crossings := SecondPass(p, candidates, shared, mergeTolerance);
  }
}
