/** The distance a train still has to run along its route to a corridor entry.  Positions
    count segments: 2.25 is a quarter into the segment with index 2.  Exact arithmetic, so
    the source's small epsilons are zero here. */
module ArcDistance {
  import opened Basics

  // ----- arc length -----

  // The length of the first `k` segments.
  function Prefix(lens: seq<real>, k: nat): real
    requires k <= |lens|
  {
    if k == 0 then 0.0 else Prefix(lens, k - 1) + lens[k - 1]
  }

  /** The length of the route from its start to position `x`. */
  function Arc(lens: seq<real>, x: real): real
    requires 0.0 <= x <= |lens| as real
  {
    var k := x.Floor;
    if k == |lens| then Prefix(lens, k) else Prefix(lens, k) + Part(x - k as real, lens[k])
  }

  // The length of a fraction of a segment.
  function Part(fraction: real, length: real): real {
    fraction * length
  }

  lemma PartEnds(length: real)
    ensures Part(0.0, length) == 0.0 && Part(1.0, length) == length
  {
  }

  lemma ArcInSegment(lens: seq<real>, k: nat, x: real)
    requires k < |lens| && k as real <= x <= k as real + 1.0
    ensures Arc(lens, x) == Prefix(lens, k) + Part(x - k as real, lens[k])
  {
    if x == k as real + 1.0 {
      assert x.Floor == k + 1;
      PartEnds(lens[k]);
      if k + 1 < |lens| {
        PartEnds(lens[k + 1]);
      }
    } else {
      assert x.Floor == k;
    }
  }

  /** The true distance from `x` to `e`, where `e` counts on past the wrap point. */
  function RunTo(lens: seq<real>, forward: bool, x: real, e: real): real
    requires 0.0 <= x <= |lens| as real
    requires if forward then x <= e <= x + |lens| as real else x - |lens| as real <= e <= x
  {
    var n := |lens| as real;
    if forward then
      if e <= n then Arc(lens, e) - Arc(lens, x) else Arc(lens, n) - Arc(lens, x) + Arc(lens, e - n)
    else
      if e >= 0.0 then Arc(lens, x) - Arc(lens, e) else Arc(lens, x) + Arc(lens, n) - Arc(lens, e + n)
  }

  function EndOf(forward: bool, x: real, delta: real): real {
    if forward then x + delta else x - delta
  }

  /** The true distance when running `delta` segments on from `x`. */
  function Run(lens: seq<real>, forward: bool, x: real, delta: real): real
    requires 0.0 <= x <= |lens| as real && 0.0 <= delta <= |lens| as real
  {
    RunTo(lens, forward, x, EndOf(forward, x, delta))
  }

  /** How many segments lie between `current` and `entry` in the direction of travel;
      None when the entry is behind on a line that is no loop. */
  function Ahead(n: nat, forward: bool, loop: bool, current: real, entry: real): (d: Option<real>)
    requires 0.0 <= current <= n as real && 0.0 <= entry <= n as real
    ensures d.Some? ==> 0.0 <= d.value <= n as real
  {
    var delta := if forward then entry - current else current - entry;
    if delta >= 0.0 then Some(delta) else if loop then Some(delta + n as real) else None
  }

  /** Starting exactly on the wrap point while the entry lies beyond it. */
  predicate StartsOnWrap(n: nat, forward: bool, x: real, delta: real) {
    delta > 0.0 && x == if forward then n as real else 0.0
  }

  // ----- one step of the loop -----

  lemma ArcStep(lens: seq<real>, k: nat, x: real, step: real)
    requires k < |lens| && k as real <= x && 0.0 <= step && x + step <= k as real + 1.0
    ensures Arc(lens, x + step) == Arc(lens, x) + step * lens[k]
  {
    ArcInSegment(lens, k, x);
    ArcInSegment(lens, k, x + step);
    PartsAdd(x + step - k as real, x - k as real, step, lens[k]);
  }

  lemma Spread(b: real, s: real, c: real)
    ensures (b + s) * c == b * c + s * c
  {
  }

  lemma PartsAdd(a: real, b: real, s: real, c: real)
    requires a == b + s
    ensures Part(a, c) == Part(b, c) + s * c
  {
    Spread(b, s, c);
  }

  // A step inside one segment takes that much off the way.
  lemma StepTakes(lens: seq<real>, forward: bool, k: nat, x: real, e: real, step: real)
    requires k < |lens| && 0.0 <= step
    requires forward ==> k as real <= x && x + step <= k as real + 1.0 && x + step <= e <= x + |lens| as real
    requires !forward ==> x <= k as real + 1.0 && k as real <= x - step && x - |lens| as real <= e <= x - step
    requires forward ==> x < |lens| as real
    requires !forward ==> 0.0 < x
    ensures RunTo(lens, forward, x, e) == step * lens[k] + RunTo(lens, forward, EndOf(forward, x, step), e)
  {
    if forward {
      ArcStep(lens, k, x, step);
    } else {
      ArcStep(lens, k, x - step, step);
    }
  }

  // Crossing the wrap point does not change what is left to run.
  lemma Wrap(lens: seq<real>, delta: real)
    requires 0.0 < delta <= |lens| as real
    ensures Run(lens, true, |lens| as real, delta) == Run(lens, true, 0.0, delta)
    ensures Run(lens, false, 0.0, delta) == Run(lens, false, |lens| as real, delta)
  {
  }

  function Least(x: real, y: real): real {
    if x <= y then x else y
  }

  // The rounds the loop still needs: the segment borders ahead.
  function Rounds(forward: bool, x: real, delta: real): int {
    var fraction := x - x.Floor as real;
    if forward then -((-(fraction + delta)).Floor)
    else -((-(delta + 1.0 - (if fraction > 0.0 then fraction else 1.0))).Floor)
  }

  lemma RoundsDrop(forward: bool, x: real, delta: real, step: real, next: real)
    requires next.Floor as real == next && step < delta
    requires forward ==> step == 1.0 - (x - x.Floor as real)
    requires !forward ==> step == if x - x.Floor as real > 0.0 then x - x.Floor as real else 1.0
    ensures Rounds(forward, next, delta - step) == Rounds(forward, x, delta) - 1
    ensures Rounds(forward, x, delta) > 0
  {
    var fraction := x - x.Floor as real;
    if forward {
      var rest := -(fraction + delta);
      assert -(delta - step) == rest + 1.0;
      assert (rest + 1.0).Floor == rest.Floor + 1;
    } else {
      var rest := -(delta + 1.0 - step);
      assert -(delta - step) == rest + 1.0;
      assert (rest + 1.0).Floor == rest.Floor + 1;
    }
  }

  /** What the loop measures.  Off the wrap point it is the true distance; from the wrap
      point the first step is charged to the wrong segment and then lost from the way. */
  function Measured(lens: seq<real>, forward: bool, x: real, delta: real): real
    requires |lens| > 0 && 0.0 <= x <= |lens| as real && 0.0 <= delta <= |lens| as real
  {
    if !StartsOnWrap(|lens|, forward, x, delta) then Run(lens, forward, x, delta)
    else
      var step := Least(delta, 1.0);
      if forward then step * lens[|lens| - 1] + Run(lens, true, 0.0, delta - step)
      else step * lens[0] + Run(lens, false, |lens| as real, delta - step)
  }

  // What the loop makes of a clamped position.
  function LoopDistance(lens: seq<real>, forward: bool, loop: bool, current: real, entry: real): Option<real>
    requires lens != [] && 0.0 <= current <= |lens| as real && 0.0 <= entry <= |lens| as real
  {
    var delta := Ahead(|lens|, forward, loop, current, entry);
    if delta.None? then None else Some(Measured(lens, forward, current, delta.value))
  }

  /** The distance to the entry, as the loop computes it. */
  method DistanceToEntry(lens: seq<real>, forward: bool, loop: bool, routePosition: real, entry: real)
    returns (distance: Option<real>)
    requires 0.0 <= entry <= |lens| as real
    ensures lens == [] ==> distance == None
    ensures lens != [] ==>
      distance == LoopDistance(lens, forward, loop, MaxReal(0.0, Least(|lens| as real, routePosition)), entry)
  {
    if lens == [] {
      return None;
    }
    var maximum := |lens| as real;
    var current := MaxReal(0.0, Least(maximum, routePosition));
    var delta := if forward then entry - current else current - entry;
    if delta < 0.0 && loop {
      delta := delta + maximum;
    }
    if delta < 0.0 {
      return None;
    }
    var result := Walk(lens, forward, current, delta);
    return Some(result);
  }

  // The loop itself.
  method Walk(lens: seq<real>, forward: bool, current: real, distance: real) returns (result: real)
    requires lens != [] && 0.0 <= current <= |lens| as real && 0.0 <= distance <= |lens| as real
    ensures result == Measured(lens, forward, current, distance)
  {
    var maximum := |lens| as real;
    var position, delta := current, distance;
    result := 0.0;
    ghost var first := true;
    while delta > 0.0
      invariant 0.0 <= delta <= maximum && (delta > 0.0 ==> 0.0 <= position <= maximum)
      invariant first ==> position == current && delta == distance && result == 0.0
      invariant !first && delta > 0.0 ==>
        !StartsOnWrap(|lens|, forward, position, delta)
        && result + Run(lens, forward, position, delta) == Measured(lens, forward, current, distance)
      invariant !first && delta == 0.0 ==> result == Measured(lens, forward, current, distance)
      decreases if delta > 0.0 then Rounds(forward, position, delta) else -1
    {
      ghost var x, left := position, delta;
      var index, step := Segment(lens, forward, position, delta);
      result := result + step * lens[index];
      delta := delta - step;
      position := if forward then position + step else position - step;
      if position >= maximum && delta > 0.0 {
        position := 0.0;
      }
      if position <= 0.0 && delta > 0.0 && !forward {
        position := maximum;
      }
      StepIsRight(lens, forward, x, left, index, step);
      first := false;
    }
  }

  // The segment the next step runs on, and how far it goes.
  method Segment(lens: seq<real>, forward: bool, position: real, delta: real) returns (index: nat, step: real)
    requires lens != [] && 0.0 <= position <= |lens| as real && 0.0 < delta
    ensures (index, step) == Charged(lens, forward, position, delta)
  {
    index := if position.Floor <= |lens| - 1 then position.Floor else |lens| - 1;
    var fraction := position - position.Floor as real;
    if !forward && fraction <= 0.0 && position > 0.0 {
      index := position.Floor - 1;
      fraction := 1.0;
    }
    step := Least(delta, if forward then 1.0 - fraction else if fraction > 0.0 then fraction else 1.0);
  }

  // Which segment a step from `x` is charged to.
  function Charged(lens: seq<real>, forward: bool, x: real, delta: real): (nat, real)
    requires lens != [] && 0.0 <= x <= |lens| as real
  {
    var fraction := x - x.Floor as real;
    if forward then (if x.Floor < |lens| then x.Floor else |lens| - 1, Least(delta, 1.0 - fraction))
    else if fraction > 0.0 then (x.Floor, Least(delta, fraction))
    else if x > 0.0 then (x.Floor - 1, Least(delta, 1.0))
    else (0, Least(delta, 1.0))
  }

  // Where the loop stands after a step, wrapping included.
  function Landed(n: nat, forward: bool, x: real, delta: real, step: real): real {
    var y := if forward then x + step else x - step;
    var z := if y >= n as real && delta - step > 0.0 then 0.0 else y;
    if z <= 0.0 && delta - step > 0.0 && !forward then n as real else z
  }

  // A step ends inside its segment, on the border unless it is the last.
  lemma ChargedStays(lens: seq<real>, forward: bool, x: real, delta: real, index: nat, step: real)
    requires lens != [] && 0.0 <= x <= |lens| as real && 0.0 < delta <= |lens| as real
    requires (index, step) == Charged(lens, forward, x, delta)
    ensures index < |lens| && 0.0 < step <= delta
    ensures !StartsOnWrap(|lens|, forward, x, delta) ==>
      if forward then index as real <= x && x + step <= index as real + 1.0
      else x <= index as real + 1.0 && index as real <= x - step
    ensures step < delta ==>
      step == if forward then 1.0 - (x - x.Floor as real)
              else if x - x.Floor as real > 0.0 then x - x.Floor as real else 1.0
  {
  }

  // After a step that is not the last the loop stands on a border, never on the wrap
  // point, and has one round less to go.
  lemma LandsOnBorder(lens: seq<real>, forward: bool, x: real, delta: real, index: nat, step: real)
    requires lens != [] && 0.0 <= x <= |lens| as real && 0.0 < delta <= |lens| as real
    requires (index, step) == Charged(lens, forward, x, delta) && step < delta
    ensures var y := Landed(|lens|, forward, x, delta, step);
      && 0.0 <= y <= |lens| as real && !StartsOnWrap(|lens|, forward, y, delta - step)
      && Rounds(forward, y, delta - step) < Rounds(forward, x, delta)
  {
    ChargedStays(lens, forward, x, delta, index, step);
    var y := Landed(|lens|, forward, x, delta, step);
    assert y.Floor as real == y by {
      if forward {
        assert (x + step) == x.Floor as real + 1.0;
        assert (x + step).Floor == x.Floor + 1;
      }
    }
    RoundsDrop(forward, x, delta, step, y);
  }

  lemma StepIsRight(lens: seq<real>, forward: bool, x: real, delta: real, index: nat, step: real)
    requires lens != [] && 0.0 <= x <= |lens| as real && 0.0 < delta <= |lens| as real
    requires (index, step) == Charged(lens, forward, x, delta)
    ensures index < |lens| && 0.0 < step <= delta
    ensures step < delta ==>
      var y := Landed(|lens|, forward, x, delta, step);
      && 0.0 <= y <= |lens| as real && !StartsOnWrap(|lens|, forward, y, delta - step)
      && Rounds(forward, y, delta - step) < Rounds(forward, x, delta)
      && step * lens[index] + Run(lens, forward, y, delta - step) == Measured(lens, forward, x, delta)
    ensures step == delta ==> step * lens[index] == Measured(lens, forward, x, delta)
  {
    ChargedStays(lens, forward, x, delta, index, step);
    if step < delta {
      LandsOnBorder(lens, forward, x, delta, index, step);
    }
    if StartsOnWrap(|lens|, forward, x, delta) {
      FirstStepOnWrap(lens, forward, x, delta, index, step);
    } else {
      StepValue(lens, forward, x, delta, index, step);
    }
  }

  lemma FirstStepOnWrap(lens: seq<real>, forward: bool, x: real, delta: real, index: nat, step: real)
    requires lens != [] && 0.0 <= x <= |lens| as real && 0.0 < delta <= |lens| as real
    requires (index, step) == Charged(lens, forward, x, delta) && StartsOnWrap(|lens|, forward, x, delta)
    ensures index == if forward then |lens| - 1 else 0
    ensures step == Least(delta, 1.0)
    ensures step < delta ==> Landed(|lens|, forward, x, delta, step) == if forward then 0.0 else |lens| as real
    ensures step == delta ==> Run(lens, forward, if forward then 0.0 else |lens| as real, delta - step) == 0.0
  {
  }

  lemma StepValue(lens: seq<real>, forward: bool, x: real, delta: real, index: nat, step: real)
    requires lens != [] && 0.0 <= x <= |lens| as real && 0.0 < delta <= |lens| as real && 0.0 < step <= delta
    requires index < |lens| && !StartsOnWrap(|lens|, forward, x, delta)
    requires if forward then index as real <= x && x + step <= index as real + 1.0
             else x <= index as real + 1.0 && index as real <= x - step
    ensures step < delta ==>
      var y := Landed(|lens|, forward, x, delta, step);
      0.0 <= y <= |lens| as real && step * lens[index] + Run(lens, forward, y, delta - step) == Run(lens, forward, x, delta)
    ensures step == delta ==> step * lens[index] == Run(lens, forward, x, delta)
  {
    var e, z := EndOf(forward, x, delta), EndOf(forward, x, step);
    StepTakes(lens, forward, index, x, e, step);
    SameEnd(forward, x, delta, step);
    if step < delta {
      Wrap(lens, delta - step);
      assert RunTo(lens, forward, z, e) == Run(lens, forward, z, delta - step);
    }
  }

  lemma SameEnd(forward: bool, x: real, delta: real, step: real)
    ensures EndOf(forward, EndOf(forward, x, step), delta - step) == EndOf(forward, x, delta)
  {
  }

  // ----- when the loop is right -----

  // The loop measures the true distance whatever the segment lengths are.
  ghost predicate AlwaysRight(n: nat, forward: bool, x: real, delta: real)
    requires n > 0 && 0.0 <= x <= n as real && 0.0 <= delta <= n as real
  {
    forall lens: seq<real> | |lens| == n :: Measured(lens, forward, x, delta) == Run(lens, forward, x, delta)
  }

  // One segment has length one, all others have none.
  function OnlyOne(n: nat, k: nat): seq<real> {
    seq(n, i => if i == k then 1.0 else 0.0)
  }

  lemma {:induction false} PrefixOfOne(n: nat, k: nat, m: nat)
    requires k < n && m <= n
    ensures Prefix(OnlyOne(n, k), m) == if k < m then 1.0 else 0.0
  {
    if m > 0 {
      PrefixOfOne(n, k, m - 1);
    }
  }

  lemma ArcOfOne(n: nat, k: nat, x: real)
    requires k < n && 0.0 <= x <= n as real
    ensures Arc(OnlyOne(n, k), x)
         == if x <= k as real then 0.0 else if x >= k as real + 1.0 then 1.0 else x - k as real
  {
    PrefixOfOne(n, k, x.Floor);
  }

  lemma WrongFromWrap(n: nat, forward: bool, delta: real)
    requires n >= 2 && 0.0 < delta < n as real
    ensures var x := if forward then n as real else 0.0; var lens := OnlyOne(n, if forward then n - 1 else 0);
      Measured(lens, forward, x, delta) != Run(lens, forward, x, delta)
  {
    var k := if forward then n - 1 else 0;
    var step := Least(delta, 1.0);
    ArcOfOne(n, k, 0.0);
    ArcOfOne(n, k, n as real);
    if forward {
      ArcOfOne(n, k, delta);
      ArcOfOne(n, k, delta - step);
    } else {
      ArcOfOne(n, k, n as real - delta);
      ArcOfOne(n, k, n as real - (delta - step));
    }
  }

  lemma RightFromWrap(lens: seq<real>, forward: bool, delta: real)
    requires |lens| > 0 && 0.0 < delta <= |lens| as real && (|lens| == 1 || delta == |lens| as real)
    ensures var x := if forward then |lens| as real else 0.0;
      Measured(lens, forward, x, delta) == Run(lens, forward, x, delta)
  {
    if |lens| == 1 {
      RightOnOneSegment(lens, forward, delta);
    } else {
      RightFullRound(lens, forward);
    }
  }

  lemma RightOnOneSegment(lens: seq<real>, forward: bool, delta: real)
    requires |lens| == 1 && 0.0 < delta <= 1.0
    ensures var x := if forward then 1.0 else 0.0; Measured(lens, forward, x, delta) == Run(lens, forward, x, delta)
  {
    ArcInSegment(lens, 0, 0.0);
    ArcInSegment(lens, 0, delta);
    ArcInSegment(lens, 0, 1.0 - delta);
    ArcInSegment(lens, 0, 1.0);
    PartsAdd(1.0, 1.0 - delta, delta, lens[0]);
  }

  lemma RightFullRound(lens: seq<real>, forward: bool)
    requires |lens| >= 2
    ensures var n := |lens| as real; var x := if forward then n else 0.0;
      Measured(lens, forward, x, n) == Run(lens, forward, x, n)
  {
    var n := |lens|;
    ArcInSegment(lens, n - 1, n as real);
    ArcInSegment(lens, n - 1, n as real - 1.0);
    ArcInSegment(lens, 0, 1.0);
    ArcInSegment(lens, 0, 0.0);
  }

  /** Exactly when the loop can be trusted: unless it starts on the wrap point of a route
      with several segments and stops short of a full round. */
  lemma RightIff(n: nat, forward: bool, x: real, delta: real)
    requires n > 0 && 0.0 <= x <= n as real && 0.0 <= delta <= n as real
    ensures AlwaysRight(n, forward, x, delta) <==>
      !StartsOnWrap(n, forward, x, delta) || n == 1 || delta == n as real
  {
    if StartsOnWrap(n, forward, x, delta) {
      if n == 1 || delta == n as real {
        forall lens: seq<real> | |lens| == n ensures Measured(lens, forward, x, delta) == Run(lens, forward, x, delta) {
          RightFromWrap(lens, forward, delta);
        }
      } else {
        WrongFromWrap(n, forward, delta);
        assert |OnlyOne(n, if forward then n - 1 else 0)| == n;
      }
    }
  }

  // ----- sampling density -----

  /** The true distance between two positions. */
  function TrueDistance(lens: seq<real>, forward: bool, loop: bool, current: real, entry: real): Option<real>
    requires 0.0 <= current <= |lens| as real && 0.0 <= entry <= |lens| as real
  {
    var delta := Ahead(|lens|, forward, loop, current, entry);
    if delta.None? then None else Some(Run(lens, forward, current, delta.value))
  }

  // In terms of arc lengths from the start of the route.
  lemma TrueDistanceByArcs(lens: seq<real>, forward: bool, loop: bool, current: real, entry: real)
    requires 0.0 <= current <= |lens| as real && 0.0 <= entry <= |lens| as real
    ensures var total := Arc(lens, |lens| as real); var way := Arc(lens, entry) - Arc(lens, current);
      TrueDistance(lens, forward, loop, current, entry)
      == if forward then (if current <= entry then Some(way) else if loop then Some(way + total) else None)
         else (if entry <= current then Some(-way) else if loop then Some(total - way) else None)
  {
    assert Arc(lens, 0.0) == 0.0;
  }

  /** What the loop computes, in lengths from the start of the route: what lies between the two
      positions, the rest of a closed route when the entry is behind, and nothing when it is
      behind on an open one; unless it starts on the wrap point and has to cross it. */
  lemma LoopByArcs(lens: seq<real>, forward: bool, loop: bool, current: real, entry: real)
    requires lens != [] && 0.0 <= current <= |lens| as real && 0.0 <= entry <= |lens| as real
    requires if forward then current < |lens| as real else current > 0.0
    ensures var total := Arc(lens, |lens| as real); var way := Arc(lens, entry) - Arc(lens, current);
      LoopDistance(lens, forward, loop, current, entry)
      == if forward then (if current <= entry then Some(way) else if loop then Some(way + total) else None)
         else (if entry <= current then Some(-way) else if loop then Some(total - way) else None)
  {
    TrueDistanceByArcs(lens, forward, loop, current, entry);
    var delta := Ahead(|lens|, forward, loop, current, entry);
    if delta.Some? {
      RightIff(|lens|, forward, current, delta.value);
      assert Measured(lens, forward, current, delta.value) == Run(lens, forward, current, delta.value);
    }
  }

  /** Segment `k` cut in two pieces of lengths `p` and `q`. */
  function Pieces(lens: seq<real>, k: nat, p: real, q: real): seq<real>
    requires k < |lens|
  {
    lens[..k] + [p, q] + lens[k + 1..]
  }

  /** Segment `k` cut in two at the fraction `t`. */
  function Cut(lens: seq<real>, k: nat, t: real): seq<real>
    requires k < |lens|
  {
    Pieces(lens, k, t * lens[k], (1.0 - t) * lens[k])
  }

  // The quotient by a positive number, known by its product.
  function Quotient(a: real, t: real): (u: real)
    requires t > 0.0
    ensures u * t == a
  {
    a / t
  }

  lemma TimesKeepsOrder(u: real, v: real, t: real)
    requires t > 0.0 && u < v
    ensures u * t < v * t
  {
  }

  lemma QuotientIs(u: real, t: real, a: real)
    requires t > 0.0 && u * t == a
    ensures Quotient(a, t) == u
  {
    var q := Quotient(a, t);
    if q < u {
      TimesKeepsOrder(q, u, t);
    } else if u < q {
      TimesKeepsOrder(u, q, t);
    }
  }

  lemma QuotientKeepsOrder(a: real, b: real, t: real)
    requires t > 0.0 && a < b
    ensures Quotient(a, t) < Quotient(b, t)
  {
    var u, v := Quotient(a, t), Quotient(b, t);
    if v < u {
      TimesKeepsOrder(v, u, t);
    }
  }

  lemma QuotientEnds(t: real)
    requires t > 0.0
    ensures Quotient(0.0, t) == 0.0 && Quotient(t, t) == 1.0
  {
    QuotientIs(0.0, t, 0.0);
    QuotientIs(1.0, t, t);
  }

  // Where a position inside the cut segment lies after the cut.
  function Offset(t: real, a: real): real
    requires 0.0 < t < 1.0
  {
    if a <= t then Quotient(a, t) else 1.0 + Quotient(a - t, 1.0 - t)
  }

  // Where a position lies after the cut.
  function Moved(k: nat, t: real, x: real): real
    requires 0.0 < t < 1.0
  {
    if x <= k as real then x
    else if x <= k as real + 1.0 then k as real + Offset(t, x - k as real)
    else x + 1.0
  }

  lemma OffsetKeepsOrder(t: real, a: real, b: real)
    requires 0.0 < t < 1.0 && a < b
    ensures Offset(t, a) < Offset(t, b)
  {
    QuotientEnds(t);
    QuotientEnds(1.0 - t);
    if b <= t {
      QuotientKeepsOrder(a, b, t);
    } else if a > t {
      QuotientKeepsOrder(a - t, b - t, 1.0 - t);
    } else {
      QuotientKeepsOrder(0.0, b - t, 1.0 - t);
      if a < t {
        QuotientKeepsOrder(a, t, t);
      }
    }
  }

  lemma OffsetEnds(t: real)
    requires 0.0 < t < 1.0
    ensures Offset(t, 0.0) == 0.0 && Offset(t, 1.0) == 2.0
  {
    QuotientEnds(t);
    QuotientEnds(1.0 - t);
  }

  lemma {:induction false} PiecesPrefix(lens: seq<real>, k: nat, p: real, q: real, j: nat)
    requires k < |lens| && j <= |lens| + 1 && p + q == lens[k]
    ensures j <= k ==> Prefix(Pieces(lens, k, p, q), j) == Prefix(lens, j)
    ensures j == k + 1 ==> Prefix(Pieces(lens, k, p, q), j) == Prefix(lens, k) + p
    ensures j >= k + 2 ==> Prefix(Pieces(lens, k, p, q), j) == Prefix(lens, j - 1)
  {
    if j > 0 {
      PiecesPrefix(lens, k, p, q, j - 1);
    }
  }

  lemma SameProduct(a: real, b: real, c: real, d: real)
    requires a == b && c == d
    ensures a * c == b * d
  {
  }

  lemma ArcAt(lens: seq<real>, k: nat, u: real)
    requires k < |lens| && 0.0 <= u <= 1.0
    ensures Arc(lens, k as real + u) == Prefix(lens, k) + Part(u, lens[k])
  {
    ArcInSegment(lens, k, k as real + u);
    assert k as real + u - k as real == u;
  }

  lemma InFirstPiece(lens: seq<real>, k: nat, p: real, q: real, u: real, a: real)
    requires k < |lens| && p + q == lens[k] && 0.0 <= u <= 1.0 && 0.0 <= a <= 1.0
    requires Part(u, p) == Part(a, lens[k])
    ensures Arc(Pieces(lens, k, p, q), k as real + u) == Arc(lens, k as real + a)
  {
    PiecesPrefix(lens, k, p, q, k);
    ArcAt(Pieces(lens, k, p, q), k, u);
    ArcAt(lens, k, a);
  }

  lemma InSecondPiece(lens: seq<real>, k: nat, p: real, q: real, u: real, a: real)
    requires k < |lens| && p + q == lens[k] && 0.0 <= u <= 1.0 && 0.0 <= a <= 1.0
    requires p + Part(u, q) == Part(a, lens[k])
    ensures Arc(Pieces(lens, k, p, q), (k + 1) as real + u) == Arc(lens, k as real + a)
  {
    PiecesPrefix(lens, k, p, q, k + 1);
    ArcAt(Pieces(lens, k, p, q), k + 1, u);
    ArcAt(lens, k, a);
  }

  lemma BeforePieces(lens: seq<real>, k: nat, p: real, q: real, x: real)
    requires k < |lens| && p + q == lens[k] && 0.0 <= x <= k as real
    ensures Arc(Pieces(lens, k, p, q), x) == Arc(lens, x)
  {
    var j := x.Floor;
    PiecesPrefix(lens, k, p, q, j);
    if j < k {
      assert Pieces(lens, k, p, q)[j] == lens[j];
    } else {
      assert x - k as real == 0.0;
    }
  }

  lemma AfterPieces(lens: seq<real>, k: nat, p: real, q: real, x: real)
    requires k < |lens| && p + q == lens[k] && k as real + 1.0 < x <= |lens| as real
    ensures Arc(Pieces(lens, k, p, q), x + 1.0) == Arc(lens, x)
  {
    var j := x.Floor;
    assert (x + 1.0).Floor == j + 1;
    PiecesPrefix(lens, k, p, q, j + 1);
    if j < |lens| {
      assert Pieces(lens, k, p, q)[j + 1] == lens[j];
      assert x + 1.0 - (j + 1) as real == x - j as real;
    }
  }

  // The products behind the two pieces of a cut.
  lemma Regroup(u: real, t: real, c: real)
    ensures u * (t * c) == u * t * c
  {
  }

  lemma CutProducts(t: real, c: real, u: real, v: real, a: real, b: real)
    requires a == u * t && b == t + v * (1.0 - t)
    ensures t * c + (1.0 - t) * c == c
    ensures Part(u, t * c) == Part(a, c)
    ensures t * c + Part(v, (1.0 - t) * c) == Part(b, c)
  {
    Regroup(u, t, c);
    Regroup(v, 1.0 - t, c);
    SameProduct(a, u * t, c, c);
    Spread(t, v * (1.0 - t), c);
    Spread(1.0 - t, t, c);
  }

  lemma OffsetInside(t: real, a: real)
    requires 0.0 < t < 1.0 && 0.0 <= a <= 1.0
    ensures 0.0 <= Offset(t, a) <= 2.0
    ensures a <= t ==> Offset(t, a) <= 1.0
    ensures a > t ==> Offset(t, a) >= 1.0
  {
    OffsetEnds(t);
    QuotientEnds(t);
    if 0.0 < a {
      OffsetKeepsOrder(t, 0.0, a);
    }
    if a < 1.0 {
      OffsetKeepsOrder(t, a, 1.0);
    }
    if a < t {
      OffsetKeepsOrder(t, a, t);
    } else if t < a {
      OffsetKeepsOrder(t, t, a);
    }
  }

  lemma ArcInFore(lens: seq<real>, k: nat, p: real, q: real, t: real, a: real, u: real)
    requires k < |lens| && 0.0 <= a <= 1.0 && 0.0 <= u <= 1.0 && u * t == a
    requires p == t * lens[k] && p + q == lens[k]
    ensures Arc(Pieces(lens, k, p, q), k as real + u) == Arc(lens, k as real + a)
  {
    CutProducts(t, lens[k], u, 0.0, a, t);
    InFirstPiece(lens, k, p, q, u, a);
  }

  lemma ArcInRest(lens: seq<real>, k: nat, p: real, q: real, t: real, a: real, v: real)
    requires k < |lens| && 0.0 <= a <= 1.0 && 0.0 <= v <= 1.0 && a == t + v * (1.0 - t)
    requires p == t * lens[k] && q == (1.0 - t) * lens[k] && p + q == lens[k]
    ensures Arc(Pieces(lens, k, p, q), (k + 1) as real + v) == Arc(lens, k as real + a)
  {
    CutProducts(t, lens[k], 0.0, v, 0.0, a);
    InSecondPiece(lens, k, p, q, v, a);
  }

  lemma ArcInsideCut(lens: seq<real>, k: nat, t: real, a: real)
    requires k < |lens| && 0.0 < t < 1.0 && 0.0 <= a <= 1.0
    requires 0.0 <= Offset(t, a) <= 2.0 && (a <= t ==> Offset(t, a) <= 1.0) && (a > t ==> Offset(t, a) >= 1.0)
    requires t * lens[k] + (1.0 - t) * lens[k] == lens[k]
    ensures Arc(Cut(lens, k, t), k as real + Offset(t, a)) == Arc(lens, k as real + a)
  {
    var p, q := t * lens[k], (1.0 - t) * lens[k];
    if a <= t {
      ArcInFore(lens, k, p, q, t, a, Quotient(a, t));
    } else {
      var v := Quotient(a - t, 1.0 - t);
      ArcInRest(lens, k, p, q, t, a, v);
      assert k as real + Offset(t, a) == (k + 1) as real + v;
    }
  }

  lemma ArcAfterCut(lens: seq<real>, k: nat, t: real, x: real)
    requires k < |lens| && 0.0 < t < 1.0 && 0.0 <= x <= |lens| as real
    ensures 0.0 <= Moved(k, t, x) <= |lens| as real + 1.0
    ensures Arc(Cut(lens, k, t), Moved(k, t, x)) == Arc(lens, x)
  {
    var a, p, q := x - k as real, t * lens[k], (1.0 - t) * lens[k];
    CutProducts(t, lens[k], 0.0, 0.0, 0.0, t);
    assert k as real + a == x && k as real + 1.0 <= |lens| as real;
    if x <= k as real {
      BeforePieces(lens, k, p, q, x);
    } else if x <= k as real + 1.0 {
      OffsetInside(t, a);
      ArcInsideCut(lens, k, t, a);
      assert Moved(k, t, x) == k as real + Offset(t, a);
    } else {
      AfterPieces(lens, k, p, q, x);
    }
  }

  lemma MovedKeepsOrder(k: nat, t: real, x: real, y: real)
    requires 0.0 < t < 1.0 && x < y
    ensures Moved(k, t, x) < Moved(k, t, y)
  {
    OffsetEnds(t);
    var a, b := x - k as real, y - k as real;
    var low, high := if a <= 0.0 then 0.0 else a, if b >= 1.0 then 1.0 else b;
    if low < high {
      OffsetKeepsOrder(t, low, high);
    }
  }

  // The way from `current` to `entry` does not start on the wrap point.
  predicate OffWrap(n: nat, forward: bool, loop: bool, current: real, entry: real)
    requires 0.0 <= current <= n as real && 0.0 <= entry <= n as real
  {
    var delta := Ahead(n, forward, loop, current, entry);
    delta.Some? ==> !StartsOnWrap(n, forward, current, delta.value)
  }

  /** Cutting a segment in two changes nothing that the loop measures, as long as it does
      not start on the wrap point, and then it does not start there after the cut either:
      the sampling density does not matter. */
  lemma DensityDoesNotMatter(
    lens: seq<real>, k: nat, t: real, forward: bool, loop: bool, current: real, entry: real)
    requires k < |lens| && 0.0 < t < 1.0 && 0.0 <= current <= |lens| as real && 0.0 <= entry <= |lens| as real
    requires OffWrap(|lens|, forward, loop, current, entry)
    ensures 0.0 <= Moved(k, t, current) <= |lens| as real + 1.0 && 0.0 <= Moved(k, t, entry) <= |lens| as real + 1.0
    ensures OffWrap(|lens| + 1, forward, loop, Moved(k, t, current), Moved(k, t, entry))
    ensures LoopDistance(Cut(lens, k, t), forward, loop, Moved(k, t, current), Moved(k, t, entry))
         == LoopDistance(lens, forward, loop, current, entry)
  {
    CutChangesNoDistance(lens, k, t, forward, loop, current, entry);
    CutKeepsOffWrap(|lens|, k, t, forward, loop, current, entry);
  }

  lemma CutKeepsOffWrap(n: nat, k: nat, t: real, forward: bool, loop: bool, current: real, entry: real)
    requires k < n && 0.0 < t < 1.0 && 0.0 <= current <= n as real && 0.0 <= entry <= n as real
    requires 0.0 <= Moved(k, t, current) <= n as real + 1.0 && 0.0 <= Moved(k, t, entry) <= n as real + 1.0
    requires OffWrap(n, forward, loop, current, entry)
    ensures OffWrap(n + 1, forward, loop, Moved(k, t, current), Moved(k, t, entry))
  {
    EndMoves(n, k, t);
    assert Moved(k, t, 0.0) == 0.0;
    if current < n as real {
      MovedKeepsOrder(k, t, current, n as real);
    }
    if 0.0 < current {
      MovedKeepsOrder(k, t, 0.0, current);
    }
    if current < entry {
      MovedKeepsOrder(k, t, current, entry);
    } else if entry < current {
      MovedKeepsOrder(k, t, entry, current);
    }
  }

  /** Cutting a segment in two changes no true distance. */
  lemma CutChangesNoDistance(
    lens: seq<real>, k: nat, t: real, forward: bool, loop: bool, current: real, entry: real)
    requires k < |lens| && 0.0 < t < 1.0 && 0.0 <= current <= |lens| as real && 0.0 <= entry <= |lens| as real
    ensures 0.0 <= Moved(k, t, current) <= |lens| as real + 1.0 && 0.0 <= Moved(k, t, entry) <= |lens| as real + 1.0
    ensures TrueDistance(Cut(lens, k, t), forward, loop, Moved(k, t, current), Moved(k, t, entry))
         == TrueDistance(lens, forward, loop, current, entry)
  {
    ArcAfterCut(lens, k, t, current);
    ArcAfterCut(lens, k, t, entry);
    ArcAfterCut(lens, k, t, |lens| as real);
    TrueDistanceByArcs(lens, forward, loop, current, entry);
    TrueDistanceByArcs(Cut(lens, k, t), forward, loop, Moved(k, t, current), Moved(k, t, entry));
    if current < entry {
      MovedKeepsOrder(k, t, current, entry);
    } else if entry < current {
      MovedKeepsOrder(k, t, entry, current);
    }
    EndMoves(|lens|, k, t);
  }

  lemma EndMoves(n: nat, k: nat, t: real)
    requires k < n && 0.0 < t < 1.0
    ensures Moved(k, t, n as real) == n as real + 1.0
  {
    OffsetEnds(t);
    if k == n - 1 {
      assert n as real - k as real == 1.0;
    }
  }
}
