/** Definitions shared by several components: an optional value, maxima, and the
    lexicographic order that `std::string` comparison gives train ids. */
module Basics {

  datatype Option<+T> = None | Some(value: T)

  function Max(a: nat, b: nat): nat {
    if a < b then b else a
  }

  function MaxReal(a: real, b: real): real {
    if a < b then b else a
  }

  function MinReal(a: real, b: real): real {
    if a < b then a else b
  }

  /** The strict lexicographic order on strings. */
  predicate StringLess(a: string, b: string) {
    if b == [] then false
    else if a == [] then true
    else a[0] < b[0] || (a[0] == b[0] && StringLess(a[1..], b[1..]))
  }

  lemma {:induction false} StringLessIrreflexive(a: string)
    ensures !StringLess(a, a)
  {
    if a != [] {
      StringLessIrreflexive(a[1..]);
    }
  }

  lemma {:induction false} StringLessTrichotomy(a: string, b: string)
    ensures StringLess(a, b) || a == b || StringLess(b, a)
  {
    if a != [] && b != [] && a[0] == b[0] {
      StringLessTrichotomy(a[1..], b[1..]);
      if a[1..] == b[1..] {
        assert a == [a[0]] + a[1..];
        assert b == [b[0]] + b[1..];
      }
    }
  }

  // They agree up to `i`, where `a` ends or has the smaller character.
  predicate SmallerAt(a: string, b: string, i: nat) {
    && i <= |a| && i < |b| && a[..i] == b[..i]
    && (i == |a| || a[i] < b[i])
  }

  /** Character by character: the first difference decides. */
  lemma {:induction false} StringLessIff(a: string, b: string)
    ensures StringLess(a, b) <==> exists i: nat :: SmallerAt(a, b, i)
  {
    if b == [] {
    } else if a == [] {
      assert SmallerAt(a, b, 0);
    } else if a[0] != b[0] {
      assert SmallerAt(a, b, 0) <==> a[0] < b[0];
      assert forall i: nat | SmallerAt(a, b, i) && i > 0 :: a[..i][0] == b[..i][0];
    } else {
      StringLessIff(a[1..], b[1..]);
      TailsDecide(a, b);
    }
  }

  lemma TailsDecide(a: string, b: string)
    requires a != [] && b != [] && a[0] == b[0]
    ensures (exists i: nat :: SmallerAt(a, b, i)) <==> exists i: nat :: SmallerAt(a[1..], b[1..], i)
  {
    var p, q := a[1..], b[1..];
    if i: nat :| SmallerAt(a, b, i) {
      assert i > 0 && p[..i - 1] == a[..i][1..] && q[..i - 1] == b[..i][1..];
      assert SmallerAt(p, q, i - 1);
    }
    if i: nat :| SmallerAt(p, q, i) {
      assert a[..i + 1] == [a[0]] + p[..i] && b[..i + 1] == [b[0]] + q[..i];
      assert SmallerAt(a, b, i + 1);
    }
  }

  lemma {:induction false} StringLessTransitive(a: string, b: string, c: string)
    requires StringLess(a, b) && StringLess(b, c)
    ensures StringLess(a, c)
  {
    if a != [] && a[0] == b[0] == c[0] {
      StringLessTransitive(a[1..], b[1..], c[1..]);
    }
  }
}
