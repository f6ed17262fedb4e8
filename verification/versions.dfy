/** An abstraction of the external `goversion` library's Version: a release
    number such as 1.16.2 is its sequence of numeric segments. Versions are
    compared segment by segment, a missing segment counting as 0, so 1.16
    and 1.16.0 are equivalent without being the same value. `GreaterThan`
    is therefore a strict weak order, which is exactly what the selection
    scan needs. */
module Versions {

  datatype Version = Version(segments: seq<nat>)

  datatype Ordering = Lt | Eq | Gt

  /** Segment `i` of `v`, or 0 past its end. */
  function Segment(v: Version, i: nat): nat {
    if i < |v.segments| then v.segments[i] else 0
  }

  function Width(a: Version, b: Version): nat {
    if |a.segments| < |b.segments| then |b.segments| else |a.segments|
  }

  /** Compares `a` and `b` from segment `i` on. */
  function CompareFrom(a: Version, b: Version, i: nat): Ordering
    decreases Width(a, b) - i
  {
    if i >= Width(a, b) then Eq
    else if Segment(a, i) < Segment(b, i) then Lt
    else if Segment(a, i) > Segment(b, i) then Gt
    else CompareFrom(a, b, i + 1)
  }

  function Compare(a: Version, b: Version): Ordering {
    CompareFrom(a, b, 0)
  }

  /** `a` exceeds `b` at segment `k`, the two agreeing before it. */
  predicate ExceedsAt(a: Version, b: Version, k: nat) {
    Segment(a, k) > Segment(b, k) && forall j: nat :: j < k ==> Segment(a, j) == Segment(b, j)
  }

  /** The library's `a.GreaterThan(b)`: the first segment where the two
      differ is larger in `a`. */
  function GreaterThan(a: Version, b: Version): (r: bool)
    ensures r <==> exists k: nat :: ExceedsAt(a, b, k)
  {
    GreaterThanExceeds(a, b);
    Compare(a, b) == Gt
  }

  lemma GreaterThanExceeds(a: Version, b: Version)
    ensures Compare(a, b) == Gt <==> exists k: nat :: ExceedsAt(a, b, k)
  {
    CompareFromGt(a, b, 0);
    if Compare(a, b) == Gt {
      var k: nat :| Segment(a, k) > Segment(b, k) && forall j: nat :: 0 <= j < k ==> Segment(a, j) == Segment(b, j);
      assert ExceedsAt(a, b, k);
    } else {
      forall k: nat ensures !ExceedsAt(a, b, k) {
        if ExceedsAt(a, b, k) {
          assert 0 <= k && forall j: nat :: 0 <= j < k ==> Segment(a, j) == Segment(b, j);
          assert false;
        }
      }
    }
  }

  /** From segment `i` on, `Gt` means a first difference at or after `i`
      that is larger in `a`. */
  lemma {:induction false} CompareFromGt(a: Version, b: Version, i: nat)
    ensures CompareFrom(a, b, i) == Gt <==>
            exists k: nat :: i <= k && Segment(a, k) > Segment(b, k)
                             && forall j: nat :: i <= j < k ==> Segment(a, j) == Segment(b, j)
    decreases Width(a, b) - i
  {
    if i >= Width(a, b) {
      forall k: nat | i <= k ensures Segment(a, k) == 0 && Segment(b, k) == 0 {
      }
    } else if Segment(a, i) == Segment(b, i) {
      CompareFromGt(a, b, i + 1);
      if exists k: nat :: i <= k && Segment(a, k) > Segment(b, k)
                          && forall j: nat :: i <= j < k ==> Segment(a, j) == Segment(b, j) {
        var k: nat :| i <= k && Segment(a, k) > Segment(b, k)
                      && forall j: nat :: i <= j < k ==> Segment(a, j) == Segment(b, j);
        assert i + 1 <= k;
      }
    }
  }

  /** `a` and `b` agree on every segment once padded with zeros. */
  ghost predicate Equivalent(a: Version, b: Version) {
    forall i: nat :: Segment(a, i) == Segment(b, i)
  }

  function Flip(o: Ordering): Ordering {
    match o
    case Lt => Gt
    case Eq => Eq
    case Gt => Lt
  }

  /** Swapping the operands flips the outcome. */
  lemma {:induction false} CompareFromFlip(a: Version, b: Version, i: nat)
    ensures CompareFrom(b, a, i) == Flip(CompareFrom(a, b, i))
    decreases Width(a, b) - i
  {
    if i < Width(a, b) && Segment(a, i) == Segment(b, i) {
      CompareFromFlip(a, b, i + 1);
    }
  }

  /** From segment `i` on, `Eq` means the padded tails agree. */
  lemma {:induction false} CompareFromEq(a: Version, b: Version, i: nat)
    ensures CompareFrom(a, b, i) == Eq <==> forall j: nat :: i <= j ==> Segment(a, j) == Segment(b, j)
    decreases Width(a, b) - i
  {
    if i < Width(a, b) {
      CompareFromEq(a, b, i + 1);
      if CompareFrom(a, b, i) == Eq {
        forall j: nat | i <= j ensures Segment(a, j) == Segment(b, j) {
          if j > i {
            assert i + 1 <= j;
          }
        }
      }
    } else {
      forall j: nat | i <= j ensures Segment(a, j) == Segment(b, j) {
        assert Segment(a, j) == 0 && Segment(b, j) == 0;
      }
    }
  }

  /** The weak-order transitivity of comparing from a segment on: a chain
      that never goes down never goes down overall, and strictly up
      anywhere means strictly up overall. */
  lemma {:induction false} CompareFromChain(a: Version, b: Version, c: Version, i: nat)
    ensures CompareFrom(a, b, i) != Gt && CompareFrom(b, c, i) != Gt ==> CompareFrom(a, c, i) != Gt
    ensures CompareFrom(a, b, i) == Gt && CompareFrom(b, c, i) != Lt ==> CompareFrom(a, c, i) == Gt
    ensures CompareFrom(a, b, i) != Lt && CompareFrom(b, c, i) == Gt ==> CompareFrom(a, c, i) == Gt
    decreases Width(a, b) + Width(b, c) - i
  {
    if i < Width(a, b) || i < Width(b, c) {
      if Segment(a, i) == Segment(b, i) && Segment(b, i) == Segment(c, i) {
        CompareFromChain(a, b, c, i + 1);
        StepWhenEqual(a, b, i);
        StepWhenEqual(b, c, i);
        StepWhenEqual(a, c, i);
      } else {
        StepWhenDiffer(a, b, i);
        StepWhenDiffer(b, c, i);
        StepWhenDiffer(a, c, i);
      }
    }
  }

  lemma StepWhenEqual(a: Version, b: Version, i: nat)
    requires Segment(a, i) == Segment(b, i)
    ensures CompareFrom(a, b, i) == CompareFrom(a, b, i + 1)
  {
    if i >= Width(a, b) {
      CompareFromEq(a, b, i);
      CompareFromEq(a, b, i + 1);
    }
  }

  lemma StepWhenDiffer(a: Version, b: Version, i: nat)
    ensures Segment(a, i) < Segment(b, i) ==> CompareFrom(a, b, i) == Lt
    ensures Segment(a, i) > Segment(b, i) ==> CompareFrom(a, b, i) == Gt
  {
  }

  /** Exactly one of `a > b`, `b > a` and "equivalent" holds, and
      equivalence is agreement on every zero-padded segment. */
  lemma Trichotomy(a: Version, b: Version)
    ensures GreaterThan(a, b) || GreaterThan(b, a) || Compare(a, b) == Eq
    ensures !(GreaterThan(a, b) && GreaterThan(b, a))
    ensures Compare(a, b) == Eq <==> Equivalent(a, b)
  {
    CompareFromFlip(a, b, 0);
    CompareFromEq(a, b, 0);
  }

  lemma Irreflexive(a: Version)
    ensures !GreaterThan(a, a)
  {
    CompareFromEq(a, a, 0);
  }

  /** `GreaterThan` is a strict weak order: asymmetric, transitive, and
      "not greater" is transitive too. */
  lemma StrictWeakOrder(a: Version, b: Version, c: Version)
    ensures GreaterThan(a, b) ==> !GreaterThan(b, a)
    ensures GreaterThan(a, b) && GreaterThan(b, c) ==> GreaterThan(a, c)
    ensures !GreaterThan(a, b) && !GreaterThan(b, c) ==> !GreaterThan(a, c)
  {
    CompareFromFlip(a, b, 0);
    CompareFromChain(a, b, c, 0);
    CompareFromChain(c, b, a, 0);
    CompareFromFlip(a, c, 0);
    CompareFromFlip(b, c, 0);
  }
}
