/** The selection scan of the goversion_select handler: one pass over the
    versions that keeps the greatest one satisfying the constraint,
    replacing the kept one only by a strictly greater version. */
module Select {
  import opened Wrappers
  import opened Versions

  /** A parsed constraint, as the external library's `Check` sees it. */
  type Constraint = Version -> bool

  /** Index `k` holds a satisfying version among the first `n` that no
      satisfying version among them exceeds, and every satisfying version
      before `k` is strictly smaller: `k` is the FIRST of the maximal ones. */
  predicate IsFirstMaxUpTo(check: Constraint, vs: seq<Version>, n: nat, k: nat)
    requires n <= |vs|
  {
    && k < n && check(vs[k])
    && (forall j :: 0 <= j < n && check(vs[j]) ==> !GreaterThan(vs[j], vs[k]))
    && (forall j :: 0 <= j < k && check(vs[j]) ==> GreaterThan(vs[k], vs[j]))
  }

  predicate IsFirstMax(check: Constraint, vs: seq<Version>, k: nat) {
    IsFirstMaxUpTo(check, vs, |vs|, k)
  }

  predicate NoneSatisfy(check: Constraint, vs: seq<Version>, n: nat)
    requires n <= |vs|
  {
    forall j :: 0 <= j < n ==> !check(vs[j])
  }

  /** What the loop knows after looking at the first `i` versions. */
  predicate BestSoFar(check: Constraint, vs: seq<Version>, i: nat, best: Option<nat>)
    requires i <= |vs|
  {
    match best
    case None => NoneSatisfy(check, vs, i)
    case Some(k) => IsFirstMaxUpTo(check, vs, i, k)
  }

  /** The loop of the handler from position `i` on, `best` being the index
      of the result kept so far (nil when None). */
  function ScanFrom(check: Constraint, vs: seq<Version>, i: nat, best: Option<nat>): (r: Option<nat>)
    requires i <= |vs|
    requires BestSoFar(check, vs, i, best)
    ensures r.None? <==> NoneSatisfy(check, vs, |vs|)
    ensures r.Some? ==> IsFirstMax(check, vs, r.value)
    decreases |vs| - i
  {
    if i == |vs| then best
    else if !check(vs[i]) then
      ScanFrom(check, vs, i + 1, best)
    else if best.None? then
      assert IsFirstMaxUpTo(check, vs, i + 1, i) by {
        Irreflexive(vs[i]);
      }
      ScanFrom(check, vs, i + 1, Some(i))
    else if GreaterThan(vs[i], vs[best.value]) then
      assert IsFirstMaxUpTo(check, vs, i + 1, i) by {
        NewMaximum(check, vs, i, best.value);
      }
      ScanFrom(check, vs, i + 1, Some(i))
    else
      assert IsFirstMaxUpTo(check, vs, i + 1, best.value) by {
        Irreflexive(vs[i]);
      }
      ScanFrom(check, vs, i + 1, best)
  }

  /** A satisfying version greater than the kept maximum of the prefix is
      the first maximum of the longer prefix. */
  lemma NewMaximum(check: Constraint, vs: seq<Version>, i: nat, k: nat)
    requires i < |vs| && check(vs[i])
    requires IsFirstMaxUpTo(check, vs, i, k)
    requires GreaterThan(vs[i], vs[k])
    ensures IsFirstMaxUpTo(check, vs, i + 1, i)
  {
    forall j | 0 <= j < i && check(vs[j])
      ensures GreaterThan(vs[i], vs[j]) && !GreaterThan(vs[j], vs[i])
    {
      StrictWeakOrder(vs[i], vs[j], vs[k]);
      StrictWeakOrder(vs[j], vs[i], vs[k]);
    }
    Irreflexive(vs[i]);
  }

  /** The index the handler's scan settles on, or None when nothing in
      `vs` satisfies the constraint. `vs` itself is a value and is left as
      it was. */
  function MaxMatchIndex(check: Constraint, vs: seq<Version>): (r: Option<nat>)
    ensures r.None? <==> NoneSatisfy(check, vs, |vs|)
    ensures r.Some? ==> IsFirstMax(check, vs, r.value)
  {
    ScanFrom(check, vs, 0, None)
  }

  /** The version the scan selects. */
  function MaxMatch(check: Constraint, vs: seq<Version>): (r: Option<Version>)
    ensures r.None? <==> forall j :: 0 <= j < |vs| ==> !check(vs[j])
    ensures r.Some? ==> exists k: nat :: IsFirstMax(check, vs, k) && vs[k] == r.value
  {
    match MaxMatchIndex(check, vs)
    case None => None
    case Some(k) => Some(vs[k])
  }

  /** The declarative description pins down one index: the scan's answer
      is the only index that is the first among the maximal ones. */
  lemma FirstMaxUnique(check: Constraint, vs: seq<Version>, k1: nat, k2: nat)
    requires IsFirstMax(check, vs, k1) && IsFirstMax(check, vs, k2)
    ensures k1 == k2
  {
  }

  /** Hence any index meeting the description is the scan's answer. */
  lemma MaxMatchIsFirstMax(check: Constraint, vs: seq<Version>, k: nat)
    requires IsFirstMax(check, vs, k)
    ensures MaxMatchIndex(check, vs) == Some(k)
  {
    var r := MaxMatchIndex(check, vs);
    assert !NoneSatisfy(check, vs, |vs|);
    FirstMaxUnique(check, vs, r.value, k);
  }

  /** Equivalent versions do not displace each other: when two satisfying
      versions at `i < j` are equivalent, the later one is never chosen. */
  lemma TieKeepsFirst(check: Constraint, vs: seq<Version>, i: nat, j: nat)
    requires i < j < |vs| && check(vs[i]) && check(vs[j])
    requires Compare(vs[i], vs[j]) == Eq
    ensures MaxMatchIndex(check, vs) != Some(j)
  {
    if MaxMatchIndex(check, vs) == Some(j) {
      assert GreaterThan(vs[j], vs[i]);
      Trichotomy(vs[i], vs[j]);
      assert false;
    }
  }
}
