/** How isolates and levels nest in the run list between the explicit phase and
    the implicit levels, and what keeps that shape. */
module Nesting {
  import opened BidiTypes
  import opened Runs
  import opened Chains
  import opened NextRunCache
  import opened IsolateLinks

  const ISOLATE_SLOTS := 125

  // ----- The shape of the list -----

  /** Everything after run `i` up to run `k` is in an isolate opened at `i`. */
  ghost predicate Inner(runs: seq<Run>, i: nat, k: nat)
    requires i < k < |runs|
  {
    forall m | i < m <= k :: runs[m].isolateLevel > runs[i].isolateLevel
  }

  /** How the explicit phase nests run `k` among the runs before it: the first
      run is outside all isolates, an isolate level is entered one step at a
      time, a run after nested isolates is a PDI run, a PDI run has the level of
      the run before it in the chain, deeper isolate levels have higher levels,
      and nothing follows a paragraph separator. */
  ghost predicate NestedAt(runs: seq<Run>, k: nat, base: nat)
    requires k < |runs|
  {
    && (k == 0 ==> runs[k].isolateLevel == 0 && (runs[k].level >= base || runs[k].kind.BS?))
    && (k > 0 ==> runs[k].isolateLevel <= runs[k - 1].isolateLevel + 1 && !runs[k - 1].kind.BS?)
    && (0 <= Prev(runs, k) < k - 1 ==> runs[k].kind.PDI?)
    && (runs[k].kind.PDI? ==> Continues(runs, k))
    && (!runs[k].kind.BS? ==> forall i | 0 <= i < k && Inner(runs, i, k) :: runs[k].level > runs[i].level)
  }

  ghost predicate Nested(runs: seq<Run>, base: nat) {
    forall k | 0 <= k < |runs| :: NestedAt(runs, k, base)
  }

  ghost predicate PosIncreasing(runs: seq<Run>) {
    forall i, j | 0 <= i < j < |runs| :: 0 <= runs[i].pos < runs[j].pos
  }

  /** Levels and isolate levels as the explicit phase leaves them. */
  ghost predicate LevelsFit(runs: seq<Run>) {
    forall k | 0 <= k < |runs| :: 0 <= runs[k].level <= MAX_EXPLICIT_LEVEL && runs[k].isolateLevel < ISOLATE_SLOTS
  }

  ghost predicate AboveBase(runs: seq<Run>, base: nat) {
    forall k | 0 <= k < |runs| :: runs[k].level >= base || runs[k].kind.BS?
  }

  /** What the phases from X10 to N2 can rely on. */
  ghost predicate Shaped(runs: seq<Run>, base: nat) {
    Nested(runs, base) && PosIncreasing(runs) && LevelsFit(runs) && AboveBase(runs, base)
  }

  lemma GapIsPdi(runs: seq<Run>, k: nat, base: nat)
    requires Nested(runs, base) && k < |runs| && 0 <= Prev(runs, k) < k - 1
    ensures runs[k].kind.PDI? && runs[k].level == runs[Prev(runs, k)].level
  {
    hide PrevFrom;
    hide Inner;
    assert NestedAt(runs, k, base);
  }

  lemma InnerHigher(runs: seq<Run>, i: nat, k: nat, base: nat)
    requires Nested(runs, base) && i < k < |runs| && !runs[k].kind.BS? && Inner(runs, i, k)
    ensures runs[k].level > runs[i].level
  {
    hide Inner;
    hide Prev;
    hide Continues;
    assert NestedAt(runs, k, base);
  }

  lemma NotSeparator(runs: seq<Run>, k: nat, base: nat)
    requires Nested(runs, base) && k + 1 < |runs|
    ensures !runs[k].kind.BS?
  {
    hide Inner;
    hide Prev;
    hide Continues;
    assert NestedAt(runs, k + 1, base);
  }

  /** Isolate levels are entered one at a time, so going back from a deeper one
      meets every level on the way. */
  lemma {:induction false} NoSkip(runs: seq<Run>, base: nat, iso: nat, j: nat)
    requires Nested(runs, base) && j < |runs| && runs[j].isolateLevel >= iso
    ensures PrevFrom(runs, iso, j) >= 0
    decreases j
  {
    if runs[j].isolateLevel > iso {
      assert NestedAt(runs, j, base);
      NoSkip(runs, base, iso, j - 1);
    }
  }

  // ----- Changing types -----

  /** Separators and PDIs are in the same places. */
  ghost predicate SamePlaces(a: seq<Run>, b: seq<Run>)
    requires |a| == |b|
  {
    forall i | 0 <= i < |a| :: (a[i].kind.BS? <==> b[i].kind.BS?) && (a[i].kind.PDI? <==> b[i].kind.PDI?)
  }

  lemma ContinuesSame(a: seq<Run>, b: seq<Run>, k: nat)
    requires SameFrame(a, b) && k < |a|
    ensures Prev(a, k) == Prev(b, k) && (Continues(a, k) <==> Continues(b, k))
  {
    PrevLevels(a, b, a[k].isolateLevel, k - 1);
  }

  lemma NestedIs(a: seq<Run>, k: nat, base: nat)
    requires Nested(a, base) && k < |a|
    ensures NestedAt(a, k, base)
  {
  }

  lemma NestedAll(a: seq<Run>, base: nat)
    requires forall k | 0 <= k < |a| :: NestedAt(a, k, base)
    ensures Nested(a, base)
  {
  }

  lemma NestedAtSame(a: seq<Run>, b: seq<Run>, k: nat, base: nat)
    requires SameFrame(a, b) && k < |a| && NestedAt(a, k, base) && SamePlaces(a, b)
    ensures NestedAt(b, k, base)
  {
    hide PrevFrom;
    ContinuesSame(a, b, k);
    forall i | 0 <= i < k && Inner(b, i, k) ensures Inner(a, i, k) {
    }
  }

  lemma NestedSame(a: seq<Run>, b: seq<Run>, base: nat)
    requires SameFrame(a, b) && Nested(a, base) && SamePlaces(a, b)
    ensures Nested(b, base)
  {
    hide Nested;
    forall k | 0 <= k < |a| ensures NestedAt(b, k, base) {
      assert NestedAt(a, k, base) by { NestedIs(a, k, base); }
      NestedAtSame(a, b, k, base);
    }
    NestedAll(b, base);
  }

  lemma ShapedSame(a: seq<Run>, b: seq<Run>, base: nat)
    requires SameFrame(a, b) && SamePlaces(a, b) && Shaped(a, base)
    ensures Shaped(b, base)
  {
    hide Nested;
    NestedSame(a, b, base);
  }
}
