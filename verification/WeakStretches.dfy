/** The runs on one isolate level of an isolate, picked out of the run list: where
    they stand, what they see around them, and what changes to the list mean for
    them. */
module WeakStretches {
  import opened BidiTypes
  import opened Runs
  import opened Chains
  import opened IsolateLinks
  import opened Nesting
  import opened Compaction
  import opened WeakShape
  import opened WeakPass1
  import opened WeakPass2

  // ----- One isolate level of a stretch, on its own -----

  function Alone(r: Run): Run { r.(isolateLevel := 0) }

  /** The runs on isolate level `d`. */
  ghost function Pick(s: seq<Run>, d: nat): seq<Run> {
    if s == [] then []
    else
      var n := |s| - 1;
      Pick(s[..n], d) + if s[n].isolateLevel == d then [Alone(s[n])] else []
  }

  /** Runs `lo` to `hi` are all that is inside an isolate of depth `d`, with the
      isolates nested in it. */
  ghost predicate Stretch(runs: seq<Run>, lo: nat, hi: nat, d: nat) {
    && lo < hi <= |runs| && runs[lo].isolateLevel == d
    && (forall m | lo <= m < hi :: runs[m].isolateLevel >= d)
    && (lo > 0 ==> runs[lo - 1].isolateLevel < d) && (hi < |runs| ==> runs[hi].isolateLevel < d)
  }

  ghost predicate Member(runs: seq<Run>, lo: nat, hi: nat, d: nat, k: nat) {
    lo <= k < hi <= |runs| && runs[k].isolateLevel == d
  }

  /** How many runs on isolate level `d` of the stretch stand before run `m`. */
  ghost function Rank(runs: seq<Run>, lo: nat, hi: nat, d: nat, m: nat): nat
    requires lo <= hi <= |runs|
  {
    |Pick(runs[lo..if m < lo then lo else if m > hi then hi else m], d)|
  }

  lemma {:induction false} PickJoin(a: seq<Run>, b: seq<Run>, d: nat)
    ensures Pick(a + b, d) == Pick(a, d) + Pick(b, d)
  {
    if b == [] {
      assert a + b == a;
    } else {
      var n := |b| - 1;
      PickJoin(a, b[..n], d);
      assert (a + b)[..|a| + n] == a + b[..n];
    }
  }

  lemma PickNothing(d: nat)
    ensures Pick([], d) == []
  {
  }

  lemma PickOne(r: Run, d: nat)
    ensures Pick([r], d) == if r.isolateLevel == d then [Alone(r)] else []
  {
    assert [r][..0] == [];
  }

  lemma PickAround(a: seq<Run>, r: Run, b: seq<Run>, d: nat)
    ensures Pick(a + [r] + b, d) == Pick(a, d) + (if r.isolateLevel == d then [Alone(r)] else []) + Pick(b, d)
  {
    hide Pick;
    PickJoin(a + [r], b, d);
    PickJoin(a, [r], d);
    PickOne(r, d);
  }

  lemma PickSet(s: seq<Run>, i: nat, kind: BidiType, d: nat)
    requires i < |s|
    ensures var at := |Pick(s[..i], d)|;
            if s[i].isolateLevel == d then
              at < |Pick(s, d)| && Pick(SetKind(s, i, kind), d) == SetKind(Pick(s, d), at, kind)
            else Pick(SetKind(s, i, kind), d) == Pick(s, d)
  {
    hide Pick;
    assert s == s[..i] + [s[i]] + s[i + 1..];
    assert SetKind(s, i, kind) == s[..i] + [s[i].(kind := kind)] + s[i + 1..];
    PickAround(s[..i], s[i], s[i + 1..], d);
    PickAround(s[..i], s[i].(kind := kind), s[i + 1..], d);
  }

  lemma PickMerge(s: seq<Run>, k: nat, d: nat)
    requires 0 < k < |s| && s[k - 1].isolateLevel == s[k].isolateLevel
    ensures var at := |Pick(s[..k], d)|;
            if s[k].isolateLevel == d then
              0 < at < |Pick(s, d)| && Pick(MergeWithPrev(s, k), d) == MergeWithPrev(Pick(s, d), at)
            else Pick(MergeWithPrev(s, k), d) == Pick(s, d)
  {
    hide Pick;
    var a, b, x, y := s[..k - 1], s[k + 1..], s[k - 1], s[k];
    assert s == a + [x] + ([y] + b) && [y] + b == [] + [y] + b && s[..k] == a + [x] + [];
    PickAround(a, x, [y] + b, d);
    PickAround([], y, b, d);
    PickAround(a, x, [], d);
    PickAround(a, x.(len := x.len + y.len), b, d);
    assert Pick([], d) == [] by { PickNothing(d); }
  }

  // ----- Where a run is found -----

  lemma RankNext(runs: seq<Run>, lo: nat, hi: nat, d: nat, k: nat)
    requires lo <= hi <= |runs| && k < |runs|
    ensures Rank(runs, lo, hi, d, k + 1) == Rank(runs, lo, hi, d, k) + if Member(runs, lo, hi, d, k) then 1 else 0
  {
    hide Pick;
    if lo <= k < hi {
      assert runs[lo..k + 1] == runs[lo..k] + [runs[k]];
      PickJoin(runs[lo..k], [runs[k]], d);
      PickOne(runs[k], d);
    }
  }

  lemma RankEnds(runs: seq<Run>, lo: nat, hi: nat, d: nat)
    requires lo <= hi <= |runs|
    ensures forall m: nat | m <= lo :: Rank(runs, lo, hi, d, m) == 0
    ensures forall m: nat | m >= hi :: Rank(runs, lo, hi, d, m) == |Pick(runs[lo..hi], d)|
  {
  }

  lemma RankAt(runs: seq<Run>, lo: nat, hi: nat, d: nat, k: nat)
    requires Member(runs, lo, hi, d, k)
    ensures var p, j := Pick(runs[lo..hi], d), Rank(runs, lo, hi, d, k); j < |p| && p[j] == Alone(runs[k])
  {
    hide Pick;
    assert runs[lo..hi] == runs[lo..k] + [runs[k]] + runs[k + 1..hi];
    PickAround(runs[lo..k], runs[k], runs[k + 1..hi], d);
  }

  /** The previous run of the chain is the previous one of its own level. */
  lemma {:induction false} RankPrev(runs: seq<Run>, lo: nat, hi: nat, d: nat, i: nat)
    requires Stretch(runs, lo, hi, d) && lo <= i < hi
    ensures var j, q := Rank(runs, lo, hi, d, i + 1), PrevFrom(runs, d, i);
            q >= lo && j > 0 && Member(runs, lo, hi, d, q) && Rank(runs, lo, hi, d, q) == j - 1
    decreases i
  {
    hide Rank;
    RankNext(runs, lo, hi, d, i);
    if runs[i].isolateLevel > d {
      RankPrev(runs, lo, hi, d, i - 1);
    }
  }

  lemma PickedLevels(s: seq<Run>, d: nat, j: nat)
    requires j < |Pick(s, d)|
    ensures Pick(s, d)[j].isolateLevel == 0
  {
  }

  /** A run of the stretch sees the same type before it as on its own. */
  lemma PrevAlone(runs: seq<Run>, lo: nat, hi: nat, d: nat, k: nat)
    requires Stretch(runs, lo, hi, d) && Member(runs, lo, hi, d, k)
    ensures var p, j := Pick(runs[lo..hi], d), Rank(runs, lo, hi, d, k);
            && j < |p| && p[j] == Alone(runs[k]) && (j == 0 <==> k == lo)
            && Prev(p, j) == j - 1 && PrevType(p, j) == PrevType(runs, k)
            && (k == lo ==> Prev(runs, k) == -1)
            && (k > lo ==>
                  var q := Prev(runs, k);
                  q >= 0 && Member(runs, lo, hi, d, q) && Rank(runs, lo, hi, d, q) == j - 1
                    && p[j - 1] == Alone(runs[q]))
  {
    hide Pick;
    hide Rank;
    RankAt(runs, lo, hi, d, k);
    var p, j := Pick(runs[lo..hi], d), Rank(runs, lo, hi, d, k);
    PickedLevels(runs[lo..hi], d, j);
    if k == lo {
      RankEnds(runs, lo, hi, d);
    } else {
      RankPrev(runs, lo, hi, d, k - 1);
      RankAt(runs, lo, hi, d, Prev(runs, k));
      PickedLevels(runs[lo..hi], d, j - 1);
    }
  }

  // ----- Weak runs meet no isolate -----

  /** A weak run is followed by a run of its own isolate level that is no PDI,
      or by the end of the isolate it is in. */
  ghost predicate QuietPair(a: Run, b: Run) {
    IsWeak(a.kind) ==> b.isolateLevel < a.isolateLevel || (b.isolateLevel == a.isolateLevel && !b.kind.PDI?)
  }

  ghost predicate Quiet(runs: seq<Run>) {
    forall i | 0 < i < |runs| :: QuietPair(runs[i - 1], runs[i])
  }

  lemma QuietHere(runs: seq<Run>, k: nat)
    requires Quiet(runs) && k + 1 < |runs|
    ensures QuietPair(runs[k], runs[k + 1])
  {
    var i := k + 1;
    assert QuietPair(runs[i - 1], runs[i]);
  }

  /** A run that leaves an isolate is on a lower level. */
  lemma LeavesLower(runs: seq<Run>, k: nat, base: nat)
    requires Shaped(runs, base) && k + 1 < |runs| && runs[k + 1].isolateLevel < runs[k].isolateLevel
             && !runs[k].kind.BS?
    ensures runs[k + 1].level < runs[k].level
  {
    hide Nested;
    hide PrevFrom;
    NoSkip(runs, base, runs[k + 1].isolateLevel, k);
    var a := PrevFrom(runs, runs[k + 1].isolateLevel, k);
    assert Prev(runs, k + 1) == a;
    GapIsPdi(runs, k + 1, base);
    InnerHigher(runs, a, k, base);
  }

  /** What follows a weak run. */
  lemma NextQuiet(runs: seq<Run>, k: nat, base: nat)
    requires Shaped(runs, base) && Quiet(runs) && k < |runs| && IsWeak(runs[k].kind)
    ensures var next := NextSkippingPdi(runs, k);
            if k + 1 < |runs| && runs[k + 1].isolateLevel == runs[k].isolateLevel then
              next == k + 1 && !runs[k + 1].kind.PDI?
            else next == -1 && !SameAsNext(runs, k)
  {
    hide Shaped;
    if k + 1 < |runs| {
      QuietHere(runs, k);
      hide Quiet;
      if runs[k + 1].isolateLevel < runs[k].isolateLevel {
        LeavesLower(runs, k, base);
      }
    }
  }

  lemma NextSeen(runs: seq<Run>, k: nat)
    requires k < |runs|
    ensures SameAsNext(runs, k) && NextSkippingPdi(runs, k) == k + 1 ==> NextType(runs, k) == runs[k + 1].kind
  {
    hide NextSkippingPdi;
  }

  /** The run before, if it is on the same level. */
  lemma PrevQuiet(runs: seq<Run>, k: nat, base: nat)
    requires Shaped(runs, base) && k < |runs| && Ordinary(runs[k].kind)
    ensures LevelAt(runs, Prev(runs, k)) == runs[k].level <==> SameAsPrev(runs, k)
    ensures SameAsPrev(runs, k) ==> Prev(runs, k) == k - 1 && runs[k - 1].isolateLevel == runs[k].isolateLevel
  {
    hide PrevFrom;
    hide Shaped;
    MarkPrev(runs, k, base);
    if SameAsPrev(runs, k) {
      PrevOnLevel(runs, k, base);
    }
  }

  lemma BackQuiet(runs: seq<Run>, k: nat, base: nat)
    requires Shaped(runs, base) && k < |runs| && runs[k].kind.NSM?
    ensures MarkBack(runs, k) == if SameAsPrev(runs, k) then (MergeWithPrev(runs, k), k - 1)
                                 else (SetKind(runs, k, PrevType(runs, k)), k)
  {
    hide Shaped;
    hide Prev;
    hide PrevType;
    PrevQuiet(runs, k, base);
    var r := SetKind(runs, k, ON);
    assert SetKind(r, k, PrevType(runs, k)) == SetKind(runs, k, PrevType(runs, k));
    if k > 0 {
      assert MergeWithPrev(r, k) == MergeWithPrev(runs, k);
    }
  }

  /** Among the neighbours of a mark the chain is the list. */
  lemma MarkQuiet(runs: seq<Run>, k: nat, base: nat)
    requires Shaped(runs, base) && Quiet(runs) && k < |runs| && runs[k].kind.NSM?
    ensures MarkStep(runs, k) == MarkFree(runs, k)
  {
    hide Shaped;
    hide Quiet;
    hide Prev;
    hide PrevType;
    hide NextSkippingPdi;
    hide MarkBack;
    BackQuiet(runs, k, base);
    NextQuiet(runs, k, base);
    NextSeen(runs, k);
  }

  lemma NumberQuiet(runs: seq<Run>, k: nat, base: nat)
    requires Shaped(runs, base) && Quiet(runs) && k < |runs| && runs[k].kind.EN?
    ensures NumberStep(runs, k) == NumberFree(runs, k)
  {
    hide Shaped;
    hide Quiet;
    hide NextSkippingPdi;
    NextQuiet(runs, k, base);
  }

  // ----- Changing one run -----

  /** The stretch in a list of the same isolate levels. */
  lemma StretchSame(a: seq<Run>, b: seq<Run>, lo: nat, hi: nat, d: nat)
    requires |a| == |b| && Stretch(a, lo, hi, d) && forall m | 0 <= m < |a| :: a[m].isolateLevel == b[m].isolateLevel
    ensures Stretch(b, lo, hi, d)
  {
  }

  lemma {:induction false} PickCount(a: seq<Run>, b: seq<Run>, d: nat)
    requires |a| == |b| && forall m | 0 <= m < |a| :: a[m].isolateLevel == b[m].isolateLevel
    ensures |Pick(a, d)| == |Pick(b, d)|
    decreases |a|
  {
    if a != [] {
      PickCount(a[..|a| - 1], b[..|a| - 1], d);
    }
  }

  lemma SetAlone(runs: seq<Run>, lo: nat, hi: nat, d: nat, i: nat, kind: BidiType)
    requires Stretch(runs, lo, hi, d) && i < |runs|
    ensures var r, p, j := SetKind(runs, i, kind), Pick(runs[lo..hi], d), Rank(runs, lo, hi, d, i);
            && Stretch(r, lo, hi, d)
            && (Member(runs, lo, hi, d, i) ==> j < |p|)
            && Pick(r[lo..hi], d) == (if Member(runs, lo, hi, d, i) then SetKind(p, j, kind) else p)
    ensures forall m: nat :: Rank(SetKind(runs, i, kind), lo, hi, d, m) == Rank(runs, lo, hi, d, m)
  {
    hide Pick;
    var r := SetKind(runs, i, kind);
    StretchSame(runs, r, lo, hi, d);
    if lo <= i < hi {
      assert r[lo..hi] == SetKind(runs[lo..hi], i - lo, kind);
      assert runs[lo..hi][..i - lo] == runs[lo..i];
      PickSet(runs[lo..hi], i - lo, kind, d);
    } else {
      assert r[lo..hi] == runs[lo..hi];
    }
    forall m: nat ensures Rank(r, lo, hi, d, m) == Rank(runs, lo, hi, d, m) {
      var e := if m < lo then lo else if m > hi then hi else m;
      var a, b := r[lo..e], runs[lo..e];
      PickCount(a, b, d);
    }
  }

  /** Where a boundary lies once runs `k - 1` and `k` are one. */
  function Shifted(e: nat, k: nat): nat
    requires k > 0
  {
    if k < e then e - 1 else e
  }

  lemma MergedLevel(runs: seq<Run>, k: nat, m: nat)
    requires 0 < k < |runs| && m < |runs| - 1
    ensures MergeWithPrev(runs, k)[m].isolateLevel == runs[if m < k then m else m + 1].isolateLevel
  {
  }

  lemma StretchMerged(runs: seq<Run>, lo: nat, hi: nat, d: nat, k: nat)
    requires Stretch(runs, lo, hi, d) && 0 < k < |runs| && runs[k - 1].isolateLevel == runs[k].isolateLevel
    ensures k != lo && k != hi && Stretch(MergeWithPrev(runs, k), Shifted(lo, k), Shifted(hi, k), d)
  {
    hide MergeWithPrev;
    var l, h := Shifted(lo, k), Shifted(hi, k);
    forall m | l <= m < h ensures MergeWithPrev(runs, k)[m].isolateLevel >= d {
      MergedLevel(runs, k, m);
    }
    if l > 0 {
      MergedLevel(runs, k, l - 1);
    }
    if l < |runs| - 1 {
      MergedLevel(runs, k, l);
    }
    if h < |runs| - 1 {
      MergedLevel(runs, k, h);
    }
  }

  /** A merge inside the stretch. */
  lemma MergeInside(runs: seq<Run>, lo: nat, hi: nat, d: nat, k: nat)
    requires lo < k < hi <= |runs| && runs[k - 1].isolateLevel == runs[k].isolateLevel
    ensures var r, p, j := MergeWithPrev(runs, k), Pick(runs[lo..hi], d), Rank(runs, lo, hi, d, k);
            && (runs[k].isolateLevel == d ==> 0 < j < |p|)
            && Pick(r[lo..hi - 1], d) == (if runs[k].isolateLevel == d then MergeWithPrev(p, j) else p)
            && Rank(r, lo, hi - 1, d, k) == j
  {
    hide Pick;
    var r, s := MergeWithPrev(runs, k), runs[lo..hi];
    assert r[lo..hi - 1] == MergeWithPrev(s, k - lo);
    assert s[..k - lo] == runs[lo..k];
    PickMerge(s, k - lo, d);
    var a, b := r[lo..k], runs[lo..k];
    forall m | 0 <= m < |b| ensures a[m].isolateLevel == b[m].isolateLevel {
      MergedLevel(runs, k, lo + m);
    }
    PickCount(a, b, d);
  }

  lemma MergeOutside(runs: seq<Run>, lo: nat, hi: nat, k: nat)
    requires lo < hi <= |runs| && 0 < k < |runs| && k != lo && k != hi && !(lo < k < hi)
    ensures MergeWithPrev(runs, k)[Shifted(lo, k)..Shifted(hi, k)] == runs[lo..hi]
  {
    var a, b := MergeWithPrev(runs, k)[Shifted(lo, k)..Shifted(hi, k)], runs[lo..hi];
    forall m | 0 <= m < |b| ensures a[m] == b[m] {
    }
  }

  lemma MergeAlone(runs: seq<Run>, lo: nat, hi: nat, d: nat, k: nat)
    requires Stretch(runs, lo, hi, d) && 0 < k < |runs| && runs[k - 1].isolateLevel == runs[k].isolateLevel
    ensures var r, p, j := MergeWithPrev(runs, k), Pick(runs[lo..hi], d), Rank(runs, lo, hi, d, k);
            var l, h := Shifted(lo, k), Shifted(hi, k);
            && Stretch(r, l, h, d)
            && (Member(runs, lo, hi, d, k) ==> l == lo && h == hi - 1 && 0 < j < |p|)
            && Pick(r[l..h], d) == (if Member(runs, lo, hi, d, k) then MergeWithPrev(p, j) else p)
            && Rank(r, l, h, d, k) == j
  {
    hide Pick;
    StretchMerged(runs, lo, hi, d, k);
    hide Stretch;
    if lo < k < hi {
      hide MergeWithPrev;
      hide Rank;
      MergeInside(runs, lo, hi, d, k);
    } else {
      MergeOutside(runs, lo, hi, k);
      assert MergeWithPrev(runs, k)[Shifted(lo, k)..Shifted(lo, k)] == runs[lo..lo];
    }
  }
}
