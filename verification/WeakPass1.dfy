/** The first weak-type loop of fribidi_get_par_embedding_levels_ex: rules W1
    and W2 together, merging runs as it goes. */
module WeakPass1 {
  import opened BidiTypes
  import opened Runs
  import opened Chains
  import opened IsolateLinks
  import opened WeakRules

  // ----- Runs spelled out as characters -----

  /** Characters `p` to `p + n` are alike in type and level. */
  ghost predicate Alike(ks: seq<BidiType>, ls: seq<int>, p: nat, n: nat, kind: BidiType, level: int) {
    p + n <= |ks| == |ls| && forall q | p <= q < p + n :: ks[q] == kind && ls[q] == level
  }

  /** Run `i` stands for characters of type ks[..] and level ls[..]. */
  ghost predicate RunSpells(runs: seq<Run>, i: nat, ks: seq<BidiType>, ls: seq<int>)
    requires i < |runs|
  {
    Alike(ks, ls, Off(runs, i), runs[i].len, runs[i].kind, runs[i].level)
  }

  /** The list stands for the text with types `ks` and levels `ls`. */
  ghost predicate Spells(runs: seq<Run>, ks: seq<BidiType>, ls: seq<int>) {
    && Off(runs, |runs|) == |ks| == |ls|
    && forall i | 0 <= i < |runs| :: RunSpells(runs, i, ks, ls)
  }

  // ----- The loop -----

  function PrevType(runs: seq<Run>, k: nat): BidiType
    requires k < |runs|
  {
    TypeSeen(runs, k, Prev(runs, k))
  }

  function NextType(runs: seq<Run>, k: nat): BidiType
    requires k < |runs|
  {
    TypeSeen(runs, k, NextSkippingPdi(runs, k))
  }

  ghost predicate FreeRun(r: Run) {
    r.isolateLevel == 0 && r.len > 0 && r.level >= 0 && !r.kind.IsExplicitOrBn()
  }

  /** A list without nested isolates, as X9 leaves it. */
  ghost predicate Free(runs: seq<Run>) {
    forall k | 0 <= k < |runs| :: FreeRun(runs[k])
  }

  /** The types that W1 to W7 may change. */
  predicate IsWeak(t: BidiType) { t.NSM? || t.EN? || t.ES? || t.ET? || t.CS? }

  /** Two neighbouring ET runs of one level would hide the length of an ET
      sequence from the second loop, and the search that steps over PDIs would
      look further than the neighbour of a weak run that a PDI follows. */
  ghost predicate CalmPair(a: Run, b: Run) {
    !(a.kind.ET? && b.kind.ET? && a.level == b.level) && !(IsWeak(a.kind) && b.kind.PDI?)
  }

  ghost predicate Calm(runs: seq<Run>) {
    forall i | 0 < i < |runs| :: CalmPair(runs[i - 1], runs[i])
  }

  lemma CalmHere(runs: seq<Run>, k: nat)
    requires Calm(runs) && k + 1 < |runs| && IsWeak(runs[k].kind)
    ensures !runs[k + 1].kind.PDI?
  {
    var i := k + 1;
    assert CalmPair(runs[i - 1], runs[i]);
  }

  /** Without nested isolates the chain is the list. */
  lemma FreeChain(runs: seq<Run>, k: nat)
    requires Free(runs) && k < |runs|
    ensures Prev(runs, k) == k - 1
    ensures k + 1 == |runs| || !runs[k + 1].kind.PDI? ==>
              NextSkippingPdi(runs, k) == if k + 1 < |runs| then k + 1 else -1
  {
    assert FreeRun(runs[k]);
    if k > 0 {
      assert FreeRun(runs[k - 1]);
    }
    if k + 1 < |runs| {
      assert FreeRun(runs[k + 1]);
    }
  }

  predicate SameAsPrev(runs: seq<Run>, k: nat) { 0 < k < |runs| && runs[k - 1].level == runs[k].level }

  predicate SameAsNext(runs: seq<Run>, k: nat) { k + 1 < |runs| && runs[k + 1].level == runs[k].level }

  /** W1 on a list without nested isolates. */
  ghost function MarkFree(runs: seq<Run>, k: nat): (seq<Run>, nat)
    requires k < |runs|
  {
    var k' := if SameAsPrev(runs, k) then k - 1 else k;
    var r := if SameAsPrev(runs, k) then MergeWithPrev(runs, k) else SetKind(runs, k, PrevType(runs, k));
    if SameAsNext(runs, k) && runs[k + 1].kind == PrevType(runs, k) then (MergeWithPrev(r, k' + 1), k') else (r, k')
  }

  /** The W1 branch: first the mark joins the run before it or takes its type,
      then the run after it joins if it has become alike. */
  function MarkBack(runs: seq<Run>, k: nat): (r: (seq<Run>, nat))
    requires k < |runs|
    ensures r.1 < |r.0| <= |runs| && |r.0| - r.1 == |runs| - k
  {
    var prev := Prev(runs, k);
    var r := if k > 0 && runs[k - 1].kind.IsIsolate() then SetKind(runs, k, ON) else runs;
    if LevelAt(runs, prev) != runs[k].level then (SetKind(r, k, PrevType(runs, k)), k)
    else if prev >= 0 && prev == k - 1 then (MergeWithPrev(r, k), k - 1)
    else (r, k)
  }

  function MarkStep(runs: seq<Run>, k: nat): (r: (seq<Run>, nat))
    requires k < |runs|
    ensures r.1 < |r.0| && |r.0| - r.1 <= |runs| - k
  {
    var (r, k') := MarkBack(runs, k);
    if PrevType(runs, k) == NextType(runs, k) && k' + 1 < |r| && r[k'].level == r[k' + 1].level
       && NextSkippingPdi(runs, k) == k + 1
    then (MergeWithPrev(r, k' + 1), k') else (r, k')
  }

  /** The mark keeps its isolate level, and what follows it stays. */
  lemma MarkedKeeps(runs: seq<Run>, k: nat)
    requires k < |runs|
    ensures var (r, k') := MarkBack(runs, k);
            && (Prev(runs, k) >= 0 ==> runs[Prev(runs, k)].isolateLevel == runs[k].isolateLevel)
            && r[k'].isolateLevel == runs[k].isolateLevel
            && (k + 1 < |runs| ==> k' + 1 < |r| && r[k' + 1] == runs[k + 1])
  {
    hide PrevFrom;
  }

  lemma {:induction false} NextOnLevel(runs: seq<Run>, k: nat)
    requires k < |runs|
    ensures NextSkippingPdi(runs, k) >= 0 ==> runs[NextSkippingPdi(runs, k)].isolateLevel == runs[k].isolateLevel
    decreases |runs| - k
  {
    var m := Next(runs, k);
    if m >= 0 && runs[m].kind.PDI? {
      NextOnLevel(runs, m);
    }
  }

  /** The W1 branch on the list and its links. */
  method MarkRun(runs0: seq<Run>, links0: Links, k0: nat, prev: int, next: int)
    returns (runs: seq<Run>, links: Links, k: nat)
    requires Agree(runs0, links0) && k0 < |runs0| && prev == Prev(runs0, k0) && next == NextSkippingPdi(runs0, k0)
    ensures (runs, k) == MarkStep(runs0, k0) && Agree(runs, links)
  {
    hide Agree;
    hide Prev;
    hide NextSkippingPdi;
    hide MergeWithPrev;
    runs, links, k := runs0, links0, k0;
    var prevType, nextType := TypeSeen(runs, k, prev), TypeSeen(runs, k, next);
    NextOnLevel(runs, k);
    OnLevel(runs, k);
    if k > 0 && runs[k - 1].kind.IsIsolate() {
      AgreeSame(runs, SetKind(runs, k, ON), links);
      runs := SetKind(runs, k, ON);
    }
    if LevelAt(runs, prev) == runs[k].level {
      if prev >= 0 && prev == k - 1 {
        runs, links := MergeRuns(runs, links, k);
        k := k - 1;
      }
    } else {
      AgreeSame(runs, SetKind(runs, k, prevType), links);
      runs := SetKind(runs, k, prevType);
    }
    assert (runs, k) == MarkBack(runs0, k0);
    if prevType == nextType && k + 1 < |runs| && runs[k].level == runs[k + 1].level {
      if next == k0 + 1 {
        MarkedKeeps(runs0, k0);
        runs, links := MergeRuns(runs, links, k + 1);
      }
    }
  }

  lemma MarkFits(runs: seq<Run>, k: nat)
    requires k < |runs| && IsolatesFit(runs)
    ensures IsolatesFit(MarkStep(runs, k).0)
  {
    hide Prev;
    hide PrevType;
    hide NextSkippingPdi;
    hide NextType;
    var r := if k > 0 && runs[k - 1].kind.IsIsolate() then SetKind(runs, k, ON) else runs;
    if k > 0 {
      MergeFits(r, k);
    }
    var (b, k') := MarkBack(runs, k);
    if k' + 1 < |b| {
      MergeFits(b, k' + 1);
    }
  }

  lemma MarkFreeIs(runs: seq<Run>, k: nat)
    requires k < |runs| && Free(runs) && (k + 1 < |runs| ==> !runs[k + 1].kind.PDI?)
    ensures MarkStep(runs, k) == MarkFree(runs, k)
  {
    hide Prev;
    hide NextSkippingPdi;
    FreeChain(runs, k);
    assert k > 0 ==> FreeRun(runs[k - 1]);
    assert FreeRun(runs[k]);
    var r := SetKind(runs, k, ON);
    assert SetKind(r, k, PrevType(runs, k)) == SetKind(runs, k, PrevType(runs, k));
    if k > 0 {
      assert MergeWithPrev(r, k) == MergeWithPrev(runs, k);
    }
  }

  /** W2 on a list without nested isolates. */
  ghost function NumberFree(runs: seq<Run>, k: nat): seq<Run>
    requires k < |runs|
  {
    var r := SetKind(runs, k, AN);
    if SameAsNext(runs, k) && runs[k + 1].kind.NSM? then SetKind(r, k + 1, AN) else r
  }

  /** The W2 branch, once the governing strong type is known to be AL. */
  function NumberStep(runs: seq<Run>, k: nat): (r: seq<Run>)
    requires k < |runs|
    ensures |r| == |runs| && forall i | 0 <= i < |runs| :: r[i].isolateLevel == runs[i].isolateLevel
  {
    var next := NextSkippingPdi(runs, k);
    var r := SetKind(runs, k, AN);
    if NextType(runs, k).NSM? && next >= 0 then SetKind(r, next, AN) else r
  }

  lemma NumberFreeIs(runs: seq<Run>, k: nat)
    requires k < |runs| && Free(runs) && (k + 1 < |runs| ==> !runs[k + 1].kind.PDI?)
    ensures NumberStep(runs, k) == NumberFree(runs, k)
  {
    hide Prev;
    FreeChain(runs, k);
    assert FreeRun(runs[k]);
  }

  /** The W2 branch on the list. */
  method NumberRun(runs0: seq<Run>, k: nat, next: int) returns (runs: seq<Run>)
    requires k < |runs0| && next == NextSkippingPdi(runs0, k)
    ensures runs == NumberStep(runs0, k)
  {
    hide NextSkippingPdi;
    runs := SetKind(runs0, k, AN);
    if TypeSeen(runs0, k, next).NSM? && next >= 0 {
      runs := SetKind(runs, next, AN);
    }
  }

  // ----- The memory of strong types -----

  /** `last_strong_stack` once the type before run `k` has been heard. */
  function Heard(runs: seq<Run>, k: nat, table: seq<BidiType>): (t: seq<BidiType>)
    requires k < |runs| && runs[k].isolateLevel < |table|
    ensures |t| == |table|
  {
    if PrevType(runs, k).IsStrong() then table[runs[k].isolateLevel := PrevType(runs, k)] else table
  }
}
