/** The weak-type loops keep the shape of the run list, with or without
    isolates, and leave only neutrals, letters and numbers. */
module WeakShape {
  import opened BidiTypes
  import opened Runs
  import opened Chains
  import opened NextRunCache
  import opened IsolateLinks
  import opened Nesting
  import opened Alignment
  import opened Compaction
  import opened WeakPass1

  /** What the phases after X9 keep of the list. */
  ghost predicate Sound(runs: seq<Run>, base: nat, codes: seq<Run>, places: seq<Spot>) {
    Shaped(runs, base) && Aligned(runs, codes, |places|) && NoCodes(runs) && Spots(runs, Blind) == places
  }

  /** Types on which the shape does not depend. */
  predicate Ordinary(t: BidiType) { !t.PDI? && !t.BS? && !t.IsExplicitOrBn() }

  lemma SetKindSound(runs: seq<Run>, k: nat, kind: BidiType, base: nat, codes: seq<Run>, places: seq<Spot>)
    requires Sound(runs, base, codes, places) && k < |runs|
    requires kind == runs[k].kind || (Ordinary(kind) && Ordinary(runs[k].kind))
    ensures Sound(SetKind(runs, k, kind), base, codes, places)
  {
    hide Shaped;
    hide Aligned;
    hide Spots;
    var r := SetKind(runs, k, kind);
    ShapedSame(runs, r, base);
    AlignedSame(runs, r, codes, |places|);
    SpotsBlind(runs, r);
  }

  lemma MergeSound(runs: seq<Run>, k: nat, base: nat, codes: seq<Run>, places: seq<Spot>)
    requires Sound(runs, base, codes, places) && Mergeable(runs, k)
    ensures Sound(MergeWithPrev(runs, k), base, codes, places)
  {
    hide Shaped;
    hide Aligned;
    hide Spots;
    hide MergeWithPrev;
    ShapedMerged(runs, k, base);
    AlignedMerged(runs, k, codes, |places|);
    SpotsMerged(runs, k, Blind);
    forall i | 0 <= i < |runs| - 1 ensures !MergeWithPrev(runs, k)[i].kind.IsExplicitOrBn() {
      MergedAt(runs, k, if i < k then i else i + 1);
    }
  }

  // ----- W1 and W2 -----

  /** No marks are left before run `k`. */
  ghost predicate MarksDone(runs: seq<Run>, k: nat) {
    forall i | 0 <= i < k && i < |runs| :: !runs[i].kind.NSM?
  }

  /** A mark whose chain predecessor has its level follows it in the list. */
  lemma MarkPrev(runs: seq<Run>, k: nat, base: nat)
    requires Shaped(runs, base) && k < |runs| && !runs[k].kind.PDI?
    ensures LevelAt(runs, Prev(runs, k)) == runs[k].level ==> Prev(runs, k) == k - 1 && Mergeable(runs, k)
    ensures LevelAt(runs, Prev(runs, k)) != runs[k].level ==> PrevType(runs, k).LTR? || PrevType(runs, k).RTL?
  {
    hide Nested;
    hide PrevFrom;
    if 0 <= Prev(runs, k) < k - 1 {
      GapIsPdi(runs, k, base);
    }
  }

  lemma SoundShape(runs: seq<Run>, base: nat, codes: seq<Run>, places: seq<Spot>)
    requires Sound(runs, base, codes, places)
    ensures Shaped(runs, base) && NoCodes(runs)
  {
  }

  lemma MarkBackSound(runs: seq<Run>, k: nat, base: nat, codes: seq<Run>, places: seq<Spot>)
    requires Sound(runs, base, codes, places) && k < |runs| && runs[k].kind.NSM? && MarksDone(runs, k)
    ensures var (r, k') := MarkBack(runs, k);
            && Sound(r, base, codes, places) && MarksDone(r, k' + 1)
            && r[k'].level == runs[k].level && r[k'].isolateLevel == runs[k].isolateLevel
            && (k + 1 < |runs| ==> r[k' + 1] == runs[k + 1])
  {
    hide Sound;
    hide PrevType;
    hide Prev;
    assert Shaped(runs, base) by { SoundShape(runs, base, codes, places); }
    hide Shaped;
    MarkPrev(runs, k, base);
    var r := if k > 0 && runs[k - 1].kind.IsIsolate() then SetKind(runs, k, ON) else runs;
    SetKindSound(runs, k, ON, base, codes, places);
    if LevelAt(runs, Prev(runs, k)) != runs[k].level {
      SetKindSound(r, k, PrevType(runs, k), base, codes, places);
    } else {
      MergeSound(r, k, base, codes, places);
    }
  }

  lemma MarksMerged(runs: seq<Run>, k: nat)
    requires 0 < k < |runs| && MarksDone(runs, k)
    ensures MarksDone(MergeWithPrev(runs, k), k)
  {
  }

  lemma MarkStepSound(runs: seq<Run>, k: nat, base: nat, codes: seq<Run>, places: seq<Spot>)
    requires Sound(runs, base, codes, places) && k < |runs| && runs[k].kind.NSM? && MarksDone(runs, k)
    ensures var (r, k') := MarkStep(runs, k); Sound(r, base, codes, places) && MarksDone(r, k' + 1)
  {
    hide Sound;
    hide PrevType;
    hide NextType;
    hide Prev;
    hide MarkBack;
    hide MergeWithPrev;
    MarkBackSound(runs, k, base, codes, places);
    var (b, k') := MarkBack(runs, k);
    var (r, k'') := MarkStep(runs, k);
    if r != b {
      NextOnLevel(runs, k);
      MergeSound(b, k' + 1, base, codes, places);
      MarksMerged(b, k' + 1);
    }
  }

  lemma NumberStepSound(runs: seq<Run>, k: nat, base: nat, codes: seq<Run>, places: seq<Spot>)
    requires Sound(runs, base, codes, places) && k < |runs| && runs[k].kind.EN? && MarksDone(runs, k)
    ensures Sound(NumberStep(runs, k), base, codes, places) && MarksDone(NumberStep(runs, k), k + 1)
  {
    hide Sound;
    hide Next;
    var next := NextSkippingPdi(runs, k);
    SetKindSound(runs, k, AN, base, codes, places);
    if NextType(runs, k).NSM? && next >= 0 {
      SetKindSound(SetKind(runs, k, AN), next, AN, base, codes, places);
    }
  }
}
