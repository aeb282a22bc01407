/** Weak types where isolates nest: each sequence of runs on one isolate level is
    resolved as if it stood alone. */
module WeakChains {
  import opened BidiTypes
  import opened Runs
  import opened Chains
  import opened IsolateLinks
  import opened Nesting
  import opened Alignment
  import opened Compaction
  import opened WeakShape
  import opened WeakPass1
  import opened WeakProof1
  import opened WeakPass2
  import opened WeakProof2
  import opened WeakStretches

  // ----- W1 and W2 -----

  /** Every run holds characters that X9 keeps. */
  ghost predicate Lasting(runs: seq<Run>) {
    forall m | 0 <= m < |runs| :: runs[m].len > 0 && runs[m].level >= 0 && !runs[m].kind.IsExplicitOrBn()
  }

  lemma {:induction false} PickFree(s: seq<Run>, d: nat)
    requires Lasting(s)
    ensures Free(Pick(s, d))
  {
    if s != [] {
      PickFree(s[..|s| - 1], d);
    }
  }

  /** On its own, too, a weak run is followed by the same run of its level, and
      by no PDI. */
  lemma NextAlone(runs: seq<Run>, lo: nat, hi: nat, d: nat, k: nat, base: nat)
    requires Shaped(runs, base) && Quiet(runs) && Stretch(runs, lo, hi, d) && Member(runs, lo, hi, d, k)
             && IsWeak(runs[k].kind)
    ensures var p, j := Pick(runs[lo..hi], d), Rank(runs, lo, hi, d, k);
            && j < |p| && p[j] == Alone(runs[k]) && (SameAsNext(p, j) <==> SameAsNext(runs, k))
            && (j + 1 < |p| ==> !p[j + 1].kind.PDI?)
            && (SameAsNext(runs, k) ==>
                  && Member(runs, lo, hi, d, k + 1) && Rank(runs, lo, hi, d, k + 1) == j + 1
                  && p[j + 1] == Alone(runs[k + 1]))
  {
    hide Shaped;
    hide Pick;
    hide Rank;
    hide NextSkippingPdi;
    RankAt(runs, lo, hi, d, k);
    RankNext(runs, lo, hi, d, k);
    RankEnds(runs, lo, hi, d);
    NextQuiet(runs, k, base);
    if k + 1 < hi {
      QuietHere(runs, k);
      RankAt(runs, lo, hi, d, k + 1);
    }
  }

  lemma LevelsAbove(runs: seq<Run>, base: nat, k: nat)
    requires Shaped(runs, base) && k < |runs|
    ensures runs[k].level >= 0
  {
  }

  lemma BeforeAlone(runs: seq<Run>, lo: nat, hi: nat, d: nat, k: nat, base: nat)
    requires Shaped(runs, base) && Stretch(runs, lo, hi, d) && Member(runs, lo, hi, d, k) && Ordinary(runs[k].kind)
    ensures var p, j := Pick(runs[lo..hi], d), Rank(runs, lo, hi, d, k);
            j < |p| && (SameAsPrev(p, j) <==> SameAsPrev(runs, k)) && PrevType(p, j) == PrevType(runs, k)
  {
    hide Shaped;
    hide Pick;
    hide Rank;
    hide PrevFrom;
    hide PrevType;
    PrevAlone(runs, lo, hi, d, k);
    PrevQuiet(runs, k, base);
    assert runs[k].level >= 0 by { LevelsAbove(runs, base, k); }
  }

  /** The stretch `l` to `h` of `r` is what the stretch `lo` to `hi` has become,
      and run `m` of `r` is the next one. */
  ghost predicate Becomes(runs: seq<Run>, lo: nat, hi: nat, d: nat, k: nat, r: seq<Run>, l: nat, h: nat, m: nat) {
    && Stretch(runs, lo, hi, d) && Stretch(r, l, h, d) && k <= |runs| && m <= |r|
    && Off(r, l) == Off(runs, lo) && Off(r, h) == Off(runs, hi)
    && (k < lo ==> m <= l) && (k >= lo ==> l == lo && m > l) && (k < hi ==> m <= h) && (k >= hi ==> m >= h)
  }

  lemma StretchBounds(runs: seq<Run>, lo: nat, hi: nat, d: nat)
    requires Stretch(runs, lo, hi, d)
    ensures lo < hi <= |runs| && runs[lo].isolateLevel == d
  {
  }

  lemma MergeBecomes(runs: seq<Run>, lo: nat, hi: nat, d: nat, k: nat)
    requires Stretch(runs, lo, hi, d) && 0 < k < |runs| && runs[k - 1].isolateLevel == runs[k].isolateLevel
    ensures Becomes(runs, lo, hi, d, k, MergeWithPrev(runs, k), Shifted(lo, k), Shifted(hi, k), k)
    ensures Becomes(runs, lo, hi, d, k - 1, MergeWithPrev(runs, k), Shifted(lo, k), Shifted(hi, k), k)
  {
    hide Stretch;
    StretchMerged(runs, lo, hi, d, k);
    assert lo < hi <= |runs| by { StretchBounds(runs, lo, hi, d); }
    OffMerged(runs, k, Shifted(lo, k));
    if hi < |runs| || k < hi {
      OffMerged(runs, k, Shifted(hi, k));
    }
  }

  lemma StretchEnds(runs: seq<Run>, lo: nat, hi: nat, d: nat)
    requires Stretch(runs, lo, hi, d)
    ensures lo < hi <= |runs|
    ensures lo > 0 ==> runs[lo - 1].isolateLevel < d
    ensures hi < |runs| ==> runs[hi].isolateLevel < d
  {
  }

  /** What a turn makes of the stretch, seen alone: at one of its own runs it is
      a turn there; elsewhere nothing happens. */
  ghost predicate TurnsAlone(runs: seq<Run>, lo: nat, hi: nat, d: nat, k: nat, r: seq<Run>, l: nat, h: nat, m: nat,
                             p: seq<Run>, i: nat)
  {
    && Becomes(runs, lo, hi, d, k, r, l, h, m)
    && Pick(r[l..h], d) == (if Member(runs, lo, hi, d, k) then p else Pick(runs[lo..hi], d))
    && Rank(r, l, h, d, m) == (if Member(runs, lo, hi, d, k) then i else Rank(runs, lo, hi, d, k))
  }

  lemma OffSetAll(runs: seq<Run>, k: nat, kind: BidiType, lo: nat, hi: nat)
    requires k < |runs| && lo <= |runs| && hi <= |runs|
    ensures Off(SetKind(runs, k, kind), lo) == Off(runs, lo) && Off(SetKind(runs, k, kind), hi) == Off(runs, hi)
  {
    OffSet(runs, k, kind, lo);
    OffSet(runs, k, kind, hi);
  }

  lemma SetTurns(runs: seq<Run>, lo: nat, hi: nat, d: nat, k: nat, kind: BidiType)
    requires Stretch(runs, lo, hi, d) && k < |runs|
    ensures var p, j := Pick(runs[lo..hi], d), Rank(runs, lo, hi, d, k);
            && (Member(runs, lo, hi, d, k) ==> j < |p|)
            && TurnsAlone(runs, lo, hi, d, k, SetKind(runs, k, kind), lo, hi, k + 1,
                 if Member(runs, lo, hi, d, k) then SetKind(p, j, kind) else p, j + 1)
  {
    hide Pick;
    hide Rank;
    SetAlone(runs, lo, hi, d, k, kind);
    RankNext(runs, lo, hi, d, k);
    OffSetAll(runs, k, kind, lo, hi);
  }

  lemma MergeTurns(runs: seq<Run>, lo: nat, hi: nat, d: nat, k: nat)
    requires Stretch(runs, lo, hi, d) && 0 < k < |runs| && runs[k - 1].isolateLevel == runs[k].isolateLevel
    ensures var p, j := Pick(runs[lo..hi], d), Rank(runs, lo, hi, d, k);
            && (Member(runs, lo, hi, d, k) ==> 0 < j < |p|)
            && TurnsAlone(runs, lo, hi, d, k, MergeWithPrev(runs, k), Shifted(lo, k), Shifted(hi, k), k,
                 if Member(runs, lo, hi, d, k) then MergeWithPrev(p, j) else p, j)
  {
    hide Pick;
    hide Rank;
    hide Becomes;
    hide MergeWithPrev;
    hide Stretch;
    MergeAlone(runs, lo, hi, d, k);
    MergeBecomes(runs, lo, hi, d, k);
  }

  lemma BackTurns(runs: seq<Run>, lo: nat, hi: nat, d: nat, k: nat, base: nat)
    returns (l: nat, h: nat)
    requires Shaped(runs, base) && Stretch(runs, lo, hi, d) && k < |runs| && runs[k].kind.NSM?
    ensures var p, j, (r, k') := Pick(runs[lo..hi], d), Rank(runs, lo, hi, d, k), MarkBack(runs, k);
            && (Member(runs, lo, hi, d, k) ==> j < |p| && (SameAsPrev(p, j) <==> SameAsPrev(runs, k)))
            && TurnsAlone(runs, lo, hi, d, k, r, l, h, k' + 1,
                 if !Member(runs, lo, hi, d, k) then p
                 else if SameAsPrev(runs, k) then MergeWithPrev(p, j) else SetKind(p, j, PrevType(p, j)),
                 if SameAsPrev(runs, k) then j else j + 1)
  {
    hide Shaped;
    hide TurnsAlone;
    hide Pick;
    hide Rank;
    hide PrevType;
    hide MarkBack;
    hide MergeWithPrev;
    hide Stretch;
    BackQuiet(runs, k, base);
    PrevQuiet(runs, k, base);
    if Member(runs, lo, hi, d, k) {
      BeforeAlone(runs, lo, hi, d, k, base);
    }
    if SameAsPrev(runs, k) {
      l, h := Shifted(lo, k), Shifted(hi, k);
      MergeTurns(runs, lo, hi, d, k);
    } else {
      l, h := lo, hi;
      SetTurns(runs, lo, hi, d, k, PrevType(runs, k));
    }
  }

  lemma BecomesTwice(runs: seq<Run>, lo: nat, hi: nat, d: nat, k: nat, r: seq<Run>, l: nat, h: nat, m: nat,
                     r': seq<Run>, l': nat, h': nat, m': nat)
    requires Becomes(runs, lo, hi, d, k, r, l, h, m) && Becomes(r, l, h, d, m, r', l', h', m') && m != l && m != h
    ensures Becomes(runs, lo, hi, d, k, r', l', h', m')
  {
    hide Off;
  }

  /** The run that a turn has come to still belongs to the chain of the turn. */
  lemma StillMember(runs: seq<Run>, lo: nat, hi: nat, d: nat, k: nat, r: seq<Run>, l: nat, h: nat, m: nat)
    requires Becomes(runs, lo, hi, d, k, r, l, h, m) && k < |runs| && 0 < m < |r|
    requires r[m - 1].isolateLevel == r[m].isolateLevel == runs[k].isolateLevel
    ensures Member(r, l, h, d, m) <==> Member(runs, lo, hi, d, k)
  {
    hide Off;
    hide Stretch;
    StretchEnds(r, l, h, d);
    StretchEnds(runs, lo, hi, d);
    if Member(runs, lo, hi, d, k) {
      assert l < m < h;
    } else if k < lo {
      assert m <= l;
    }
  }

  lemma JoinTurns(runs: seq<Run>, lo: nat, hi: nat, d: nat, k: nat, r: seq<Run>, l: nat, h: nat, m: nat, p: seq<Run>,
                  i: nat)
    requires TurnsAlone(runs, lo, hi, d, k, r, l, h, m, p, i) && k < |runs| && 0 < m < |r|
    requires r[m - 1].isolateLevel == r[m].isolateLevel == runs[k].isolateLevel
    ensures Member(runs, lo, hi, d, k) ==> 0 < i < |p|
    ensures TurnsAlone(runs, lo, hi, d, k, MergeWithPrev(r, m), Shifted(l, m), Shifted(h, m), m,
              if Member(runs, lo, hi, d, k) then MergeWithPrev(p, i) else p, i)
  {
    hide Pick;
    hide Rank;
    assert Stretch(r, l, h, d);
    StillMember(runs, lo, hi, d, k, r, l, h, m);
    StretchMerged(r, l, h, d, m);
    MergeTurns(r, l, h, d, m);
    BecomesTwice(runs, lo, hi, d, k, r, l, h, m, MergeWithPrev(r, m), Shifted(l, m), Shifted(h, m), m);
  }

  lemma MarkTurns(runs: seq<Run>, lo: nat, hi: nat, d: nat, k: nat, base: nat)
    returns (l: nat, h: nat)
    requires Shaped(runs, base) && Quiet(runs) && Stretch(runs, lo, hi, d) && k < |runs| && runs[k].kind.NSM?
    ensures var p, j, (r, k') := Pick(runs[lo..hi], d), Rank(runs, lo, hi, d, k), MarkStep(runs, k);
            && (Member(runs, lo, hi, d, k) ==> j < |p|)
            && TurnsAlone(runs, lo, hi, d, k, r, l, h, k' + 1,
                 if !Member(runs, lo, hi, d, k) then p else MarkFree(p, j).0,
                 if !Member(runs, lo, hi, d, k) then j else MarkFree(p, j).1 + 1)
  {
    hide Shaped;
    hide Quiet;
    hide Becomes;
    hide Pick;
    hide Rank;
    hide PrevType;
    hide MarkBack;
    hide MergeWithPrev;
    hide Stretch;
    hide Prev;
    hide NextSkippingPdi;
    l, h := BackTurns(runs, lo, hi, d, k, base);
    BackQuiet(runs, k, base);
    MarkQuiet(runs, k, base);
    NextQuiet(runs, k, base);
    PrevQuiet(runs, k, base);
    if Member(runs, lo, hi, d, k) {
      NextAlone(runs, lo, hi, d, k, base);
      BeforeAlone(runs, lo, hi, d, k, base);
    }
    if SameAsNext(runs, k) && runs[k + 1].kind == PrevType(runs, k) {
      var (r, k') := MarkBack(runs, k);
      MarkedKeeps(runs, k);
      StretchBounds(runs, lo, hi, d);
      var p, j := Pick(runs[lo..hi], d), Rank(runs, lo, hi, d, k);
      JoinTurns(runs, lo, hi, d, k, r, l, h, k' + 1,
        if !Member(runs, lo, hi, d, k) then p
        else if SameAsPrev(runs, k) then MergeWithPrev(p, j) else SetKind(p, j, PrevType(p, j)),
        if SameAsPrev(runs, k) then j else j + 1);
      l, h := Shifted(l, k' + 1), Shifted(h, k' + 1);
    }
  }

  lemma NumberTurns(runs: seq<Run>, lo: nat, hi: nat, d: nat, k: nat, base: nat)
    requires Shaped(runs, base) && Quiet(runs) && Stretch(runs, lo, hi, d) && k < |runs| && runs[k].kind.EN?
    ensures var p, j := Pick(runs[lo..hi], d), Rank(runs, lo, hi, d, k);
            && (Member(runs, lo, hi, d, k) ==> j < |p|)
            && TurnsAlone(runs, lo, hi, d, k, NumberStep(runs, k), lo, hi, k + 1,
                 if Member(runs, lo, hi, d, k) then NumberFree(p, j) else p, j + 1)
  {
    hide Shaped;
    hide Quiet;
    hide Pick;
    hide Rank;
    hide Stretch;
    hide NextSkippingPdi;
    hide Off;
    NumberQuiet(runs, k, base);
    NextQuiet(runs, k, base);
    SetTurns(runs, lo, hi, d, k, AN);
    if Member(runs, lo, hi, d, k) {
      NextAlone(runs, lo, hi, d, k, base);
    }
    if SameAsNext(runs, k) && runs[k + 1].kind.NSM? {
      var r := SetKind(runs, k, AN);
      StillMember(runs, lo, hi, d, k, r, lo, hi, k + 1);
      SetAlone(r, lo, hi, d, k + 1, AN);
      StretchBounds(runs, lo, hi, d);
      OffSetAll(r, k + 1, AN, lo, hi);
    }
  }

  lemma StayTurns(runs: seq<Run>, lo: nat, hi: nat, d: nat, k: nat)
    requires Stretch(runs, lo, hi, d) && k < |runs|
    ensures var p, j := Pick(runs[lo..hi], d), Rank(runs, lo, hi, d, k);
            && (Member(runs, lo, hi, d, k) ==> j < |p| && p[j] == Alone(runs[k]))
            && TurnsAlone(runs, lo, hi, d, k, runs, lo, hi, k + 1, p, j + 1)
  {
    hide Pick;
    hide Rank;
    RankNext(runs, lo, hi, d, k);
    if Member(runs, lo, hi, d, k) {
      RankAt(runs, lo, hi, d, k);
    }
  }

  lemma LastingPart(runs: seq<Run>, lo: nat, hi: nat)
    requires Lasting(runs) && lo <= hi <= |runs|
    ensures Lasting(runs[lo..hi])
  {
  }

  lemma AloneTurn1(runs: seq<Run>, lo: nat, hi: nat, d: nat, k: nat, base: nat)
    requires Shaped(runs, base) && Quiet(runs) && Lasting(runs) && Member(runs, lo, hi, d, k)
             && Stretch(runs, lo, hi, d) && IsWeak(runs[k].kind)
    ensures var p, j := Pick(runs[lo..hi], d), Rank(runs, lo, hi, d, k);
            j < |p| && MarkStep(p, j) == MarkFree(p, j) && NumberStep(p, j) == NumberFree(p, j)
  {
    hide Shaped;
    hide Quiet;
    hide Pick;
    hide Rank;
    hide Stretch;
    hide MarkStep;
    hide NumberStep;
    hide MarkFree;
    hide NumberFree;
    hide Free;
    hide Lasting;
    StretchBounds(runs, lo, hi, d);
    LastingPart(runs, lo, hi);
    PickFree(runs[lo..hi], d);
    NextAlone(runs, lo, hi, d, k, base);
    var p, j := Pick(runs[lo..hi], d), Rank(runs, lo, hi, d, k);
    MarkFreeIs(p, j);
    NumberFreeIs(p, j);
  }

  /** A turn of the loop for W1 and W2. */
  lemma Turn1Turns(runs: seq<Run>, lo: nat, hi: nat, d: nat, k: nat, strong: BidiType, base: nat)
    returns (l: nat, h: nat)
    requires Shaped(runs, base) && Quiet(runs) && Lasting(runs) && Stretch(runs, lo, hi, d) && k < |runs|
    ensures var p, j, (r, k') := Pick(runs[lo..hi], d), Rank(runs, lo, hi, d, k), Turn1(runs, k, strong);
            && (Member(runs, lo, hi, d, k) ==> j < |p|)
            && TurnsAlone(runs, lo, hi, d, k, r, l, h, k',
                 if Member(runs, lo, hi, d, k) then Turn1(p, j, strong).0 else p,
                 if Member(runs, lo, hi, d, k) then Turn1(p, j, strong).1 else j)
  {
    hide Shaped;
    hide Quiet;
    hide Pick;
    hide Rank;
    hide Stretch;
    hide MarkStep;
    hide NumberStep;
    hide MarkFree;
    hide NumberFree;
    hide Becomes;
    hide Lasting;
    l, h := lo, hi;
    StretchBounds(runs, lo, hi, d);
    StayTurns(runs, lo, hi, d, k);
    if Member(runs, lo, hi, d, k) && IsWeak(runs[k].kind) {
      AloneTurn1(runs, lo, hi, d, k, base);
    }
    if runs[k].kind.NSM? {
      l, h := MarkTurns(runs, lo, hi, d, k, base);
    } else if runs[k].kind.EN? && strong.AL? {
      NumberTurns(runs, lo, hi, d, k, base);
    }
  }

  // ----- The loop for W1 and W2 -----

  lemma QuietSet(runs: seq<Run>, k: nat, kind: BidiType)
    requires Quiet(runs) && k < |runs| && (IsWeak(kind) ==> IsWeak(runs[k].kind)) && (kind.PDI? ==> runs[k].kind.PDI?)
    ensures Quiet(SetKind(runs, k, kind))
  {
    var r := SetKind(runs, k, kind);
    forall i | 0 < i < |r| ensures QuietPair(r[i - 1], r[i]) {
      assert QuietPair(runs[i - 1], runs[i]);
    }
  }

  lemma QuietMerge(runs: seq<Run>, k: nat)
    requires Quiet(runs) && 0 < k < |runs| && runs[k - 1].isolateLevel == runs[k].isolateLevel
    requires IsWeak(runs[k - 1].kind) ==> IsWeak(runs[k].kind)
    ensures Quiet(MergeWithPrev(runs, k))
  {
    var r := MergeWithPrev(runs, k);
    forall i | 0 < i < |r| ensures QuietPair(r[i - 1], r[i]) {
      if i < k {
        assert QuietPair(runs[i - 1], runs[i]);
      } else {
        assert QuietPair(runs[i], runs[i + 1]) by { QuietHere(runs, i); }
      }
    }
  }

  lemma BackStaysQuiet(runs: seq<Run>, k: nat, base: nat)
    requires Shaped(runs, base) && Quiet(runs) && k < |runs| && runs[k].kind.NSM?
    ensures var (r, k') := MarkBack(runs, k); Quiet(r) && r[k'].kind == PrevType(runs, k)
  {
    hide Shaped;
    hide Quiet;
    hide MarkBack;
    hide Prev;
    BackQuiet(runs, k, base);
    PrevQuiet(runs, k, base);
    if SameAsPrev(runs, k) {
      QuietMerge(runs, k);
    } else {
      QuietSet(runs, k, PrevType(runs, k));
    }
  }

  lemma Turn1StaysQuiet(runs: seq<Run>, k: nat, strong: BidiType, base: nat)
    requires Shaped(runs, base) && Quiet(runs) && k < |runs|
    ensures Quiet(Turn1(runs, k, strong).0)
  {
    hide Shaped;
    hide Quiet;
    hide MarkBack;
    hide Prev;
    hide NextSkippingPdi;
    hide MergeWithPrev;
    if runs[k].kind.NSM? {
      BackStaysQuiet(runs, k, base);
      MarkedKeeps(runs, k);
      NextOnLevel(runs, k);
      var (r, k') := MarkBack(runs, k);
      if MarkStep(runs, k) != (r, k') {
        QuietMerge(r, k' + 1);
      }
    } else if runs[k].kind.EN? && strong.AL? {
      NumberQuiet(runs, k, base);
      QuietSet(runs, k, AN);
      if SameAsNext(runs, k) {
        QuietSet(SetKind(runs, k, AN), k + 1, AN);
      }
    }
  }

  /** The memory of the chain is the one it would have alone. */
  ghost predicate Recalls(lo: nat, hi: nat, d: nat, k: nat, t: seq<BidiType>, u: seq<BidiType>) {
    |t| == |u| == STRONG_SLOTS && d < STRONG_SLOTS && (lo < k < hi ==> u[0] == t[d])
  }

  lemma RecallsFit(lo: nat, hi: nat, d: nat, k: nat, t: seq<BidiType>, u: seq<BidiType>)
    requires Recalls(lo, hi, d, k, t, u)
    ensures |t| == |u| == STRONG_SLOTS && d < STRONG_SLOTS
  {
  }

  lemma HeardAlone(runs: seq<Run>, lo: nat, hi: nat, d: nat, k: nat, t: seq<BidiType>, u: seq<BidiType>)
    requires Stretch(runs, lo, hi, d) && Member(runs, lo, hi, d, k) && Recalls(lo, hi, d, k, t, u)
             && runs[k].level >= 0
    ensures var p, j := Pick(runs[lo..hi], d), Rank(runs, lo, hi, d, k);
            j < |p| && p[j].isolateLevel == 0 && Heard(p, j, u)[0] == Heard(runs, k, t)[d]
  {
    hide Pick;
    hide Rank;
    hide PrevFrom;
    hide Stretch;
    StretchBounds(runs, lo, hi, d);
    PrevAlone(runs, lo, hi, d, k);
    if k == lo {
      assert PrevType(runs, k).IsStrong();
    }
  }

  lemma HeardElsewhere(runs: seq<Run>, lo: nat, hi: nat, d: nat, k: nat, r: seq<Run>, l: nat, h: nat, m: nat,
                       t: seq<BidiType>, u: seq<BidiType>)
    requires Becomes(runs, lo, hi, d, k, r, l, h, m) && k < |runs| && !Member(runs, lo, hi, d, k)
             && Recalls(lo, hi, d, k, t, u) && runs[k].isolateLevel < STRONG_SLOTS
    ensures Recalls(l, h, d, m, Heard(runs, k, t), u)
  {
    hide Off;
    hide PrevType;
  }

  lemma HeardHere(runs: seq<Run>, lo: nat, hi: nat, d: nat, k: nat, l: nat, h: nat, m: nat, t: seq<BidiType>,
                  u: seq<BidiType>)
    requires Stretch(runs, lo, hi, d) && Member(runs, lo, hi, d, k) && Recalls(lo, hi, d, k, t, u)
             && runs[k].level >= 0
    ensures var p, j := Pick(runs[lo..hi], d), Rank(runs, lo, hi, d, k);
            j < |p| && p[j].isolateLevel == 0 && Recalls(l, h, d, m, Heard(runs, k, t), Heard(p, j, u))
  {
    hide Pick;
    hide Rank;
    hide PrevType;
    hide Stretch;
    StretchBounds(runs, lo, hi, d);
    HeardAlone(runs, lo, hi, d, k, t, u);
  }

  lemma SoundLasting(runs: seq<Run>, base: nat, codes: seq<Run>, places: seq<Spot>)
    requires Sound(runs, base, codes, places)
    ensures Shaped(runs, base) && Lasting(runs)
  {
    hide KeptPos;
    hide Nested;
    forall m | 0 <= m < |runs| ensures runs[m].len > 0 {
      assert RunAligned(runs, codes, m);
    }
  }

  lemma {:induction false} PickFits(s: seq<Run>, d: nat)
    ensures IsolatesFit(Pick(s, d))
  {
    if s != [] {
      PickFits(s[..|s| - 1], d);
    }
  }

  lemma BecomesParts(runs: seq<Run>, lo: nat, hi: nat, d: nat, k: nat, r: seq<Run>, l: nat, h: nat, m: nat)
    requires Becomes(runs, lo, hi, d, k, r, l, h, m)
    ensures Stretch(r, l, h, d) && l < h <= |r| && m <= |r| && lo < hi <= |runs|
    ensures Off(r, l) == Off(runs, lo) && Off(r, h) == Off(runs, hi)
  {
  }

  /** W1 and W2 do to the chain in the list what they do to it alone. */
  lemma {:induction false} MarksAlone(runs: seq<Run>, k: nat, t: seq<BidiType>, lo: nat, hi: nat, d: nat,
                                      u: seq<BidiType>, base: nat, codes: seq<Run>, places: seq<Spot>)
    returns (l: nat, h: nat)
    requires IsolatesFit(runs) && Sound(runs, base, codes, places) && MarksDone(runs, k) && Quiet(runs) && k <= |runs|
    requires Stretch(runs, lo, hi, d) && Recalls(lo, hi, d, k, t, u)
    ensures IsolatesFit(Pick(runs[lo..hi], d))
    ensures var r := MarksFrom(runs, k, t);
            && Stretch(r, l, h, d) && Off(r, l) == Off(runs, lo) && Off(r, h) == Off(runs, hi) && Quiet(r)
            && Pick(r[l..h], d) == MarksFrom(Pick(runs[lo..hi], d), Rank(runs, lo, hi, d, k), u)
    decreases |runs| - k
  {
    hide Sound;
    hide Quiet;
    hide Stretch;
    hide Turn1;
    hide Heard;
    hide Recalls;
    hide Becomes;
    hide IsolatesFit;
    hide Lasting;
    hide Rank;
    hide Pick;
    StretchBounds(runs, lo, hi, d);
    var p, j := Pick(runs[lo..hi], d), Rank(runs, lo, hi, d, k);
    PickFits(runs[lo..hi], d);
    l, h := lo, hi;
    if k < |runs| {
      assert runs[k].isolateLevel < STRONG_SLOTS by { LevelFits(runs, k); }
      assert |t| == |u| == STRONG_SLOTS && d < STRONG_SLOTS by { RecallsFit(lo, hi, d, k, t, u); }
      var t', strong := Heard(runs, k, t), Heard(runs, k, t)[runs[k].isolateLevel];
      assert Shaped(runs, base) && Lasting(runs) by { SoundLasting(runs, base, codes, places); }
      var turn := Turn1(runs, k, strong);
      var l1, h1 := Turn1Turns(runs, lo, hi, d, k, strong, base);
      Turn1Fits(runs, k, strong);
      Turn1Sound(runs, k, strong, base, codes, places);
      Turn1StaysQuiet(runs, k, strong, base);
      BecomesParts(runs, lo, hi, d, k, turn.0, l1, h1, turn.1);
      if Member(runs, lo, hi, d, k) {
        assert runs[k].level >= 0 by { LevelsAbove(runs, base, k); }
        HeardHere(runs, lo, hi, d, k, l1, h1, turn.1, t, u);
        HeardAlone(runs, lo, hi, d, k, t, u);
        l, h := MarksAlone(turn.0, turn.1, t', l1, h1, d, Heard(p, j, u), base, codes, places);
      } else {
        HeardElsewhere(runs, lo, hi, d, k, turn.0, l1, h1, turn.1, t, u);
        l, h := MarksAlone(turn.0, turn.1, t', l1, h1, d, u, base, codes, places);
      }
    } else {
      RankEnds(runs, lo, hi, d);
    }
  }

  // ----- W3 to W7 -----

  /** What is carried to run `k` serves as well as what is carried to it alone. */
  ghost predicate CarriesAlike(t: BidiType, c: Carry, e: Carry) {
    c == e || (!c.orig.IsNumber() && !e.orig.IsNumber()) || !t.IsSeparatorOrTerminator()
  }

  /** What is carried to the run of the chain that comes at or after run `k`. */
  ghost predicate Carries(runs: seq<Run>, lo: nat, hi: nat, d: nat, k: nat, c: Carry, e: Carry) {
    && (k <= lo ==> e == Carry(true, ON))
    && (lo < k && Member(runs, lo, hi, d, k) ==> CarriesAlike(runs[k].kind, c, e))
  }

  /** Nothing is carried into an isolate. */
  lemma CarriesIn(runs: seq<Run>, lo: nat, hi: nat, d: nat, k: nat, c: Carry, e: Carry, base: nat)
    requires Shaped(runs, base) && Stretch(runs, lo, hi, d) && Member(runs, lo, hi, d, k)
             && Carries(runs, lo, hi, d, k, c, e) && NumberBehind(runs, k, c) && (k == 0 ==> !c.orig.IsNumber())
    ensures CarriesAlike(runs[k].kind, c, e)
  {
    hide Nested;
    if k == lo && k > 0 && !runs[k].kind.BS? {
      InnerNext(runs, k);
      InnerHigher(runs, k - 1, k, base);
    }
  }

  /** A weak run sees the same type after it, or else no number on either side. */
  lemma NextTypeAlone(runs: seq<Run>, lo: nat, hi: nat, d: nat, k: nat, base: nat)
    requires Shaped(runs, base) && Quiet(runs) && Lasting(runs) && Stretch(runs, lo, hi, d)
             && Member(runs, lo, hi, d, k) && IsWeak(runs[k].kind)
    ensures var p, j := Pick(runs[lo..hi], d), Rank(runs, lo, hi, d, k);
            && j < |p|
            && (NextType(p, j) == NextType(runs, k) || (!NextType(p, j).IsNumber() && !NextType(runs, k).IsNumber()))
  {
    hide Shaped;
    hide Quiet;
    hide Lasting;
    hide Pick;
    hide Rank;
    hide Stretch;
    hide NextSkippingPdi;
    hide Free;
    StretchBounds(runs, lo, hi, d);
    NextAlone(runs, lo, hi, d, k, base);
    NextQuiet(runs, k, base);
    LastingPart(runs, lo, hi);
    PickFree(runs[lo..hi], d);
    FreeChain(Pick(runs[lo..hi], d), Rank(runs, lo, hi, d, k));
  }

  lemma Turn2Alone(runs: seq<Run>, lo: nat, hi: nat, d: nat, k: nat, strong: BidiType, c: Carry, e: Carry, base: nat)
    requires Shaped(runs, base) && Quiet(runs) && Lasting(runs) && Stretch(runs, lo, hi, d)
             && Member(runs, lo, hi, d, k) && CarriesAlike(runs[k].kind, c, e)
    ensures var p, j := Pick(runs[lo..hi], d), Rank(runs, lo, hi, d, k);
            && j < |p|
            && var x, y := Turn2(runs, k, PrevType(runs, k), NextType(runs, k), strong, c),
                 Turn2(p, j, PrevType(p, j), NextType(p, j), strong, e);
               x.0 == y.0 && (LevelAfter(runs, k) == LevelAfter(p, j) ==> x.1 == y.1)
  {
    hide Shaped;
    hide Quiet;
    hide Lasting;
    hide Pick;
    hide Rank;
    hide Stretch;
    hide PrevType;
    hide NextType;
    hide LevelToDir;
    StretchBounds(runs, lo, hi, d);
    PrevAlone(runs, lo, hi, d, k);
    if IsWeak(runs[k].kind) {
      NextTypeAlone(runs, lo, hi, d, k, base);
    }
  }

  /** Past a run of another chain. */
  lemma CarriesPast(runs: seq<Run>, lo: nat, hi: nat, d: nat, k: nat, c: Carry, e: Carry, kind: BidiType, c': Carry,
                    base: nat)
    requires Shaped(runs, base) && Stretch(runs, lo, hi, d) && k < |runs| && !Member(runs, lo, hi, d, k)
             && Carries(runs, lo, hi, d, k, c, e)
    ensures Carries(SetKind(runs, k, kind), lo, hi, d, k + 1, c', e)
  {
    hide Nested;
    hide Prev;
    if lo < k + 1 && Member(runs, lo, hi, d, k + 1) {
      PrevAlone(runs, lo, hi, d, k + 1);
      GapIsPdi(runs, k + 1, base);
    }
  }

  /** Past a run of the chain. */
  lemma CarriesHere(runs: seq<Run>, lo: nat, hi: nat, d: nat, k: nat, kind: BidiType, c: Carry, e: Carry)
    requires Stretch(runs, lo, hi, d) && Member(runs, lo, hi, d, k)
    requires var p, j := Pick(runs[lo..hi], d), Rank(runs, lo, hi, d, k);
             j < |p| && (LevelAfter(runs, k) == LevelAfter(p, j) ==> c == e)
    ensures Carries(SetKind(runs, k, kind), lo, hi, d, k + 1, c, e)
  {
    hide Pick;
    hide Rank;
    if Member(runs, lo, hi, d, k + 1) {
      RankNext(runs, lo, hi, d, k);
      RankAt(runs, lo, hi, d, k + 1);
    }
  }

  lemma Turn2StaysQuiet(runs: seq<Run>, k: nat, strong: BidiType, c: Carry, base: nat, codes: seq<Run>,
                        places: seq<Spot>)
    requires SoundState2(runs, k, c, base, codes, places) && k < |runs| && Quiet(runs)
    ensures Quiet(Turned2(runs, k, strong, c).0)
  {
    hide SoundState2;
    hide Quiet;
    hide PrevType;
    hide NextType;
    Turn2Settles(runs, k, strong, c, base, codes, places);
    QuietSet(runs, k, Turn2(runs, k, PrevType(runs, k), NextType(runs, k), strong, c).0);
  }

  lemma RecallsNext(runs: seq<Run>, lo: nat, hi: nat, d: nat, k: nat, t: seq<BidiType>, u: seq<BidiType>)
    requires Stretch(runs, lo, hi, d) && k < |runs| && !Member(runs, lo, hi, d, k) && Recalls(lo, hi, d, k, t, u)
             && runs[k].isolateLevel < STRONG_SLOTS
    ensures Recalls(lo, hi, d, k + 1, Heard(runs, k, t), u)
  {
    hide PrevType;
  }

  lemma StateParts(runs: seq<Run>, k: nat, c: Carry, base: nat, codes: seq<Run>, places: seq<Spot>)
    requires SoundState2(runs, k, c, base, codes, places)
    ensures Sound(runs, base, codes, places) && k <= |runs|
    ensures NumberBehind(runs, k, c) && (k == 0 ==> !c.orig.IsNumber())
  {
  }

  /** W3 to W7 do to the chain in the list what they do to it alone. */
  lemma {:induction false} NumbersAlone(runs: seq<Run>, k: nat, t: seq<BidiType>, c: Carry, lo: nat, hi: nat, d: nat,
                                        u: seq<BidiType>, e: Carry, base: nat, codes: seq<Run>, places: seq<Spot>)
    requires IsolatesFit(runs) && SoundState2(runs, k, c, base, codes, places) && Quiet(runs)
    requires Stretch(runs, lo, hi, d) && Recalls(lo, hi, d, k, t, u) && Carries(runs, lo, hi, d, k, c, e)
    ensures IsolatesFit(Pick(runs[lo..hi], d)) && |t| == |u| == STRONG_SLOTS
    ensures var r := NumbersFrom(runs, k, t, c);
            && |r| == |runs| && Stretch(r, lo, hi, d)
            && Pick(r[lo..hi], d) == NumbersFrom(Pick(runs[lo..hi], d), Rank(runs, lo, hi, d, k), u, e)
    decreases |runs| - k
  {
    hide SoundState2;
    hide Sound;
    hide Quiet;
    hide Stretch;
    hide Turn2;
    hide PrevType;
    hide NextType;
    hide Heard;
    hide Recalls;
    hide Carries;
    hide CarriesAlike;
    hide IsolatesFit;
    hide Lasting;
    hide Rank;
    hide Pick;
    hide NumberBehind;
    hide Shaped;
    StretchBounds(runs, lo, hi, d);
    StateParts(runs, k, c, base, codes, places);
    var p, j := Pick(runs[lo..hi], d), Rank(runs, lo, hi, d, k);
    PickFits(runs[lo..hi], d);
    assert |t| == |u| == STRONG_SLOTS && d < STRONG_SLOTS by { RecallsFit(lo, hi, d, k, t, u); }
    if k < |runs| {
      assert runs[k].isolateLevel < STRONG_SLOTS by { LevelFits(runs, k); }
      var t', strong := Heard(runs, k, t), Heard(runs, k, t)[runs[k].isolateLevel];
      SoundLasting(runs, base, codes, places);
      var turn := Turn2(runs, k, PrevType(runs, k), NextType(runs, k), strong, c);
      var r := SetKind(runs, k, turn.0);
      Turn2Sound(runs, k, strong, c, base, codes, places);
      Turn2StaysQuiet(runs, k, strong, c, base, codes, places);
      KindFits(runs, k, turn.0);
      SetAlone(runs, lo, hi, d, k, turn.0);
      RankNext(runs, lo, hi, d, k);
      if Member(runs, lo, hi, d, k) {
        assert runs[k].level >= 0 by { LevelsAbove(runs, base, k); }
        CarriesIn(runs, lo, hi, d, k, c, e, base);
        Turn2Alone(runs, lo, hi, d, k, strong, c, e, base);
        HeardHere(runs, lo, hi, d, k, lo, hi, k + 1, t, u);
        HeardAlone(runs, lo, hi, d, k, t, u);
        var turn' := Turn2(p, j, PrevType(p, j), NextType(p, j), strong, e);
        CarriesHere(runs, lo, hi, d, k, turn.0, turn.1, turn'.1);
        NumbersAlone(r, k + 1, t', turn.1, lo, hi, d, Heard(p, j, u), turn'.1, base, codes, places);
      } else {
        CarriesPast(runs, lo, hi, d, k, c, e, turn.0, turn.1, base);
        RecallsNext(runs, lo, hi, d, k, t, u);
        NumbersAlone(r, k + 1, t', turn.1, lo, hi, d, u, e, base, codes, places);
      }
    } else {
      RankEnds(runs, lo, hi, d);
    }
  }

  // ----- Both loops -----

  lemma StartsAlone(runs: seq<Run>, lo: nat, hi: nat, d: nat, t: seq<BidiType>)
    requires Stretch(runs, lo, hi, d) && |t| == STRONG_SLOTS && d < STRONG_SLOTS
    ensures Recalls(lo, hi, d, 0, t, t) && Carries(runs, lo, hi, d, 0, Carry(true, ON), Carry(true, ON))
    ensures Rank(runs, lo, hi, d, 0) == 0
  {
    hide Pick;
    RankEnds(runs, lo, hi, d);
  }

  lemma StretchFits(runs: seq<Run>, lo: nat, hi: nat, d: nat)
    requires Stretch(runs, lo, hi, d) && IsolatesFit(runs)
    ensures d < STRONG_SLOTS && lo < hi <= |runs|
  {
  }

  /** In every quiet list, the runs on one isolate level of an isolate are
      resolved as they would be alone. */
  lemma WeakenedAlone(runs: seq<Run>, baseDir: BidiType, lo: nat, hi: nat, d: nat, base: nat, codes: seq<Run>,
                      places: seq<Spot>)
    returns (l: nat, h: nat)
    requires Sound(runs, base, codes, places) && Quiet(runs) && Stretch(runs, lo, hi, d)
    ensures IsolatesFit(runs) && lo < hi <= |runs| && IsolatesFit(Pick(runs[lo..hi], d))
    ensures var w := Weakened(runs, baseDir);
            && Stretch(w, l, h, d) && l < h <= |w| && Off(w, l) == Off(runs, lo) && Off(w, h) == Off(runs, hi)
            && Pick(w[l..h], d) == Weakened(Pick(runs[lo..hi], d), baseDir)
  {
    hide Sound;
    hide Quiet;
    hide Stretch;
    hide Recalls;
    hide Carries;
    hide Rank;
    hide Pick;
    hide SoundState2;
    assert IsolatesFit(runs) by { SoundLevels(runs, base, codes, places); }
    hide IsolatesFit;
    StretchFits(runs, lo, hi, d);
    var table := seq(STRONG_SLOTS, i => baseDir);
    NoMarksYet(runs);
    StartsAlone(runs, lo, hi, d, table);
    l, h := MarksAlone(runs, 0, table, lo, hi, d, table, base, codes, places);
    MarksSound(runs, 0, table, base, codes, places);
    var once := MarksFrom(runs, 0, table);
    StartSound2(once, base, codes, places);
    StartsAlone(once, l, h, d, table);
    StretchFits(once, l, h, d);
    NumbersAlone(once, 0, table, Carry(true, ON), l, h, d, table, Carry(true, ON), base, codes, places);
    OffSame(once, Weakened(runs, baseDir), l);
    OffSame(once, Weakened(runs, baseDir), h);
  }

  // ----- A chain on its own -----

  lemma {:induction false} RankFind(runs: seq<Run>, lo: nat, hi: nat, d: nat, j: nat, m: nat) returns (k: nat)
    requires lo <= m <= hi <= |runs| && j < Rank(runs, lo, hi, d, m)
    ensures Member(runs, lo, hi, d, k) && Rank(runs, lo, hi, d, k) == j
    decreases m
  {
    hide Rank;
    RankEnds(runs, lo, hi, d);
    RankNext(runs, lo, hi, d, m - 1);
    if Rank(runs, lo, hi, d, m - 1) == j {
      k := m - 1;
    } else {
      k := RankFind(runs, lo, hi, d, j, m - 1);
    }
  }

  lemma ShapedNested(runs: seq<Run>, base: nat)
    requires Shaped(runs, base)
    ensures Nested(runs, base)
  {
  }

  /** Neighbours on their own were neighbours in the list, or the second is a PDI
      and the first no weak run. */
  lemma NeighboursAlone(runs: seq<Run>, lo: nat, hi: nat, d: nat, base: nat, k: nat)
    requires Shaped(runs, base) && Quiet(runs) && Stretch(runs, lo, hi, d) && lo < k && Member(runs, lo, hi, d, k)
    ensures Prev(runs, k) >= 0
    ensures var q := Prev(runs, k);
            (q == k - 1 && runs[q].isolateLevel == runs[k].isolateLevel) || (runs[k].kind.PDI? && !IsWeak(runs[q].kind))
  {
    hide Shaped;
    hide Quiet;
    hide Pick;
    hide Rank;
    PrevAlone(runs, lo, hi, d, k);
    var q := Prev(runs, k);
    if q < k - 1 {
      ShapedNested(runs, base);
      GapIsPdi(runs, k, base);
      QuietHere(runs, q);
    }
  }

  lemma NotJoined(runs: seq<Run>, k: nat)
    requires Joined(runs, |runs|, false) && PlainBrackets(runs) && 0 < k < |runs|
    ensures !(runs[k - 1].kind.ET? && runs[k].kind.ET? && runs[k - 1].level == runs[k].level
              && runs[k - 1].isolateLevel == runs[k].isolateLevel)
  {
    var a, b := runs[k - 1], runs[k];
    assert !Joins(a, b, false);
    assert a.kind.ET? ==> a.bracket == NoBracket;
    assert b.kind.ET? ==> b.bracket == NoBracket;
  }

  lemma AloneCalm(runs: seq<Run>, lo: nat, hi: nat, d: nat, base: nat)
    requires Shaped(runs, base) && Quiet(runs) && Stretch(runs, lo, hi, d)
    requires Joined(runs, |runs|, false) && PlainBrackets(runs)
    ensures lo < hi <= |runs| && Calm(Pick(runs[lo..hi], d))
  {
    hide Shaped;
    hide Quiet;
    hide Pick;
    hide Rank;
    hide Prev;
    hide Stretch;
    hide Joined;
    hide PlainBrackets;
    StretchBounds(runs, lo, hi, d);
    var p := Pick(runs[lo..hi], d);
    RankEnds(runs, lo, hi, d);
    forall j | 0 < j < |p| ensures CalmPair(p[j - 1], p[j]) {
      var k := RankFind(runs, lo, hi, d, j, hi);
      PrevAlone(runs, lo, hi, d, k);
      NeighboursAlone(runs, lo, hi, d, base, k);
      NotJoined(runs, k);
      QuietHere(runs, k - 1);
    }
  }
}
