/** The loop for W1 and W2 computes what the two passes compute, on any text
    without isolates. */
module WeakProof1 {
  import opened BidiTypes
  import opened Runs
  import opened Chains
  import opened IsolateLinks
  import opened WeakRules
  import opened WeakPass1
  import opened Alignment
  import opened Compaction
  import opened WeakShape

  // ----- W1 and W2 as one recurrence -----

  lemma {:induction false} StrongSame(ks: seq<BidiType>, ls: seq<int>, base: nat, i: nat)
    requires i < |ls| == |ks|
    ensures Strong(W1(ks, ls, base), ls, base, i) == Strong(W1ToW2(ks, ls, base), ls, base, i)
  {
    if !Starts(ls, i) && !W1(ks, ls, base)[i - 1].IsStrong() {
      StrongSame(ks, ls, base, i - 1);
    }
  }

  /** A mark takes the final type of the character before it; a number depends
      on the last strong type; nothing else changes. */
  lemma Recurrence(ks: seq<BidiType>, ls: seq<int>, base: nat, i: nat)
    requires i < |ls| == |ks|
    ensures var w := W1ToW2(ks, ls, base);
            w[i] == if ks[i].NSM? then (if Starts(ls, i) then Sos(ls, base, i) else w[i - 1])
                    else if ks[i].EN? then (if Strong(w, ls, base, i).AL? then AN else EN)
                    else ks[i]
  {
    StrongSame(ks, ls, base, i);
    if ks[i].NSM? && !Starts(ls, i) {
      StrongSame(ks, ls, base, i - 1);
    }
  }

  lemma {:induction false} Marks(ks: seq<BidiType>, ls: seq<int>, base: nat, p: nat, n: nat, level: int)
    requires n > 0 && Alike(ks, ls, p, n, NSM, level)
    ensures var w := W1ToW2(ks, ls, base);
            Alike(w, ls, p, n, if Starts(ls, p) then Sos(ls, base, p) else w[p - 1], level)
    decreases n
  {
    hide W1ToW2;
    Recurrence(ks, ls, base, p + n - 1);
    if n > 1 {
      Marks(ks, ls, base, p, n - 1, level);
    }
  }

  lemma {:induction false} Numbers(ks: seq<BidiType>, ls: seq<int>, base: nat, p: nat, n: nat, level: int)
    requires n > 0 && Alike(ks, ls, p, n, EN, level)
    ensures var w := W1ToW2(ks, ls, base);
            && Alike(w, ls, p, n, if Strong(w, ls, base, p).AL? then AN else EN, level)
            && Strong(w, ls, base, p + n - 1) == Strong(w, ls, base, p)
    decreases n
  {
    hide W1ToW2;
    if n > 1 {
      Numbers(ks, ls, base, p, n - 1, level);
    }
    Recurrence(ks, ls, base, p + n - 1);
  }

  lemma {:induction false} Others(ks: seq<BidiType>, ls: seq<int>, base: nat, p: nat, n: nat, kind: BidiType,
                                  level: int)
    requires Alike(ks, ls, p, n, kind, level) && !kind.NSM? && !kind.EN?
    ensures Alike(W1ToW2(ks, ls, base), ls, p, n, kind, level)
  {
    hide W1ToW2;
    forall q | p <= q < p + n ensures W1ToW2(ks, ls, base)[q] == kind {
      Recurrence(ks, ls, base, q);
    }
  }

  /** Looking back over characters that are not strong. */
  lemma {:induction false} StrongAcross(w: seq<BidiType>, ls: seq<int>, base: nat, p: nat, n: nat, kind: BidiType,
                                        level: int)
    requires n > 0 && Alike(w, ls, p, n, kind, level) && p + n < |ls| && ls[p + n] == level
    ensures Strong(w, ls, base, p + n) == if kind.IsStrong() then kind else Strong(w, ls, base, p)
    decreases n
  {
    if !kind.IsStrong() && n > 1 {
      StrongAcross(w, ls, base, p, n - 1, kind, level);
    }
  }

  // ----- The loop invariant -----

  /** The mark after a number that became AN has been rewritten ahead of time. */
  ghost predicate Early(runs: seq<Run>, k: nat, ks: seq<BidiType>, ls: seq<int>) {
    && SameAsPrev(runs, k) && runs[k].kind.AN? && runs[k - 1].kind.AN?
    && Alike(ks, ls, Off(runs, k), runs[k].len, NSM, runs[k].level)
  }

  /** Before run `k`: the runs behind it are final, those ahead untouched. */
  ghost predicate State1(runs: seq<Run>, k: nat, ks: seq<BidiType>, ls: seq<int>, base: nat, last: BidiType) {
    && Free(runs) && k <= |runs|
    && Off(runs, |runs|) == |ks| == |ls|
    && (forall i | 0 <= i < k :: RunSpells(runs, i, W1ToW2(ks, ls, base), ls))
    && (forall i | k < i < |runs| :: RunSpells(runs, i, ks, ls))
    && (k < |runs| ==> RunSpells(runs, k, ks, ls) || Early(runs, k, ks, ls))
    && (k > 0 && !runs[k - 1].kind.IsStrong() ==> last == Strong(W1ToW2(ks, ls, base), ls, base, Off(runs, k - 1)))
    && (|ls| > 0 ==> ls[0] >= base)
  }

  lemma {:induction false} OffMonotone(runs: seq<Run>, i: nat, j: nat)
    requires i <= j <= |runs|
    ensures Off(runs, i) <= Off(runs, j)
  {
    if i < j {
      OffMonotone(runs, i, j - 1);
    }
  }

  lemma {:induction false} OffSet(runs: seq<Run>, k: nat, kind: BidiType, i: nat)
    requires k < |runs| && i <= |runs|
    ensures Off(SetKind(runs, k, kind), i) == Off(runs, i)
  {
    if i > 0 {
      OffSet(runs, k, kind, i - 1);
    }
  }

  /** What the second half of `State1` says about the characters around run `k`. */
  lemma Around(runs: seq<Run>, k: nat, ks: seq<BidiType>, ls: seq<int>, base: nat, last: BidiType)
    requires State1(runs, k, ks, ls, base, last) && k < |runs|
    ensures var p := Off(runs, k);
            && p + runs[k].len <= |ls| && ls[p] == runs[k].level
            && (k == 0 <==> p == 0)
            && (k > 0 ==> ls[p - 1] == runs[k - 1].level && W1ToW2(ks, ls, base)[p - 1] == runs[k - 1].kind)
  {
    hide W1ToW2;
    OffMonotone(runs, k + 1, |runs|);
    assert FreeRun(runs[k]);
    if k > 0 {
      assert FreeRun(runs[k - 1]);
      assert RunSpells(runs, k - 1, W1ToW2(ks, ls, base), ls);
      OffMonotone(runs, 0, k - 1);
    }
  }

  /** The `last_strong_stack` entry after its update is what W2 looks back to. */
  lemma LastStrong(runs: seq<Run>, k: nat, ks: seq<BidiType>, ls: seq<int>, base: nat, last: BidiType)
    requires State1(runs, k, ks, ls, base, last) && k < |runs|
    ensures var t := PrevType(runs, k);
            (if t.IsStrong() then t else last) == Strong(W1ToW2(ks, ls, base), ls, base, Off(runs, k))
    ensures !SameAsPrev(runs, k) ==> PrevType(runs, k) == Sos(ls, base, Off(runs, k)) && Starts(ls, Off(runs, k))
    ensures SameAsPrev(runs, k) ==> PrevType(runs, k) == runs[k - 1].kind && !Starts(ls, Off(runs, k))
  {
    hide W1ToW2;
    Around(runs, k, ks, ls, base, last);
    FreeChain(runs, k);
    assert FreeRun(runs[k]);
    if SameAsPrev(runs, k) {
      assert RunSpells(runs, k - 1, W1ToW2(ks, ls, base), ls);
      assert FreeRun(runs[k - 1]);
      StrongAcross(W1ToW2(ks, ls, base), ls, base, Off(runs, k - 1), runs[k - 1].len, runs[k - 1].kind,
        runs[k - 1].level);
    }
  }

  /** W1 leaves no mark, and an EN that W2 leaves has no AL before it. */
  lemma {:induction false} AfterW2(ks: seq<BidiType>, ls: seq<int>, base: nat, i: nat)
    requires i < |ls| == |ks|
    ensures var w := W1ToW2(ks, ls, base); !w[i].NSM? && (w[i].EN? ==> !Strong(w, ls, base, i).AL?)
  {
    hide W1ToW2;
    Recurrence(ks, ls, base, i);
    if ks[i].NSM? && !Starts(ls, i) {
      AfterW2(ks, ls, base, i - 1);
    }
  }

  // ----- One turn of the loop -----

  ghost function Updated(runs: seq<Run>, k: nat, last: BidiType): BidiType
    requires k < |runs|
  {
    if PrevType(runs, k).IsStrong() then PrevType(runs, k) else last
  }

  /** A run that needs no change. */
  lemma PlainStep(runs: seq<Run>, k: nat, ks: seq<BidiType>, ls: seq<int>, base: nat, last: BidiType)
    requires State1(runs, k, ks, ls, base, last) && k < |runs| && !runs[k].kind.NSM?
    requires !(runs[k].kind.EN? && Updated(runs, k, last).AL?)
    ensures State1(runs, k + 1, ks, ls, base, Updated(runs, k, last))
  {
    hide W1ToW2;
    var p, n, v := Off(runs, k), runs[k].len, runs[k].level;
    LastStrong(runs, k, ks, ls, base, last);
    Around(runs, k, ks, ls, base, last);
    assert FreeRun(runs[k]);
    if Early(runs, k, ks, ls) {
      Marks(ks, ls, base, p, n, v);
    } else if runs[k].kind.EN? {
      Numbers(ks, ls, base, p, n, v);
    } else {
      Others(ks, ls, base, p, n, runs[k].kind, v);
    }
    assert RunSpells(runs, k, W1ToW2(ks, ls, base), ls);
  }

  /** W2 turns a number into AN, and the mark after it with it. */
  lemma NumberFreeStep(runs: seq<Run>, k: nat, ks: seq<BidiType>, ls: seq<int>, base: nat, last: BidiType)
    requires State1(runs, k, ks, ls, base, last) && k < |runs| && runs[k].kind.EN? && Updated(runs, k, last).AL?
    ensures State1(NumberFree(runs, k), k + 1, ks, ls, base, Updated(runs, k, last))
  {
    hide W1ToW2;
    var w, r := W1ToW2(ks, ls, base), NumberFree(runs, k);
    LastStrong(runs, k, ks, ls, base, last);
    Around(runs, k, ks, ls, base, last);
    assert FreeRun(runs[k]);
    Numbers(ks, ls, base, Off(runs, k), runs[k].len, runs[k].level);
    forall i | 0 <= i <= |runs| ensures Off(r, i) == Off(runs, i) {
      OffSet(runs, k, AN, i);
      if k + 1 < |runs| {
        OffSet(SetKind(runs, k, AN), k + 1, AN, i);
      }
    }
    forall i | 0 <= i < |r| ensures i <= k ==> RunSpells(r, i, w, ls) {
      if i < k {
        assert RunSpells(runs, i, w, ls);
      }
    }
    forall i | k + 1 < i < |r| ensures RunSpells(r, i, ks, ls) {
      assert RunSpells(runs, i, ks, ls);
    }
    forall i | 0 <= i < |r| ensures FreeRun(r[i]) {
      assert FreeRun(runs[i]);
    }
    if k + 1 < |r| {
      assert RunSpells(runs, k + 1, ks, ls);
    }
  }

  /** A mark at the start of a level run takes the type before the run. */
  lemma SetMarkStep(runs: seq<Run>, k: nat, ks: seq<BidiType>, ls: seq<int>, base: nat, last: BidiType)
    requires State1(runs, k, ks, ls, base, last) && k < |runs| && runs[k].kind.NSM? && !SameAsPrev(runs, k)
    ensures State1(SetKind(runs, k, PrevType(runs, k)), k + 1, ks, ls, base, Updated(runs, k, last))
  {
    hide W1ToW2;
    var w, r := W1ToW2(ks, ls, base), SetKind(runs, k, PrevType(runs, k));
    LastStrong(runs, k, ks, ls, base, last);
    Around(runs, k, ks, ls, base, last);
    assert FreeRun(runs[k]);
    Marks(ks, ls, base, Off(runs, k), runs[k].len, runs[k].level);
    forall i | 0 <= i <= |runs| ensures Off(r, i) == Off(runs, i) {
      OffSet(runs, k, PrevType(runs, k), i);
    }
    forall i | 0 <= i < |r| ensures if i <= k then RunSpells(r, i, w, ls) else RunSpells(r, i, ks, ls) {
      if i < k {
        assert RunSpells(runs, i, w, ls);
      } else if i > k {
        assert RunSpells(runs, i, ks, ls);
      }
    }
    forall i | 0 <= i < |r| ensures FreeRun(r[i]) {
      assert FreeRun(runs[i]);
    }
  }

  lemma MergeSpells(runs: seq<Run>, k: nat, i: nat, x: seq<BidiType>, ls: seq<int>)
    requires 0 < k < |runs| && i < |runs| - 1
    requires i < k - 1 ==> RunSpells(runs, i, x, ls)
    requires i == k - 1 ==>
               RunSpells(runs, k - 1, x, ls)
               && Alike(x, ls, Off(runs, k), runs[k].len, runs[k - 1].kind, runs[k - 1].level)
    requires i >= k ==> RunSpells(runs, i + 1, x, ls)
    ensures RunSpells(MergeWithPrev(runs, k), i, x, ls)
  {
    OffMerged(runs, k, i);
  }

  lemma MergeFree(runs: seq<Run>, k: nat)
    requires 0 < k < |runs| && Free(runs)
    ensures Free(MergeWithPrev(runs, k))
  {
    var r := MergeWithPrev(runs, k);
    forall i | 0 <= i < |r| ensures FreeRun(r[i]) {
      assert FreeRun(runs[if i < k then i else i + 1]);
      assert FreeRun(runs[k]);
    }
  }

  /** A mark inside a level run joins the run before it. */
  lemma JoinBackStep(runs: seq<Run>, k: nat, ks: seq<BidiType>, ls: seq<int>, base: nat, last: BidiType)
    requires State1(runs, k, ks, ls, base, last) && SameAsPrev(runs, k) && runs[k].kind.NSM?
    ensures State1(MergeWithPrev(runs, k), k, ks, ls, base, Updated(runs, k, last))
  {
    hide W1ToW2;
    var w, r := W1ToW2(ks, ls, base), MergeWithPrev(runs, k);
    LastStrong(runs, k, ks, ls, base, last);
    Around(runs, k, ks, ls, base, last);
    assert FreeRun(runs[k]);
    assert FreeRun(runs[k - 1]);
    assert RunSpells(runs, k, ks, ls);
    Marks(ks, ls, base, Off(runs, k), runs[k].len, runs[k].level);
    MergeFree(runs, k);
    OffMerged(runs, k, k - 1);
    OffMerged(runs, k, |r|);
    forall i | 0 <= i < |r| ensures if i < k then RunSpells(r, i, w, ls) else RunSpells(r, i, ks, ls) {
      if i < k {
        assert RunSpells(runs, i, w, ls);
        MergeSpells(runs, k, i, w, ls);
      } else {
        assert RunSpells(runs, i + 1, ks, ls);
        MergeSpells(runs, k, i, ks, ls);
      }
    }
  }

  /** The run ahead, alike already, joins the one just finished. */
  lemma JoinNextStep(runs: seq<Run>, k: nat, ks: seq<BidiType>, ls: seq<int>, base: nat, last: BidiType)
    requires State1(runs, k, ks, ls, base, last) && 0 < k < |runs| && SameAsPrev(runs, k)
             && runs[k].kind == runs[k - 1].kind
    requires RunSpells(runs, k, ks, ls)
    ensures State1(MergeWithPrev(runs, k), k, ks, ls, base, last)
  {
    hide W1ToW2;
    var w, r, t := W1ToW2(ks, ls, base), MergeWithPrev(runs, k), runs[k].kind;
    var p := Off(runs, k);
    LastStrong(runs, k, ks, ls, base, last);
    Around(runs, k, ks, ls, base, last);
    assert FreeRun(runs[k]);
    assert FreeRun(runs[k - 1]);
    AfterW2(ks, ls, base, p - 1);
    if t.EN? {
      Numbers(ks, ls, base, p, runs[k].len, runs[k].level);
    } else {
      Others(ks, ls, base, p, runs[k].len, t, runs[k].level);
    }
    MergeFree(runs, k);
    OffMerged(runs, k, k - 1);
    OffMerged(runs, k, |r|);
    forall i | 0 <= i < |r| ensures if i < k then RunSpells(r, i, w, ls) else RunSpells(r, i, ks, ls) {
      if i < k {
        assert RunSpells(runs, i, w, ls);
        MergeSpells(runs, k, i, w, ls);
      } else {
        assert RunSpells(runs, i + 1, ks, ls);
        MergeSpells(runs, k, i, ks, ls);
      }
    }
  }

  lemma Ahead(runs: seq<Run>, k: nat, ks: seq<BidiType>, ls: seq<int>, base: nat, last: BidiType)
    requires State1(runs, k, ks, ls, base, last)
    ensures k + 1 < |runs| ==> RunSpells(runs, k + 1, ks, ls)
  {
  }

  lemma SetSpells(runs: seq<Run>, k: nat, kind: BidiType, i: nat, ks: seq<BidiType>, ls: seq<int>)
    requires k < |runs| && i < |runs| && i != k && RunSpells(runs, i, ks, ls)
    ensures RunSpells(SetKind(runs, k, kind), i, ks, ls)
  {
    OffSet(runs, k, kind, i);
  }

  lemma MarkFreeStep(runs: seq<Run>, k: nat, ks: seq<BidiType>, ls: seq<int>, base: nat, last: BidiType)
    requires State1(runs, k, ks, ls, base, last) && k < |runs| && runs[k].kind.NSM?
    ensures var (r, k') := MarkFree(runs, k); State1(r, k' + 1, ks, ls, base, Updated(runs, k, last))
  {
    hide State1;
    hide RunSpells;
    Ahead(runs, k, ks, ls, base, last);
    LastStrong(runs, k, ks, ls, base, last);
    if SameAsPrev(runs, k) {
      JoinBackStep(runs, k, ks, ls, base, last);
      var r := MergeWithPrev(runs, k);
      if SameAsNext(runs, k) && runs[k + 1].kind == PrevType(runs, k) {
        MergeSpells(runs, k, k, ks, ls);
        JoinNextStep(r, k, ks, ls, base, Updated(runs, k, last));
      }
    } else {
      SetMarkStep(runs, k, ks, ls, base, last);
      var r := SetKind(runs, k, PrevType(runs, k));
      if SameAsNext(runs, k) && runs[k + 1].kind == PrevType(runs, k) {
        SetSpells(runs, k, PrevType(runs, k), k + 1, ks, ls);
        JoinNextStep(r, k + 1, ks, ls, base, Updated(runs, k, last));
      }
    }
  }

  // ----- The list stays calm -----

  lemma CalmSet(runs: seq<Run>, k: nat, kind: BidiType)
    requires Calm(runs) && k < |runs| && !IsWeak(kind) && !kind.PDI?
    ensures Calm(SetKind(runs, k, kind))
  {
    var r := SetKind(runs, k, kind);
    forall i | 0 < i < |r| ensures CalmPair(r[i - 1], r[i]) {
      assert CalmPair(runs[i - 1], runs[i]);
    }
  }

  lemma CalmMark(runs: seq<Run>, k: nat)
    requires Free(runs) && Calm(runs) && k < |runs| && runs[k].kind.NSM?
    ensures Calm(MarkFree(runs, k).0)
  {
    hide FreeRun;
    hide Prev;
    FreeChain(runs, k);
    assert FreeRun(runs[k]);
    var r := MarkFree(runs, k).0;
    var gone := |runs| - |r|;
    forall i | 0 < i < |r| ensures CalmPair(r[i - 1], r[i]) {
      assert CalmPair(runs[i - 1], runs[i]);
      if i + gone < |runs| {
        assert CalmPair(runs[i + gone - 1], runs[i + gone]);
      }
    }
  }

  // ----- The loop -----

  /** What the theorem assumes of the text. */
  ghost predicate Plain(runs: seq<Run>, ks: seq<BidiType>, ls: seq<int>, base: nat) {
    Free(runs) && Calm(runs) && Spells(runs, ks, ls) && (|ls| > 0 ==> ls[0] >= base)
  }

  lemma StartState1(runs: seq<Run>, ks: seq<BidiType>, ls: seq<int>, base: nat, last: BidiType)
    requires Plain(runs, ks, ls, base)
    ensures State1(runs, 0, ks, ls, base, last)
  {
  }

  lemma EndState1(runs: seq<Run>, ks: seq<BidiType>, ls: seq<int>, base: nat, last: BidiType)
    requires State1(runs, |runs|, ks, ls, base, last)
    ensures Free(runs) && Spells(runs, W1ToW2(ks, ls, base), ls)
  {
  }

  lemma CalmNumber(runs: seq<Run>, k: nat)
    requires Calm(runs) && k < |runs|
    ensures Calm(NumberFree(runs, k))
  {
    CalmSet(runs, k, AN);
    if k + 1 < |runs| {
      CalmSet(SetKind(runs, k, AN), k + 1, AN);
    }
  }

  /** The body of the loop, given the strong type that governs run `k`. */
  function Turn1(runs: seq<Run>, k: nat, strong: BidiType): (r: (seq<Run>, nat))
    requires k < |runs|
    ensures r.1 <= |r.0| && |r.0| - r.1 < |runs| - k
  {
    if runs[k].kind.NSM? then var (r, k') := MarkStep(runs, k); (r, k' + 1)
    else if runs[k].kind.EN? && strong.AL? then (NumberStep(runs, k), k + 1)
    else (runs, k + 1)
  }

  lemma Turn1Fits(runs: seq<Run>, k: nat, strong: BidiType)
    requires k < |runs| && IsolatesFit(runs)
    ensures IsolatesFit(Turn1(runs, k, strong).0)
  {
    hide MarkStep;
    hide NumberStep;
    MarkFits(runs, k);
  }

  lemma Turn1Sound(runs: seq<Run>, k: nat, strong: BidiType, base: nat, codes: seq<Run>, places: seq<Spot>)
    requires Sound(runs, base, codes, places) && k < |runs| && MarksDone(runs, k)
    ensures var (r, k') := Turn1(runs, k, strong); Sound(r, base, codes, places) && MarksDone(r, k')
  {
    hide Sound;
    hide MarkStep;
    hide NumberStep;
    if runs[k].kind.NSM? {
      MarkStepSound(runs, k, base, codes, places);
    } else if runs[k].kind.EN? && strong.AL? {
      NumberStepSound(runs, k, base, codes, places);
    }
  }

  lemma NoMarksYet(runs: seq<Run>)
    ensures MarksDone(runs, 0)
  {
  }

  lemma Turn1State(runs: seq<Run>, k: nat, ks: seq<BidiType>, ls: seq<int>, base: nat, last: BidiType)
    requires State1(runs, k, ks, ls, base, last) && Calm(runs) && k < |runs|
    ensures var (r, k') := Turn1(runs, k, Updated(runs, k, last));
            State1(r, k', ks, ls, base, Updated(runs, k, last)) && Calm(r)
    ensures runs[k].isolateLevel == 0
  {
    hide Calm;
    hide RunSpells;
    hide W1ToW2;
    assert FreeRun(runs[k]);
    if k + 1 < |runs| && IsWeak(runs[k].kind) {
      CalmHere(runs, k);
    }
    if runs[k].kind.NSM? {
      MarkFreeIs(runs, k);
      MarkFreeStep(runs, k, ks, ls, base, last);
      CalmMark(runs, k);
    } else if runs[k].kind.EN? && Updated(runs, k, last).AL? {
      NumberFreeIs(runs, k);
      NumberFreeStep(runs, k, ks, ls, base, last);
      CalmNumber(runs, k);
    } else {
      PlainStep(runs, k, ks, ls, base, last);
    }
  }

  /** What the loop for W1 and W2 leaves from run `k` on, with the strong types
      heard so far. */
  ghost function MarksFrom(runs: seq<Run>, k: nat, table: seq<BidiType>): (r: seq<Run>)
    requires IsolatesFit(runs) && |table| == STRONG_SLOTS
    ensures IsolatesFit(r)
    decreases |runs| - k
  {
    if k >= |runs| then runs
    else
      var t := Heard(runs, k, table);
      var r := Turn1(runs, k, t[runs[k].isolateLevel]);
      Turn1Fits(runs, k, t[runs[k].isolateLevel]);
      MarksFrom(r.0, r.1, t)
  }

  /** The loop for W1 and W2.  The memory of strong types starts out arbitrary
      but for its first entry. */
  method ResolveMarksAndNumbers(runs0: seq<Run>, links0: Links, baseDir: BidiType)
    returns (runs: seq<Run>, links: Links, ghost table: seq<BidiType>)
    requires IsolatesFit(runs0) && Agree(runs0, links0)
    ensures |table| == STRONG_SLOTS && table[0] == baseDir
    ensures runs == MarksFrom(runs0, 0, table) && Agree(runs, links)
  {
    hide Agree;
    hide IsolatesFit;
    hide Prev;
    hide NextSkippingPdi;
    hide MarkStep;
    hide NumberStep;
    runs, links := runs0, links0;
    var lastStrong := new BidiType[STRONG_SLOTS];
    lastStrong[0] := baseDir;
    table := lastStrong[..];
    var k: nat := 0;
    while k < |runs|
      invariant k <= |runs| && IsolatesFit(runs) && Agree(runs, links)
      invariant MarksFrom(runs, k, lastStrong[..]) == MarksFrom(runs0, 0, table)
      decreases |runs| - k
    {
      LevelFits(runs, k);
      ghost var t := Heard(runs, k, lastStrong[..]);
      var iso := runs[k].isolateLevel;
      var prev := GetAdjacentRun(runs, links, k, false);
      var next := GetAdjacentRun(runs, links, k, true);
      var prevType := TypeSeen(runs, k, prev);
      if prevType.IsStrong() {
        lastStrong[iso] := prevType;
      }
      assert lastStrong[..] == t;
      Turn1Fits(runs, k, lastStrong[iso]);
      if runs[k].kind.NSM? {
        runs, links, k := MarkRun(runs, links, k, prev, next);
      } else if runs[k].kind.EN? && lastStrong[iso].AL? {
        ghost var was := runs;
        runs := NumberRun(runs, k, next);
        AgreeSame(was, runs, links);
      }
      k := k + 1;
    }
  }

  lemma State1Bounds(runs: seq<Run>, k: nat, ks: seq<BidiType>, ls: seq<int>, base: nat, last: BidiType)
    requires State1(runs, k, ks, ls, base, last)
    ensures k <= |runs| && (|ls| > 0 ==> ls[0] >= base)
  {
  }

  /** On a text without isolates every character gets the type that W1 and W2
      give it. */
  lemma {:induction false} MarksPlain(runs: seq<Run>, k: nat, table: seq<BidiType>, ks: seq<BidiType>, ls: seq<int>,
                                      base: nat)
    requires IsolatesFit(runs) && |table| == STRONG_SLOTS && State1(runs, k, ks, ls, base, table[0]) && Calm(runs)
    ensures Plain(MarksFrom(runs, k, table), W1ToW2(ks, ls, base), ls, base)
    decreases |runs| - k
  {
    hide State1;
    hide W1ToW2;
    hide Free;
    hide Calm;
    hide Turn1;
    hide Spells;
    State1Bounds(runs, k, ks, ls, base, table[0]);
    if k < |runs| {
      Turn1State(runs, k, ks, ls, base, table[0]);
      var t := Heard(runs, k, table);
      var r := Turn1(runs, k, t[0]);
      Turn1Fits(runs, k, t[0]);
      MarksPlain(r.0, r.1, t, ks, ls, base);
    } else {
      EndState1(runs, ks, ls, base, table[0]);
    }
  }

  /** With or without isolates the list keeps its shape, and no mark is left. */
  lemma {:induction false} MarksSound(runs: seq<Run>, k: nat, table: seq<BidiType>, base: nat, codes: seq<Run>,
                                      places: seq<Spot>)
    requires IsolatesFit(runs) && |table| == STRONG_SLOTS && Sound(runs, base, codes, places) && MarksDone(runs, k)
    ensures var r := MarksFrom(runs, k, table); Sound(r, base, codes, places) && MarksDone(r, |r|)
    decreases |runs| - k
  {
    hide Sound;
    hide Turn1;
    if k < |runs| {
      var t := Heard(runs, k, table);
      var r := Turn1(runs, k, t[runs[k].isolateLevel]);
      Turn1Fits(runs, k, t[runs[k].isolateLevel]);
      Turn1Sound(runs, k, t[runs[k].isolateLevel], base, codes, places);
      MarksSound(r.0, r.1, t, base, codes, places);
    }
  }
}
