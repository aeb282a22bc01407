/** What weak-type resolution may do to a single character, in any text, with
    or without isolates. */
module WeakEffects {
  import opened BidiTypes
  import opened Runs
  import opened Chains
  import opened NextRunCache
  import opened IsolateLinks
  import opened Nesting
  import opened Alignment
  import opened Compaction
  import opened WeakPass1
  import opened WeakShape
  import opened WeakProof1
  import opened WeakPass2
  import opened WeakProof2

  /** W1 and W2: only marks and European numbers change. */
  predicate Marked(a: BidiType, b: BidiType) { a == b || a.NSM? || (a.EN? && b.AN?) }

  /** W3 to W7: letters, other numbers and neutrals stay. */
  predicate Numbered(a: BidiType, b: BidiType) {
    match a
    case AL => b.RTL?
    case EN => b.EN? || b.LTR?
    case ES => b.EN? || b.LTR? || b.ON?
    case CS => b.EN? || b.LTR? || b.AN? || b.ON?
    case ET => b.EN? || b.LTR? || b.ON?
    case _ => a == b
  }

  predicate MayBecome(a: BidiType, b: BidiType) {
    match a
    case NSM => SettledKind(b)
    case AL => b.RTL?
    case EN => b.EN? || b.LTR? || b.AN?
    case ES => b.EN? || b.LTR? || b.ON?
    case CS => b.EN? || b.LTR? || b.AN? || b.ON?
    case ET => b.EN? || b.LTR? || b.ON?
    case _ => a == b
  }

  // ----- Runs and their characters -----

  /** Every character of `b` has a type that `rel` allows for it in `a`. */
  ghost predicate Through(rel: (BidiType, BidiType) -> bool, a: seq<Spot>, b: seq<Spot>) {
    |a| == |b| && forall j | 0 <= j < |a| :: rel(a[j].kind, b[j].kind)
  }

  lemma {:induction false} KindsThrough(rel: (BidiType, BidiType) -> bool, a: seq<Run>, b: seq<Run>)
    requires |a| == |b| && forall i | 0 <= i < |a| :: a[i].len == b[i].len && rel(a[i].kind, b[i].kind)
    ensures Through(rel, Spots(a, Sharp), Spots(b, Sharp))
    decreases |a|
  {
    if a != [] {
      KindsThrough(rel, a[..|a| - 1], b[..|a| - 1]);
    }
  }

  // ----- W1 and W2 -----

  ghost predicate MarkedSpots(a: seq<Run>, b: seq<Run>) {
    Through((x, y) => Marked(x, y), Spots(a, Sharp), Spots(b, Sharp))
  }

  lemma MarkedTwice(a: seq<Run>, b: seq<Run>, c: seq<Run>)
    requires MarkedSpots(a, b) && MarkedSpots(b, c)
    ensures MarkedSpots(a, c)
  {
    hide Spots;
  }

  lemma MarkedSet(runs: seq<Run>, k: nat, kind: BidiType)
    requires k < |runs| && Marked(runs[k].kind, kind)
    ensures MarkedSpots(runs, SetKind(runs, k, kind))
  {
    hide Spots;
    KindsThrough((x, y) => Marked(x, y), runs, SetKind(runs, k, kind));
  }

  lemma MarkedSame(a: seq<Run>, b: seq<Run>)
    requires Spots(a, Sharp) == Spots(b, Sharp)
    ensures MarkedSpots(a, b)
  {
    hide Spots;
  }

  /** A mark that joins the run before it takes its type. */
  lemma MarkedMerge(runs: seq<Run>, k: nat)
    requires Mergeable(runs, k) && (runs[k].kind.NSM? || runs[k].kind == runs[k - 1].kind)
    ensures MarkedSpots(runs, MergeWithPrev(runs, k))
  {
    hide Spots;
    hide MarkedSpots;
    var r := SetKind(runs, k, runs[k - 1].kind);
    MarkedSet(runs, k, runs[k - 1].kind);
    assert MergeWithPrev(r, k) == MergeWithPrev(runs, k);
    SpotsMerged(r, k, Sharp);
    MarkedSame(r, MergeWithPrev(runs, k));
    MarkedTwice(runs, r, MergeWithPrev(runs, k));
  }

  lemma MarkBackMarks(runs: seq<Run>, k: nat, base: nat)
    requires Shaped(runs, base) && k < |runs| && runs[k].kind.NSM?
    ensures var (r, k') := MarkBack(runs, k);
            && MarkedSpots(runs, r) && r[k'].kind == PrevType(runs, k)
            && r[k'].level == runs[k].level && (k + 1 < |runs| ==> r[k' + 1] == runs[k + 1])
  {
    hide Shaped;
    hide MarkedSpots;
    hide Prev;
    MarkPrev(runs, k, base);
    var r := if k > 0 && runs[k - 1].kind.IsIsolate() then SetKind(runs, k, ON) else runs;
    if LevelAt(runs, Prev(runs, k)) != runs[k].level {
      MarkedSet(runs, k, PrevType(runs, k));
      assert SetKind(r, k, PrevType(runs, k)) == SetKind(runs, k, PrevType(runs, k));
    } else {
      MarkedMerge(runs, k);
      assert MergeWithPrev(r, k) == MergeWithPrev(runs, k);
    }
  }

  lemma MarkBackLevel(runs: seq<Run>, k: nat, base: nat)
    requires Shaped(runs, base) && k < |runs| && runs[k].kind.NSM?
    ensures MarkBack(runs, k).0[MarkBack(runs, k).1].isolateLevel == runs[k].isolateLevel
  {
    hide Shaped;
    hide Prev;
    MarkPrev(runs, k, base);
  }

  lemma MarkStepMarks(runs: seq<Run>, k: nat, base: nat)
    requires Shaped(runs, base) && k < |runs| && runs[k].kind.NSM?
    ensures MarkedSpots(runs, MarkStep(runs, k).0)
  {
    hide Shaped;
    hide MarkedSpots;
    hide Prev;
    hide MarkBack;
    hide NextSkippingPdi;
    hide MergeWithPrev;
    MarkBackMarks(runs, k, base);
    var (b, k') := MarkBack(runs, k);
    var r := MarkStep(runs, k).0;
    if r != b {
      NextOnLevel(runs, k);
      MarkBackLevel(runs, k, base);
      MarkedMerge(b, k' + 1);
      MarkedTwice(runs, b, r);
    }
  }

  lemma NumberStepMarks(runs: seq<Run>, k: nat)
    requires k < |runs| && runs[k].kind.EN?
    ensures MarkedSpots(runs, NumberStep(runs, k))
  {
    hide MarkedSpots;
    hide Next;
    var next := NextSkippingPdi(runs, k);
    var r := SetKind(runs, k, AN);
    MarkedSet(runs, k, AN);
    if NextType(runs, k).NSM? && next >= 0 {
      MarkedSet(r, next, AN);
      MarkedTwice(runs, r, SetKind(r, next, AN));
    }
  }

  lemma Turn1Marks(runs: seq<Run>, k: nat, strong: BidiType, base: nat)
    requires Shaped(runs, base) && k < |runs|
    ensures MarkedSpots(runs, Turn1(runs, k, strong).0)
  {
    hide Shaped;
    hide MarkStep;
    hide NumberStep;
    hide MarkedSpots;
    MarkedSame(runs, runs);
    if runs[k].kind.NSM? {
      MarkStepMarks(runs, k, base);
    } else if runs[k].kind.EN? {
      NumberStepMarks(runs, k);
    }
  }

  lemma {:induction false} MarksMark(runs: seq<Run>, k: nat, table: seq<BidiType>, base: nat, codes: seq<Run>,
                                     places: seq<Spot>)
    requires IsolatesFit(runs) && |table| == STRONG_SLOTS && Sound(runs, base, codes, places) && MarksDone(runs, k)
    ensures MarkedSpots(runs, MarksFrom(runs, k, table))
    decreases |runs| - k
  {
    hide Sound;
    hide Turn1;
    hide MarkedSpots;
    if k < |runs| {
      var t := Heard(runs, k, table);
      var strong := t[runs[k].isolateLevel];
      var r := Turn1(runs, k, strong);
      Turn1Fits(runs, k, strong);
      Turn1Sound(runs, k, strong, base, codes, places);
      assert Shaped(runs, base) by { SoundShape(runs, base, codes, places); }
      Turn1Marks(runs, k, strong, base);
      MarksMark(r.0, r.1, t, base, codes, places);
      MarkedTwice(runs, r.0, MarksFrom(runs, k, table));
    } else {
      MarkedSame(runs, runs);
    }
  }

  // ----- W3 to W7 -----

  lemma Turn2Numbers(runs: seq<Run>, k: nat, strong: BidiType, c: Carry, base: nat, codes: seq<Run>, places: seq<Spot>)
    requires SoundState2(runs, k, c, base, codes, places) && k < |runs|
    ensures Numbered(runs[k].kind, Turn2(runs, k, PrevType(runs, k), NextType(runs, k), strong, c).0)
  {
    hide Prev;
    hide NextType;
    hide Aligned;
    hide Shaped;
    if c.orig.IsNumber() && IsEsOrCs(runs[k].kind) {
      PrevOnLevel(runs, k, base);
      assert PrevType(runs, k) == c.orig || (c.orig.EN? && PrevType(runs, k).LTR?);
    }
  }

  /** Each run is turned once. */
  lemma {:induction false} NumbersNumber(runs: seq<Run>, k: nat, table: seq<BidiType>, c: Carry, base: nat,
                                         codes: seq<Run>, places: seq<Spot>)
    requires IsolatesFit(runs) && |table| == STRONG_SLOTS && SoundState2(runs, k, c, base, codes, places)
    ensures var r := NumbersFrom(runs, k, table, c);
            && (forall i | 0 <= i < k && i < |runs| :: r[i] == runs[i])
            && (forall i | k <= i < |runs| :: Numbered(runs[i].kind, r[i].kind))
    decreases |runs| - k
  {
    hide SoundState2;
    hide Turn2;
    hide PrevType;
    hide NextType;
    hide IsolatesFit;
    hide Numbered;
    if k < |runs| {
      LevelFits(runs, k);
      var t := Heard(runs, k, table);
      var strong := t[runs[k].isolateLevel];
      Turn2Sound(runs, k, strong, c, base, codes, places);
      Turn2Numbers(runs, k, strong, c, base, codes, places);
      var turned := Turned2(runs, k, strong, c);
      KindFits(runs, k, Turn2(runs, k, PrevType(runs, k), NextType(runs, k), strong, c).0);
      NumbersNumber(turned.0, k + 1, t, turned.1, base, codes, places);
    }
  }

  // ----- Both loops -----

  lemma BothLoops(a: seq<Spot>, b: seq<Spot>, c: seq<Spot>)
    requires Through((x, y) => Marked(x, y), a, b) && Through((x, y) => Numbered(x, y) && SettledKind(y), b, c)
    ensures Through((x, y) => MayBecome(x, y), a, c)
  {
    forall j | 0 <= j < |a| ensures MayBecome(a[j].kind, c[j].kind) {
      assert Marked(a[j].kind, b[j].kind) && Numbered(b[j].kind, c[j].kind);
    }
  }

  lemma SettledAll(runs: seq<Run>)
    requires Settled(runs)
    ensures forall i | 0 <= i < |runs| :: SettledKind(runs[i].kind)
  {
  }

  /** Letters stay letters, neutrals and isolates stay what they are, and a
      weak type becomes what a weak type can become. */
  lemma WeakenedBecomes(runs: seq<Run>, baseDir: BidiType, base: nat, codes: seq<Run>, places: seq<Spot>)
    requires Sound(runs, base, codes, places)
    ensures IsolatesFit(runs)
    ensures Through((x, y) => MayBecome(x, y), Spots(runs, Sharp), Spots(Weakened(runs, baseDir), Sharp))
  {
    hide Sound;
    hide Spots;
    hide Settled;
    hide SettledKind;
    hide Through;
    hide Numbered;
    hide SoundState2;
    assert IsolatesFit(runs) by { SoundLevels(runs, base, codes, places); }
    hide IsolatesFit;
    var table := seq(STRONG_SLOTS, i => baseDir);
    NoMarksYet(runs);
    MarksMark(runs, 0, table, base, codes, places);
    MarksSound(runs, 0, table, base, codes, places);
    var once := MarksFrom(runs, 0, table);
    var r := Weakened(runs, baseDir);
    StartSound2(once, base, codes, places);
    NumbersNumber(once, 0, table, Carry(true, ON), base, codes, places);
    NumbersSound(once, 0, table, Carry(true, ON), base, codes, places);
    SettledAll(r);
    KindsThrough((x, y) => Numbered(x, y) && SettledKind(y), once, r);
    BothLoops(Spots(runs, Sharp), Spots(once, Sharp), Spots(r, Sharp));
  }
}
