/** W3 to W7 character by character and run by run: the two readings agree on
    every text without isolates. */
module WeakProof2 {
  import opened BidiTypes
  import opened Runs
  import opened Chains
  import opened IsolateLinks
  import opened Nesting
  import opened Alignment
  import opened WeakRules
  import opened WeakPass1
  import opened WeakProof1
  import opened WeakPass2
  import opened Compaction
  import opened WeakShape

  // ----- Positions of a run -----

  /** What the characters at and around run `i` are. */
  lemma Edges(runs: seq<Run>, i: nat, ks: seq<BidiType>, ls: seq<int>, base: nat)
    requires Plain(runs, ks, ls, base) && i < |runs|
    ensures var p, n := Off(runs, i), runs[i].len;
            && n > 0 && Alike(ks, ls, p, n, runs[i].kind, runs[i].level)
            && (i == 0 <==> p == 0) && (i + 1 == |runs| <==> p + n == |ls|)
            && (i > 0 ==> ks[p - 1] == runs[i - 1].kind && ls[p - 1] == runs[i - 1].level)
            && (i + 1 < |runs| ==>
                  p + n == Off(runs, i + 1) && ks[p + n] == runs[i + 1].kind && ls[p + n] == runs[i + 1].level)
  {
    assert FreeRun(runs[i]) && RunSpells(runs, i, ks, ls);
    OffMonotone(runs, i + 1, |runs|);
    if i > 0 {
      assert FreeRun(runs[i - 1]) && RunSpells(runs, i - 1, ks, ls);
      OffMonotone(runs, 0, i - 1);
    }
    if i + 1 < |runs| {
      assert FreeRun(runs[i + 1]) && RunSpells(runs, i + 1, ks, ls);
      OffMonotone(runs, i + 2, |runs|);
    }
  }

  // ----- W4 -----

  /** W4 from left to right and W4 at once are the same: a separator that was
      changed is always followed by a number. */
  lemma {:induction false} W4Simple(ks: seq<BidiType>, ls: seq<int>, j: nat)
    requires j < |ls| == |ks|
    ensures W4At(ks, ls, j) ==
              if IsEsOrCs(ks[j]) && !Starts(ls, j) && FollowsOn(ls, j) && ks[j - 1] == ks[j + 1]
                 && (ks[j - 1].EN? || (ks[j].CS? && ks[j - 1].AN?)) then ks[j - 1] else ks[j]
  {
    if j > 0 {
      W4Simple(ks, ls, j - 1);
    }
  }

  /** The type of the character before (after) a stretch, ON at the end of the
      level run. */
  ghost function LeftOf(ks: seq<BidiType>, ls: seq<int>, p: nat): BidiType
    requires p < |ls| == |ks|
  {
    if Starts(ls, p) then ON else ks[p - 1]
  }

  ghost function RightOf(ks: seq<BidiType>, ls: seq<int>, q: nat): BidiType
    requires q < |ls| == |ks|
  {
    if FollowsOn(ls, q) then ks[q + 1] else ON
  }

  lemma W4Stretch(ks: seq<BidiType>, ls: seq<int>, p: nat, n: nat, t: BidiType, level: int, j: nat)
    requires n > 0 && Alike(ks, ls, p, n, t, level) && p <= j < p + n
    ensures W4At(ks, ls, j) ==
              var b := LeftOf(ks, ls, p);
              if n == 1 && IsEsOrCs(t) && b.IsNumber() && b == RightOf(ks, ls, p + n - 1) && (b.EN? || t.CS?) then b
                else t
  {
    hide W4At;
    W4Simple(ks, ls, j);
  }

  /** The neighbours of a run. */
  lemma Sides(runs: seq<Run>, i: nat, ks: seq<BidiType>, ls: seq<int>, base: nat)
    requires Plain(runs, ks, ls, base) && i < |runs|
    ensures var p, n := Off(runs, i), runs[i].len;
            && n > 0 && p + n <= |ls| == |ks|
            && (Starts(ls, p) <==> !SameAsPrev(runs, i)) && (FollowsOn(ls, p + n - 1) <==> SameAsNext(runs, i))
            && LeftOf(ks, ls, p) == (if SameAsPrev(runs, i) then runs[i - 1].kind else ON)
            && RightOf(ks, ls, p + n - 1) == (if SameAsNext(runs, i) then runs[i + 1].kind else ON)
  {
    hide Plain;
    Edges(runs, i, ks, ls, base);
    var p, n := Off(runs, i), runs[i].len;
    assert ls[p] == runs[i].level && ls[p + n - 1] == runs[i].level;
  }

  lemma W3Sides(ks: seq<BidiType>, ls: seq<int>, p: nat, n: nat, t: BidiType, level: int)
    requires n > 0 && Alike(ks, ls, p, n, t, level)
    ensures Alike(W3(ks), ls, p, n, W3Kind(t), level)
    ensures LeftOf(W3(ks), ls, p) == W3Kind(LeftOf(ks, ls, p))
    ensures RightOf(W3(ks), ls, p + n - 1) == W3Kind(RightOf(ks, ls, p + n - 1))
  {
  }

  /** The neighbours of a run after W3. */
  lemma Sides3(runs: seq<Run>, i: nat, ks: seq<BidiType>, ls: seq<int>, base: nat)
    requires Plain(runs, ks, ls, base) && i < |runs|
    ensures var p, n := Off(runs, i), runs[i].len;
            && n > 0 && Alike(W3(ks), ls, p, n, W3Kind(runs[i].kind), runs[i].level)
            && LeftOf(W3(ks), ls, p) == Before3(runs, i) && RightOf(W3(ks), ls, p + n - 1) == After3(runs, i)
  {
    hide Plain;
    hide Alike;
    hide LeftOf;
    hide RightOf;
    hide Off;
    Edges(runs, i, ks, ls, base);
    Sides(runs, i, ks, ls, base);
    W3Sides(ks, ls, Off(runs, i), runs[i].len, runs[i].kind, runs[i].level);
  }

  lemma W4Run(runs: seq<Run>, i: nat, ks: seq<BidiType>, ls: seq<int>, base: nat)
    requires Plain(runs, ks, ls, base) && i < |runs|
    ensures Alike(W4(W3(ks), ls), ls, Off(runs, i), runs[i].len, Run4(runs, i), runs[i].level)
  {
    hide Plain;
    hide W3;
    hide W3Kind;
    hide Before3;
    hide After3;
    var p, n, k3 := Off(runs, i), runs[i].len, W3(ks);
    Sides3(runs, i, ks, ls, base);
    forall j | p <= j < p + n ensures W4(k3, ls)[j] == Run4(runs, i) {
      hide W4At;
      W4Stretch(k3, ls, p, n, W3Kind(runs[i].kind), runs[i].level, j);
    }
  }

  // ----- W5 -----

  /** Next to an ET run, only an original EN counts. */
  lemma EnBeside(runs: seq<Run>, i: nat)
    requires i < |runs| && Calm(runs) && runs[i].kind.ET?
    ensures if SameAsPrev(runs, i) then !Run4(runs, i - 1).ET? && (Run4(runs, i - 1).EN? <==> Before3(runs, i).EN?)
            else !Before3(runs, i).EN?
    ensures if SameAsNext(runs, i) then !Run4(runs, i + 1).ET? && (Run4(runs, i + 1).EN? <==> After3(runs, i).EN?)
            else !After3(runs, i).EN?
  {
    if SameAsPrev(runs, i) {
      assert CalmPair(runs[i - 1], runs[i]);
    }
    if SameAsNext(runs, i) {
      assert CalmPair(runs[i], runs[i + 1]);
    }
  }

  lemma {:induction false} EnBeforeRun(ks: seq<BidiType>, ls: seq<int>, p: nat, n: nat, level: int, j: nat)
    requires Alike(ks, ls, p, n, ET, level) && p <= j < p + n
    requires p > 0 && ls[p - 1] == level ==> !ks[p - 1].ET?
    ensures EnBefore(ks, ls, j) <==> p > 0 && ls[p - 1] == level && ks[p - 1].EN?
    decreases j
  {
    if j > p {
      EnBeforeRun(ks, ls, p, n, level, j - 1);
    }
  }

  lemma {:induction false} EnAfterRun(ks: seq<BidiType>, ls: seq<int>, p: nat, n: nat, level: int, j: nat)
    requires Alike(ks, ls, p, n, ET, level) && p <= j < p + n
    requires p + n < |ls| && ls[p + n] == level ==> !ks[p + n].ET?
    ensures EnAfter(ks, ls, j) <==> p + n < |ls| && ls[p + n] == level && ks[p + n].EN?
    decreases p + n - j
  {
    if j + 1 < p + n {
      EnAfterRun(ks, ls, p, n, level, j + 1);
    }
  }

  lemma LastOf4(runs: seq<Run>, i: nat, ks: seq<BidiType>, ls: seq<int>, base: nat)
    requires Plain(runs, ks, ls, base) && i < |runs|
    ensures var k4, p, n := W4(W3(ks), ls), Off(runs, i), runs[i].len;
            && n > 0 && p + n <= |ls| && p + n == Off(runs, i + 1)
            && k4[p] == Run4(runs, i) && k4[p + n - 1] == Run4(runs, i)
  {
    hide Plain;
    hide W4;
    hide Run4;
    Edges(runs, i, ks, ls, base);
    W4Run(runs, i, ks, ls, base);
  }

  lemma PlainCalm(runs: seq<Run>, ks: seq<BidiType>, ls: seq<int>, base: nat)
    requires Plain(runs, ks, ls, base)
    ensures Calm(runs) && Free(runs)
  {
  }

  /** The neighbours of an ET run after W4. */
  lemma Sides4(runs: seq<Run>, i: nat, ks: seq<BidiType>, ls: seq<int>, base: nat)
    requires Plain(runs, ks, ls, base) && i < |runs| && runs[i].kind.ET?
    ensures var k4, p, n := W4(W3(ks), ls), Off(runs, i), runs[i].len;
            && n > 0 && p + n <= |ls| && !LeftOf(k4, ls, p).ET? && !RightOf(k4, ls, p + n - 1).ET?
            && (LeftOf(k4, ls, p).EN? <==> Before3(runs, i).EN?)
            && (RightOf(k4, ls, p + n - 1).EN? <==> After3(runs, i).EN?)
  {
    hide Plain;
    hide W4;
    hide Run4;
    hide Starts;
    hide FollowsOn;
    hide Before3;
    hide After3;
    hide Free;
    Sides(runs, i, ks, ls, base);
    PlainCalm(runs, ks, ls, base);
    EnBeside(runs, i);
    if SameAsPrev(runs, i) {
      LastOf4(runs, i - 1, ks, ls, base);
    }
    if SameAsNext(runs, i) {
      LastOf4(runs, i + 1, ks, ls, base);
    }
  }

  lemma W5Index(ks: seq<BidiType>, ls: seq<int>, j: nat)
    requires j < |ls| == |ks|
    ensures W5(ks, ls)[j] == if ks[j].ET? && (EnBefore(ks, ls, j) || EnAfter(ks, ls, j)) then EN else ks[j]
  {
  }

  lemma W5Others(ks: seq<BidiType>, ls: seq<int>, p: nat, n: nat, t: BidiType, level: int)
    requires Alike(ks, ls, p, n, t, level) && !t.ET?
    ensures Alike(W5(ks, ls), ls, p, n, t, level)
  {
  }

  /** A stretch of terminators turns into numbers as a whole. */
  lemma W5Terminators(ks: seq<BidiType>, ls: seq<int>, p: nat, n: nat, level: int)
    requires Alike(ks, ls, p, n, ET, level) && n > 0 && !LeftOf(ks, ls, p).ET? && !RightOf(ks, ls, p + n - 1).ET?
    ensures Alike(W5(ks, ls), ls, p, n, if LeftOf(ks, ls, p).EN?
            || RightOf(ks, ls, p + n - 1).EN? then EN else ET, level)
  {
    hide EnBefore;
    hide EnAfter;
    hide W5;
    forall j | p <= j < p + n
      ensures W5(ks, ls)[j] == if LeftOf(ks, ls, p).EN? || RightOf(ks, ls, p + n - 1).EN? then EN else ET {
      W5Index(ks, ls, j);
      EnBeforeRun(ks, ls, p, n, level, j);
      EnAfterRun(ks, ls, p, n, level, j);
    }
  }

  lemma EtOnly(runs: seq<Run>, i: nat)
    requires i < |runs| && Run4(runs, i).ET?
    ensures runs[i].kind.ET?
  {
  }

  lemma W5Run(runs: seq<Run>, i: nat, ks: seq<BidiType>, ls: seq<int>, base: nat)
    requires Plain(runs, ks, ls, base) && i < |runs|
    ensures Alike(W5(W4(W3(ks), ls), ls), ls, Off(runs, i), runs[i].len, Run5(runs, i), runs[i].level)
  {
    hide Plain;
    hide Run4;
    hide W4;
    hide W3;
    hide Off;
    hide W5;
    W4Run(runs, i, ks, ls, base);
    var p, n, k4 := Off(runs, i), runs[i].len, W4(W3(ks), ls);
    if Run4(runs, i).ET? {
      EtOnly(runs, i);
      Sides4(runs, i, ks, ls, base);
      W5Terminators(k4, ls, p, n, runs[i].level);
    } else {
      W5Others(k4, ls, p, n, Run4(runs, i), runs[i].level);
    }
  }

  // ----- W6 and W7 -----

  ghost function Run6(runs: seq<Run>, i: nat): BidiType
    requires i < |runs|
  {
    W6Kind(Run5(runs, i))
  }

  ghost function Text6(ks: seq<BidiType>, ls: seq<int>): (r: seq<BidiType>)
    requires |ks| == |ls|
    ensures |r| == |ks|
  {
    W6(W5(W4(W3(ks), ls), ls))
  }

  lemma W6Run(runs: seq<Run>, i: nat, ks: seq<BidiType>, ls: seq<int>, base: nat)
    requires Plain(runs, ks, ls, base) && i < |runs|
    ensures Alike(Text6(ks, ls), ls, Off(runs, i), runs[i].len, Run6(runs, i), runs[i].level)
  {
    hide Plain;
    hide Run5;
    hide W5;
    W5Run(runs, i, ks, ls, base);
  }

  lemma Strong6(runs: seq<Run>, i: nat)
    requires i < |runs| && FreeRun(runs[i])
    ensures Run6(runs, i).IsStrong() <==> runs[i].kind.IsStrong()
    ensures runs[i].kind.IsStrong() ==> Run6(runs, i) == W3Kind(runs[i].kind)
  {
  }

  lemma {:induction false} StrongRun(runs: seq<Run>, i: nat, ks: seq<BidiType>, ls: seq<int>, base: nat)
    requires Plain(runs, ks, ls, base) && i < |runs|
    ensures Off(runs, i) < |ls| && Strong(Text6(ks, ls), ls, base, Off(runs, i)) == RunStrong(runs, i)
  {
    hide Text6;
    hide Run6;
    hide Spells;
    hide Calm;
    Edges(runs, i, ks, ls, base);
    if SameAsPrev(runs, i) {
      StrongRun(runs, i - 1, ks, ls, base);
      W6Run(runs, i - 1, ks, ls, base);
      assert FreeRun(runs[i - 1]);
      Strong6(runs, i - 1);
      StrongAcross(Text6(ks, ls), ls, base, Off(runs, i - 1), runs[i - 1].len, Run6(runs, i - 1), runs[i - 1].level);
    }
  }

  lemma W7Stretch(ks: seq<BidiType>, ls: seq<int>, base: nat, p: nat, n: nat, t: BidiType, level: int, j: nat)
    requires Alike(ks, ls, p, n, t, level) && p <= j < p + n
    ensures W7At(ks, ls, base, j) == if t.EN? && Strong(ks, ls, base, p).LTR? then LTR else t
  {
    if t.EN? && j > p {
      StrongAcross(ks, ls, base, p, j - p, t, level);
    }
  }

  /** Every run ends with the type the five passes give each of its characters. */
  lemma W7Run(runs: seq<Run>, i: nat, ks: seq<BidiType>, ls: seq<int>, base: nat)
    requires Plain(runs, ks, ls, base) && i < |runs|
    ensures Alike(W3ToW7(ks, ls, base), ls, Off(runs, i), runs[i].len, Run7(runs, i), runs[i].level)
  {
    hide Plain;
    hide Run5;
    hide RunStrong;
    hide W6;
    hide Strong;
    W6Run(runs, i, ks, ls, base);
    StrongRun(runs, i, ks, ls, base);
    var p, n := Off(runs, i), runs[i].len;
    forall j | p <= j < p + n ensures W3ToW7(ks, ls, base)[j] == Run7(runs, i) {
      hide W7At;
      W7Stretch(Text6(ks, ls), ls, base, p, n, Run6(runs, i), runs[i].level, j);
    }
  }

  // ----- Both loops -----

  /** Rules W1 to W7, one pass after the other. */
  function Weak(ks: seq<BidiType>, ls: seq<int>, base: nat): (r: seq<BidiType>)
    requires |ks| == |ls|
    ensures |r| == |ks|
  {
    W7(W6(W5(W4(W3(W2(W1(ks, ls, base), ls, base)), ls), ls)), ls, base)
  }

  lemma AllRuns(runs0: seq<Run>, runs: seq<Run>, ks: seq<BidiType>, ls: seq<int>, base: nat)
    requires Plain(runs0, ks, ls, base) && SameShape(runs0, runs)
    requires forall i | 0 <= i < |runs0| :: runs[i] == runs0[i].(kind := Run7(runs0, i))
    ensures Spells(runs, W3ToW7(ks, ls, base), ls)
  {
    hide Run7;
    hide W3ToW7;
    OffSame(runs0, runs, |runs|);
    forall i | 0 <= i < |runs| ensures RunSpells(runs, i, W3ToW7(ks, ls, base), ls) {
      W7Run(runs0, i, ks, ls, base);
      OffSame(runs0, runs, i);
    }
  }

  // ----- What the memory of strong types starts with does not matter -----

  /** Two memories agree on what has been heard before run `k`. */
  ghost predicate HeardAlike(runs: seq<Run>, k: nat, t: seq<BidiType>, u: seq<BidiType>) {
    && |t| == |u| == STRONG_SLOTS && IsolatesFit(runs) && t[0] == u[0]
    && forall i | 0 <= i < k && i < |runs| :: t[runs[i].isolateLevel] == u[runs[i].isolateLevel]
  }

  /** The first run on an isolate level hears a direction before it. */
  lemma HeardNext(runs: seq<Run>, k: nat, t: seq<BidiType>, u: seq<BidiType>)
    requires HeardAlike(runs, k, t, u) && LevelsFit(runs) && k < |runs|
    ensures HeardAlike(runs, k + 1, Heard(runs, k, t), Heard(runs, k, u))
  {
    hide PrevFrom;
    OnLevel(runs, k);
  }

  lemma MarkStepLevels(runs: seq<Run>, k: nat)
    requires k < |runs|
    ensures var (r, k') := MarkStep(runs, k);
            k' <= k && k' < |r| && forall i | 0 <= i <= k' :: r[i].isolateLevel == runs[i].isolateLevel
  {
    hide Prev;
    hide PrevType;
    hide NextSkippingPdi;
    hide NextType;
  }

  lemma Turn1Heard(runs: seq<Run>, k: nat, strong: BidiType, t: seq<BidiType>, u: seq<BidiType>)
    requires HeardAlike(runs, k + 1, t, u) && k < |runs|
    ensures var (r, k') := Turn1(runs, k, strong); HeardAlike(r, k', t, u)
  {
    hide MarkStep;
    hide NumberStep;
    MarkStepLevels(runs, k);
    Turn1Fits(runs, k, strong);
  }

  lemma AlikeFits(runs: seq<Run>, k: nat, t: seq<BidiType>, u: seq<BidiType>)
    requires HeardAlike(runs, k, t, u)
    ensures IsolatesFit(runs) && |t| == |u| == STRONG_SLOTS
  {
  }

  lemma AlikeAt(runs: seq<Run>, k: nat, t: seq<BidiType>, u: seq<BidiType>)
    requires HeardAlike(runs, k + 1, t, u) && k < |runs|
    ensures runs[k].isolateLevel < |t| == |u| && t[runs[k].isolateLevel] == u[runs[k].isolateLevel]
  {
  }

  lemma SoundLevels(runs: seq<Run>, base: nat, codes: seq<Run>, places: seq<Spot>)
    requires Sound(runs, base, codes, places)
    ensures LevelsFit(runs)
  {
  }

  lemma {:induction false} MarksMemory(runs: seq<Run>, k: nat, t: seq<BidiType>, u: seq<BidiType>,
                                       base: nat, codes: seq<Run>, places: seq<Spot>)
    requires HeardAlike(runs, k, t, u) && Sound(runs, base, codes, places) && MarksDone(runs, k)
    ensures MarksFrom(runs, k, t) == MarksFrom(runs, k, u)
    decreases |runs| - k
  {
    hide Sound;
    hide Turn1;
    hide HeardAlike;
    hide IsolatesFit;
    hide Heard;
    AlikeFits(runs, k, t, u);
    if k < |runs| {
      LevelFits(runs, k);
      assert LevelsFit(runs) by { SoundLevels(runs, base, codes, places); }
      var t', u', strong := Heard(runs, k, t), Heard(runs, k, u), Heard(runs, k, t)[runs[k].isolateLevel];
      HeardNext(runs, k, t, u);
      AlikeAt(runs, k, t', u');
      Turn1Heard(runs, k, strong, t', u');
      Turn1Sound(runs, k, strong, base, codes, places);
      Turn1Fits(runs, k, strong);
      var r := Turn1(runs, k, strong);
      MarksMemory(r.0, r.1, t', u', base, codes, places);
    }
  }

  lemma AlikeKind(runs: seq<Run>, k: nat, kind: BidiType, t: seq<BidiType>, u: seq<BidiType>)
    requires HeardAlike(runs, k + 1, t, u) && LevelsFit(runs) && k < |runs|
    ensures HeardAlike(SetKind(runs, k, kind), k + 1, t, u) && LevelsFit(SetKind(runs, k, kind))
  {
  }

  lemma {:induction false} NumbersMemory(runs: seq<Run>, k: nat, t: seq<BidiType>, u: seq<BidiType>, c: Carry)
    requires HeardAlike(runs, k, t, u) && LevelsFit(runs)
    ensures NumbersFrom(runs, k, t, c) == NumbersFrom(runs, k, u, c)
    decreases |runs| - k
  {
    hide HeardAlike;
    hide IsolatesFit;
    hide LevelsFit;
    hide Heard;
    hide Turn2;
    AlikeFits(runs, k, t, u);
    if k < |runs| {
      LevelFits(runs, k);
      var t', u', strong := Heard(runs, k, t), Heard(runs, k, u), Heard(runs, k, t)[runs[k].isolateLevel];
      HeardNext(runs, k, t, u);
      AlikeAt(runs, k, t', u');
      var turn := Turn2(runs, k, PrevType(runs, k), NextType(runs, k), strong, c);
      AlikeKind(runs, k, turn.0, t', u');
      NumbersMemory(SetKind(runs, k, turn.0), k + 1, t', u', turn.1);
    }
  }

  /** Both loops on a list, with every level remembering the base direction. */
  ghost function Weakened(runs: seq<Run>, baseDir: BidiType): seq<Run>
    requires IsolatesFit(runs)
  {
    var table := seq(STRONG_SLOTS, i => baseDir);
    NumbersFrom(MarksFrom(runs, 0, table), 0, table, Carry(true, ON))
  }

  lemma WeakenedAny(runs: seq<Run>, baseDir: BidiType, t: seq<BidiType>, u: seq<BidiType>, base: nat, codes: seq<Run>,
                    places: seq<Spot>)
    requires Sound(runs, base, codes, places) && |t| == |u| == STRONG_SLOTS && t[0] == u[0] == baseDir
    ensures IsolatesFit(runs)
    ensures NumbersFrom(MarksFrom(runs, 0, t), 0, u, Carry(true, ON)) == Weakened(runs, baseDir)
  {
    hide Sound;
    assert IsolatesFit(runs) && LevelsFit(runs) by { SoundLevels(runs, base, codes, places); }
    var table := seq(STRONG_SLOTS, i => baseDir);
    NoMarksYet(runs);
    MarksMemory(runs, 0, t, table, base, codes, places);
    MarksSound(runs, 0, table, base, codes, places);
    var once := MarksFrom(runs, 0, table);
    assert LevelsFit(once) by { SoundLevels(once, base, codes, places); }
    NumbersMemory(once, 0, u, table, Carry(true, ON));
  }

  lemma WeakenedSound(runs: seq<Run>, baseDir: BidiType, base: nat, codes: seq<Run>, places: seq<Spot>)
    requires Sound(runs, base, codes, places)
    ensures IsolatesFit(runs) && Sound(Weakened(runs, baseDir), base, codes, places) && Settled(Weakened(runs, baseDir))
  {
    hide Sound;
    hide Settled;
    assert IsolatesFit(runs) && LevelsFit(runs) by { SoundLevels(runs, base, codes, places); }
    var table := seq(STRONG_SLOTS, i => baseDir);
    NoMarksYet(runs);
    MarksSound(runs, 0, table, base, codes, places);
    var once := MarksFrom(runs, 0, table);
    StartSound2(once, base, codes, places);
    NumbersSound(once, 0, table, Carry(true, ON), base, codes, places);
  }

  lemma SevenPasses(ks: seq<BidiType>, ls: seq<int>, base: nat)
    requires |ks| == |ls|
    ensures W3ToW7(W1ToW2(ks, ls, base), ls, base) == Weak(ks, ls, base)
  {
  }

  /** On a text without isolates, whose first level is not below the base level,
      the two fused loops give every character the type that the seven rules
      give it one after the other. */
  lemma WeakenedPlain(runs: seq<Run>, baseDir: BidiType, ks: seq<BidiType>, ls: seq<int>, base: nat)
    requires IsolatesFit(runs) && Plain(runs, ks, ls, base)
    ensures Spells(Weakened(runs, baseDir), Weak(ks, ls, base), ls)
  {
    hide W1ToW2;
    hide W3ToW7;
    hide Free;
    hide Calm;
    hide RunSpells;
    hide State1;
    hide State2;
    hide Run7;
    var table := seq(STRONG_SLOTS, i => baseDir);
    StartState1(runs, ks, ls, base, table[0]);
    MarksPlain(runs, 0, table, ks, ls, base);
    var once := MarksFrom(runs, 0, table);
    StartState2(once, table[0]);
    NumbersFree(once, once, 0, table, Carry(true, ON));
    AllRuns(once, Weakened(runs, baseDir), W1ToW2(ks, ls, base), ls, base);
    assert W3ToW7(W1ToW2(ks, ls, base), ls, base) == Weak(ks, ls, base) by { SevenPasses(ks, ls, base); }
  }

  /** Weak-type resolution. */
  method ResolveWeakTypes(runs0: seq<Run>, links0: Links, baseDir: BidiType, ghost base: nat, ghost codes: seq<Run>,
                          ghost places: seq<Spot>)
    returns (runs: seq<Run>, links: Links)
    requires IsolatesFit(runs0) && Agree(runs0, links0) && Sound(runs0, base, codes, places)
    ensures runs == Weakened(runs0, baseDir) && Agree(runs, links)
  {
    hide Sound;
    hide Agree;
    hide IsolatesFit;
    var once;
    ghost var t, u;
    once, links, t := ResolveMarksAndNumbers(runs0, links0, baseDir);
    runs, u := ResolveNumbers(once, links, baseDir);
    WeakenedAny(runs0, baseDir, t, u, base, codes, places);
  }
}
