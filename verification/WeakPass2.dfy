/** The second weak-type loop: rules W3 to W7 together, on runs, with a memory
    of two variables.  On a text without isolates it computes what the five
    passes compute. */
module WeakPass2 {
  import opened BidiTypes
  import opened Runs
  import opened Chains
  import opened IsolateLinks
  import opened WeakRules
  import opened WeakPass1
  import opened WeakProof1
  import opened NextRunCache
  import opened Nesting
  import opened Alignment
  import opened Compaction
  import opened WeakShape

  /** `w4` and `prev_type_orig`. */
  datatype Carry = Carry(w4: bool, orig: BidiType)

  predicate IsEsOrCs(t: BidiType) { t.ES? || t.CS? }

  /** The level of the run after `k` in the list, or of the list's sentinel. */
  function LevelAfter(runs: seq<Run>, k: nat): int
    requires k < |runs|
  {
    if k + 1 < |runs| then runs[k + 1].level else -1
  }

  /** The body of the loop: the new type of run `k` and what is carried on. */
  function Turn2(runs: seq<Run>, k: nat, prevType: BidiType, nextType: BidiType, strong: BidiType, c: Carry): (BidiType,
                 Carry)
    requires k < |runs|
  {
    var t := runs[k].kind;
    if t.AL? then (RTL, Carry(true, ON))
    else
      var t4 := if c.w4 && runs[k].len == 1 && IsEsOrCs(t) && c.orig.IsNumber() && c.orig == nextType
          && (c.orig.EN? || t.CS?)
                then prevType else t;
      var w5 := t4.ET? && (c.orig.EN? || nextType.EN?);
      var t5 := if w5 then EN else t4;
      var t6 := if t5.IsSeparatorOrTerminator() then ON else t5;
      if t5.EN? && strong.LTR? then
        (LTR, Carry(!w5, if runs[k].level == LevelAfter(runs, k) then EN else ON))
      else
        (t6, Carry(!w5, if runs[k].level == LevelAfter(runs, k) then t6
          else LevelToDir(Max(runs[k].level, LevelAfter(runs, k)))))
  }

  // ----- The five passes, run by run -----

  /** The type on the other side of a run, in the same level run; ON if there
      is none. */
  ghost function Before3(runs: seq<Run>, i: nat): BidiType
    requires i < |runs|
  {
    if SameAsPrev(runs, i) then W3Kind(runs[i - 1].kind) else ON
  }

  ghost function After3(runs: seq<Run>, i: nat): BidiType
    requires i < |runs|
  {
    if SameAsNext(runs, i) then W3Kind(runs[i + 1].kind) else ON
  }

  ghost function Run4(runs: seq<Run>, i: nat): BidiType
    requires i < |runs|
  {
    var b, t := Before3(runs, i), W3Kind(runs[i].kind);
    if runs[i].len == 1 && IsEsOrCs(t) && b.IsNumber() && b == After3(runs, i) && (b.EN? || t.CS?) then b else t
  }

  ghost function Run5(runs: seq<Run>, i: nat): BidiType
    requires i < |runs|
  {
    if Run4(runs, i).ET? && (Before3(runs, i).EN? || After3(runs, i).EN?) then EN else Run4(runs, i)
  }

  ghost function RunSos(runs: seq<Run>, i: nat): BidiType
    requires i < |runs|
  {
    LevelToDir(Max(if i == 0 then -1 else runs[i - 1].level, runs[i].level))
  }

  ghost function RunStrong(runs: seq<Run>, i: nat): BidiType
    requires i < |runs|
  {
    if !SameAsPrev(runs, i) then RunSos(runs, i)
    else if runs[i - 1].kind.IsStrong() then W3Kind(runs[i - 1].kind)
    else RunStrong(runs, i - 1)
  }

  ghost function Run7(runs: seq<Run>, i: nat): BidiType
    requires i < |runs|
  {
    var t := W6Kind(Run5(runs, i));
    if t.EN? && RunStrong(runs, i).LTR? then LTR else t
  }

  // ----- The loop computes Run7 -----

  /** What the two carried variables are good for at run `k`. */
  ghost predicate CarryOk(runs: seq<Run>, k: nat, c: Carry) {
    k < |runs| ==>
      && (!SameAsPrev(runs, k) ==> !c.orig.IsNumber())
      && (SameAsPrev(runs, k) && IsEsOrCs(runs[k].kind) ==>
            && ((c.w4 && c.orig.IsNumber()) <==> Before3(runs, k).IsNumber())
            && (c.w4 && c.orig.IsNumber() ==> c.orig == Before3(runs, k)))
      && (SameAsPrev(runs, k) && runs[k].kind.ET? ==> (c.orig.EN? <==> Before3(runs, k).EN?))
  }

  /** The list while the loop stands at run `k`: types behind it are final. */
  ghost predicate State2(runs0: seq<Run>, runs: seq<Run>, k: nat, last: BidiType, c: Carry) {
    && |runs| == |runs0| && k <= |runs|
    && (forall i | 0 <= i < k :: runs[i] == runs0[i].(kind := Run7(runs0, i)))
    && (forall i | k <= i < |runs| :: runs[i] == runs0[i])
    && (k > 0 && !runs[k - 1].kind.IsStrong() ==> last == RunStrong(runs0, k - 1))
    && (k > 0 && runs[k - 1].kind.LTR? && !runs0[k - 1].kind.IsStrong() ==> RunStrong(runs0, k - 1) == LTR)
    && CarryOk(runs0, k, c)
  }

  /** The type seen before run `k`, and the strong type kept for it. */
  lemma Behind(runs0: seq<Run>, runs: seq<Run>, k: nat, last: BidiType, c: Carry)
    requires Free(runs0) && State2(runs0, runs, k, last, c) && k < |runs|
    ensures Prev(runs, k) == k - 1
    ensures SameAsPrev(runs0, k) ==> PrevType(runs, k) == Run7(runs0, k - 1)
    ensures !SameAsPrev(runs0, k) ==> PrevType(runs, k) == RunSos(runs0, k)
    ensures Updated(runs, k, last) == RunStrong(runs0, k)
  {
    assert FreeRun(runs0[k]);
    if k > 0 {
      assert FreeRun(runs0[k - 1]);
    }
    if k + 1 < |runs| {
      assert FreeRun(runs0[k + 1]);
    }
  }

  /** What follows run `k`.  The type seen after a weak run is the untouched type
      of the next run. */
  lemma AheadOf(runs0: seq<Run>, runs: seq<Run>, k: nat, last: BidiType, c: Carry)
    requires Free(runs0) && Calm(runs0) && State2(runs0, runs, k, last, c) && k < |runs|
    ensures LevelAfter(runs, k) == runs[k].level <==> SameAsNext(runs0, k)
    ensures IsWeak(runs0[k].kind) ==>
              if SameAsNext(runs0, k) then NextType(runs, k) == runs0[k + 1].kind
              else !NextType(runs, k).IsNumber() && !After3(runs0, k).IsNumber()
  {
    hide Calm;
    hide Prev;
    assert FreeRun(runs0[k]);
    if k + 1 < |runs| {
      assert FreeRun(runs0[k + 1]);
      if IsWeak(runs0[k].kind) {
        CalmHere(runs0, k);
      }
    }
  }

  /** What the invariant says about run `k` and its neighbours. */
  lemma Parts2(runs0: seq<Run>, runs: seq<Run>, k: nat, last: BidiType, c: Carry)
    requires Free(runs0) && Calm(runs0) && State2(runs0, runs, k, last, c) && k < |runs|
    ensures |runs| == |runs0| && runs[k] == runs0[k] && CarryOk(runs0, k, c) && FreeRun(runs0[k])
    ensures SameAsPrev(runs0, k) ==> FreeRun(runs0[k - 1])
    ensures k + 1 < |runs0| ==> FreeRun(runs0[k + 1]) && CalmPair(runs0[k], runs0[k + 1]) && runs[k + 1] == runs0[k + 1]
  {
    hide CarryOk;
    hide FreeRun;
    hide CalmPair;
    if k + 1 < |runs0| {
      assert CalmPair(runs0[k + 1 - 1], runs0[k + 1]);
    }
  }

  /** One turn gives run `k` its type by the five passes. */
  lemma Turn2Kind(runs0: seq<Run>, runs: seq<Run>, k: nat, last: BidiType, c: Carry)
    requires Free(runs0) && Calm(runs0) && State2(runs0, runs, k, last, c) && k < |runs|
    ensures Turn2(runs, k, PrevType(runs, k), NextType(runs, k), Updated(runs, k, last), c).0 == Run7(runs0, k)
  {
    hide PrevType;
    hide NextType;
    hide Updated;
    hide NextSkippingPdi;
    hide Prev;
    hide RunSos;
    hide State2;
    hide Free;
    hide Calm;
    hide LevelToDir;
    Parts2(runs0, runs, k, last, c);
    Behind(runs0, runs, k, last, c);
    AheadOf(runs0, runs, k, last, c);
  }

  /** What is carried over to the next run is good there. */
  lemma Turn2Carry(runs0: seq<Run>, runs: seq<Run>, k: nat, last: BidiType, c: Carry)
    requires Free(runs0) && Calm(runs0) && State2(runs0, runs, k, last, c) && k < |runs|
    ensures CarryOk(runs0, k + 1, Turn2(runs, k, PrevType(runs, k), NextType(runs, k), Updated(runs, k, last), c).1)
  {
    hide PrevType;
    hide NextType;
    hide Updated;
    hide RunStrong;
    hide State2;
    hide Free;
    hide Calm;
    Parts2(runs0, runs, k, last, c);
    Behind(runs0, runs, k, last, c);
    AheadOf(runs0, runs, k, last, c);
    Turn2Kind(runs0, runs, k, last, c);
  }

  lemma State2Next(runs0: seq<Run>, runs: seq<Run>, k: nat, last: BidiType, c: Carry, strong: BidiType, c': Carry)
    requires State2(runs0, runs, k, last, c) && k < |runs| && strong == RunStrong(runs0, k) && CarryOk(runs0, k + 1, c')
    ensures State2(runs0, SetKind(runs, k, Run7(runs0, k)), k + 1, strong, c')
  {
    hide CarryOk;
    hide RunStrong;
  }

  lemma Turn2State(runs0: seq<Run>, runs: seq<Run>, k: nat, last: BidiType, c: Carry)
    requires Free(runs0) && Calm(runs0) && State2(runs0, runs, k, last, c) && k < |runs|
    ensures var (kind, c') := Turn2(runs, k, PrevType(runs, k), NextType(runs, k), Updated(runs, k, last), c);
            State2(runs0, SetKind(runs, k, kind), k + 1, Updated(runs, k, last), c')
    ensures runs[k].isolateLevel == 0
  {
    hide PrevType;
    hide NextType;
    hide Updated;
    hide Turn2;
    hide Free;
    hide Calm;
    hide CarryOk;
    hide State2;
    hide NextSkippingPdi;
    Parts2(runs0, runs, k, last, c);
    Behind(runs0, runs, k, last, c);
    Turn2Kind(runs0, runs, k, last, c);
    Turn2Carry(runs0, runs, k, last, c);
    var (kind, c') := Turn2(runs, k, PrevType(runs, k), NextType(runs, k), Updated(runs, k, last), c);
    State2Next(runs0, runs, k, last, c, Updated(runs, k, last), c');
  }

  // ----- The shape of the list -----

  /** A number type that is carried belongs to the run before. */
  ghost predicate NumberBehind(runs: seq<Run>, k: nat, c: Carry) {
    0 < k < |runs| && c.orig.IsNumber() ==>
      runs[k - 1].level == runs[k].level && (runs[k - 1].kind == c.orig || (c.orig.EN? && runs[k - 1].kind.LTR?))
  }

  ghost predicate SoundState2(runs: seq<Run>, k: nat, c: Carry, base: nat, codes: seq<Run>, places: seq<Spot>) {
    && Sound(runs, base, codes, places) && MarksDone(runs, |runs|) && k <= |runs|
    && (forall i | 0 <= i < k :: SettledKind(runs[i].kind))
    && NumberBehind(runs, k, c) && (k == 0 ==> !c.orig.IsNumber())
  }

  lemma InnerNext(runs: seq<Run>, k: nat)
    requires 0 < k < |runs| && runs[k - 1].isolateLevel < runs[k].isolateLevel
    ensures Inner(runs, k - 1, k)
  {
  }

  /** Runs on one level that follow each other are in one sequence. */
  lemma PrevOnLevel(runs: seq<Run>, k: nat, base: nat)
    requires Shaped(runs, base) && 0 < k < |runs| && runs[k - 1].level == runs[k].level && Ordinary(runs[k].kind)
    ensures Prev(runs, k) == k - 1
  {
    hide Nested;
    hide Inner;
    NestedIs(runs, k, base);
    if runs[k - 1].isolateLevel > runs[k].isolateLevel {
      NoSkip(runs, base, runs[k].isolateLevel, k - 1);
    } else if runs[k - 1].isolateLevel < runs[k].isolateLevel {
      InnerNext(runs, k);
    }
  }

  lemma Turn2Settles(runs: seq<Run>, k: nat, strong: BidiType, c: Carry, base: nat, codes: seq<Run>, places: seq<Spot>)
    requires SoundState2(runs, k, c, base, codes, places) && k < |runs|
    ensures var kind := Turn2(runs, k, PrevType(runs, k), NextType(runs, k), strong, c).0;
            SettledKind(kind) && (kind == runs[k].kind || (Ordinary(kind) && Ordinary(runs[k].kind)))
  {
    hide Prev;
    hide NextType;
    hide Aligned;
    hide Shaped;
    if c.orig.IsNumber() && IsEsOrCs(runs[k].kind) {
      PrevOnLevel(runs, k, base);
      assert SettledKind(PrevType(runs, k));
    }
    assert !runs[k].kind.NSM?;
    assert !runs[k].kind.IsExplicitOrBn();
  }

  lemma Turn2Behind(runs: seq<Run>, k: nat, prevType: BidiType, nextType: BidiType, strong: BidiType, c: Carry)
    requires k < |runs|
    ensures var (kind, c') := Turn2(runs, k, prevType, nextType, strong, c);
            NumberBehind(SetKind(runs, k, kind), k + 1, c')
  {
  }

  lemma Turn2Sound(runs: seq<Run>, k: nat, strong: BidiType, c: Carry, base: nat, codes: seq<Run>, places: seq<Spot>)
    requires SoundState2(runs, k, c, base, codes, places) && k < |runs|
    ensures var (kind, c') := Turn2(runs, k, PrevType(runs, k), NextType(runs, k), strong, c);
            SoundState2(SetKind(runs, k, kind), k + 1, c', base, codes, places)
  {
    hide Sound;
    hide PrevType;
    hide NextType;
    hide Turn2;
    hide NumberBehind;
    Turn2Settles(runs, k, strong, c, base, codes, places);
    Turn2Behind(runs, k, PrevType(runs, k), NextType(runs, k), strong, c);
    SetKindSound(runs, k, Turn2(runs, k, PrevType(runs, k), NextType(runs, k), strong, c).0, base, codes, places);
  }

  lemma StartSound2(runs: seq<Run>, base: nat, codes: seq<Run>, places: seq<Spot>)
    requires Sound(runs, base, codes, places) && MarksDone(runs, |runs|)
    ensures SoundState2(runs, 0, Carry(true, ON), base, codes, places)
  {
  }

  lemma EndSound2(runs: seq<Run>, c: Carry, base: nat, codes: seq<Run>, places: seq<Spot>)
    requires SoundState2(runs, |runs|, c, base, codes, places)
    ensures Sound(runs, base, codes, places) && Settled(runs)
  {
  }

  // ----- The loop -----

  lemma StartState2(runs: seq<Run>, last: BidiType)
    requires Free(runs)
    ensures State2(runs, runs, 0, last, Carry(true, ON))
  {
  }

  /** Run `k` with the type of the turn, and what is carried on. */
  function Turned2(runs: seq<Run>, k: nat, strong: BidiType, c: Carry): (seq<Run>, Carry)
    requires k < |runs|
  {
    var turn := Turn2(runs, k, PrevType(runs, k), NextType(runs, k), strong, c);
    (SetKind(runs, k, turn.0), turn.1)
  }

  /** What the loop for W3 to W7 leaves from run `k` on. */
  ghost function NumbersFrom(runs: seq<Run>, k: nat, table: seq<BidiType>, c: Carry): (r: seq<Run>)
    requires IsolatesFit(runs) && |table| == STRONG_SLOTS
    ensures SameShape(runs, r)
    decreases |runs| - k
  {
    if k >= |runs| then runs
    else
      var t := Heard(runs, k, table);
      var turned := Turned2(runs, k, t[runs[k].isolateLevel], c);
      NumbersFrom(turned.0, k + 1, t, turned.1)
  }

  lemma SameLinks(runs: seq<Run>, k: nat, kind: BidiType, links: Links)
    requires Agree(runs, links) && IsolatesFit(runs) && k < |runs|
    ensures Agree(SetKind(runs, k, kind), links) && IsolatesFit(SetKind(runs, k, kind))
  {
    hide Agree;
    AgreeSame(runs, SetKind(runs, k, kind), links);
  }

  /** The loop for W3 to W7; `nextRun` is the cache of the forward search. */
  method ResolveNumbers(runs0: seq<Run>, links: Links, baseDir: BidiType)
    returns (runs: seq<Run>, ghost table: seq<BidiType>)
    requires IsolatesFit(runs0) && Agree(runs0, links)
    ensures |table| == STRONG_SLOTS && table[0] == baseDir
    ensures runs == NumbersFrom(runs0, 0, table, Carry(true, ON)) && Agree(runs, links)
  {
    hide Turn2;
    hide CacheOk;
    hide IsolatesFit;
    hide Agree;
    hide Prev;
    hide NextSkippingPdi;
    runs := runs0;
    var lastStrong := new BidiType[STRONG_SLOTS];
    lastStrong[0] := baseDir;
    table := lastStrong[..];
    var nextRun := new int[CACHE_SLOTS](i => EMPTY);
    var c := Carry(true, ON);
    CacheStart(runs, nextRun[..]);
    for k := 0 to |runs|
      invariant SameShape(runs0, runs) && IsolatesFit(runs) && CacheOk(runs, k, nextRun[..]) && Agree(runs, links)
      invariant NumbersFrom(runs, k, lastStrong[..], c) == NumbersFrom(runs0, 0, table, Carry(true, ON))
    {
      LevelFits(runs, k);
      ghost var t := Heard(runs, k, lastStrong[..]);
      var iso := runs[k].isolateLevel;
      var prev := GetAdjacentRun(runs, links, k, false);
      var next := GetNextRunCached(runs, links, k, nextRun);
      var prevType, nextType := TypeSeen(runs, k, prev), TypeSeen(runs, k, next);
      if prevType.IsStrong() {
        lastStrong[iso] := prevType;
      }
      assert lastStrong[..] == t;
      var turn := Turn2(runs, k, prevType, nextType, lastStrong[iso], c);
      assert (SetKind(runs, k, turn.0), turn.1) == Turned2(runs, k, t[iso], c);
      KindStep(runs0, runs, k, turn.0, nextRun[..]);
      SameLinks(runs, k, turn.0, links);
      runs := SetKind(runs, k, turn.0);
      c := turn.1;
    }
  }

  lemma KindFits(runs: seq<Run>, k: nat, kind: BidiType)
    requires IsolatesFit(runs) && k < |runs|
    ensures IsolatesFit(SetKind(runs, k, kind))
  {
  }

  lemma State2Bounds(runs0: seq<Run>, runs: seq<Run>, k: nat, last: BidiType, c: Carry)
    requires State2(runs0, runs, k, last, c)
    ensures k <= |runs| == |runs0|
  {
  }

  lemma UpdatedIs(runs: seq<Run>, k: nat, last: BidiType)
    requires k < |runs|
    ensures Updated(runs, k, last) == if PrevType(runs, k).IsStrong() then PrevType(runs, k) else last
  {
  }

  lemma EndState2(runs0: seq<Run>, runs: seq<Run>, last: BidiType, c: Carry)
    requires State2(runs0, runs, |runs0|, last, c)
    ensures |runs| == |runs0| && forall i | 0 <= i < |runs0| :: runs[i] == runs0[i].(kind := Run7(runs0, i))
  {
  }

  /** On a list without isolates every run gets the type of the five passes. */
  lemma {:induction false} NumbersFree(runs0: seq<Run>, runs: seq<Run>, k: nat, table: seq<BidiType>, c: Carry)
    requires Free(runs0) && Calm(runs0) && IsolatesFit(runs) && |table| == STRONG_SLOTS
             && State2(runs0, runs, k, table[0], c)
    ensures var r := NumbersFrom(runs, k, table, c);
            |r| == |runs0| && forall i | 0 <= i < |runs0| :: r[i] == runs0[i].(kind := Run7(runs0, i))
    decreases |runs| - k
  {
    hide State2;
    hide Free;
    hide Calm;
    hide Turn2;
    hide PrevType;
    hide NextType;
    hide IsolatesFit;
    State2Bounds(runs0, runs, k, table[0], c);
    if k < |runs| {
      LevelFits(runs, k);
      Turn2State(runs0, runs, k, table[0], c);
      UpdatedIs(runs, k, table[0]);
      var t := Heard(runs, k, table);
      var turned := Turned2(runs, k, t[0], c);
      KindFits(runs, k, Turn2(runs, k, PrevType(runs, k), NextType(runs, k), t[0], c).0);
      NumbersFree(runs0, turned.0, k + 1, t, turned.1);
    } else {
      EndState2(runs0, runs, table[0], c);
    }
  }

  lemma SoundBounds(runs: seq<Run>, k: nat, c: Carry, base: nat, codes: seq<Run>, places: seq<Spot>)
    requires SoundState2(runs, k, c, base, codes, places)
    ensures k <= |runs|
  {
  }

  /** With or without isolates the list keeps its shape, and only neutrals,
      letters and numbers are left. */
  lemma {:induction false} NumbersSound(runs: seq<Run>, k: nat, table: seq<BidiType>, c: Carry, base: nat,
                                        codes: seq<Run>, places: seq<Spot>)
    requires IsolatesFit(runs) && |table| == STRONG_SLOTS && SoundState2(runs, k, c, base, codes, places)
    ensures var r := NumbersFrom(runs, k, table, c); Sound(r, base, codes, places) && Settled(r)
    decreases |runs| - k
  {
    hide SoundState2;
    hide Turn2;
    hide PrevType;
    hide NextType;
    hide IsolatesFit;
    hide Sound;
    hide Settled;
    SoundBounds(runs, k, c, base, codes, places);
    if k < |runs| {
      LevelFits(runs, k);
      var t := Heard(runs, k, table);
      var strong := t[runs[k].isolateLevel];
      Turn2Sound(runs, k, strong, c, base, codes, places);
      var turned := Turned2(runs, k, strong, c);
      KindFits(runs, k, Turn2(runs, k, PrevType(runs, k), NextType(runs, k), strong, c).0);
      NumbersSound(turned.0, k + 1, t, turned.1, base, codes, places);
    } else {
      EndSound2(runs, c, base, codes, places);
    }
  }
}
