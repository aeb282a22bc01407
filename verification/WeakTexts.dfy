/** Any text with room for its isolates: the fused weak-type loops give every
    isolating run sequence what the seven rules give it one after the other. */
module WeakTexts {
  import opened BidiTypes
  import opened Runs
  import opened Chains
  import opened Nesting
  import opened Alignment
  import opened Compaction
  import opened Shadow
  import opened ExplicitRules
  import opened ExplicitLevels
  import opened ExplicitPhase
  import opened ExplicitShape
  import opened WeakShape
  import opened WeakRules
  import opened WeakPass1
  import opened WeakProof1
  import opened WeakPass2
  import opened WeakProof2
  import opened WeakStretches
  import opened WeakChains
  import opened WeakCharacters
  import opened Resolution
  import opened TextLevels
  import opened KeptRuns
  import opened PlainTexts

  /** No isolate initiator overflows the directional status stack. */
  ghost predicate Roomy(types: seq<BidiType>, base: nat) {
    forall i | 0 <= i <= |types| :: Before(types, base, i).overflowIsolates == 0
  }

  // ----- Neighbouring characters -----

  lemma {:induction false} KeptPosOrder(codes: seq<Run>, i: nat, j: nat)
    requires i < j
    ensures KeptPos(codes, i) < KeptPos(codes, j)
    decreases j
  {
    hide KeptPos;
    KeptPosIncreases(codes, j - 1);
    if i < j - 1 {
      KeptPosOrder(codes, i, j - 1);
    }
  }

  /** Only removed codes stand between neighbouring kept characters. */
  lemma OnlyCodesBetween(encoded: seq<Run>, placed: seq<Run>, codes: seq<Run>, types: seq<BidiType>, base: nat, j: nat,
                         z: nat)
    requires Explicit(encoded, placed, codes, types, base) && Shallow(types, base) && base <= 1
    requires KeptPos(codes, j) < z < KeptPos(codes, j + 1) && z < |types|
    ensures types[z].IsExplicitOrBn()
  {
    hide Explicit;
    hide Shallow;
    hide KeptPos;
    hide Off;
    hide Before;
    var c, i := Placement(encoded, placed, codes, types, base, z);
    if c < 0 {
      if i < j {
        KeptPosOrder(codes, i, j);
      } else if i > j + 1 {
        KeptPosOrder(codes, j + 1, i);
      }
    }
  }

  lemma CodeKeepsIsolates(s: XState, t: BidiType, rtl: bool)
    requires s.stack != [] && t.IsExplicitOrBn()
    ensures Step(s, t, rtl).validIsolates == s.validIsolates
  {
    hide NextLevel;
  }

  lemma {:induction false} CodesKeepIsolates(types: seq<BidiType>, base: nat, x: nat, y: nat)
    requires x <= y <= |types| && forall z | x <= z < y :: types[z].IsExplicitOrBn()
    ensures Before(types, base, y).validIsolates == Before(types, base, x).validIsolates
    decreases y
  {
    hide Before;
    hide Step;
    if x < y {
      CodesKeepIsolates(types, base, x, y - 1);
      BeforeNext(types, base, y - 1);
      CodeKeepsIsolates(Before(types, base, y - 1), types[y - 1], FsiLevel(types, y - 1) == 1);
    }
  }

  lemma RoomyAt(types: seq<BidiType>, base: nat, i: nat)
    requires Roomy(types, base) && i <= |types|
    ensures Before(types, base, i).overflowIsolates == 0
  {
  }

  /** A weak type is left by a character that opens and closes no isolate. */
  lemma WeakCharacter(types: seq<BidiType>, base: nat, x: nat)
    requires x < |types| && base <= 1 && Result(types, base, x).Kept? && IsWeak(Result(types, base, x).kind)
    ensures Before(types, base, x + 1) == Before(types, base, x)
    ensures Result(types, base, x).isolates == Before(types, base, x).validIsolates
  {
    hide Before;
    DirectionalOverrides(types, base, x);
    BeforeNext(types, base, x);
  }

  /** With room for all isolates, a PDI leaves an isolate or is turned into ON. */
  lemma AnyCharacter(types: seq<BidiType>, base: nat, y: nat)
    requires y < |types| && base <= 1 && Roomy(types, base) && Result(types, base, y).Kept?
    ensures var b, n := Result(types, base, y), Before(types, base, y).validIsolates;
            b.isolates < n || (b.isolates == n && !b.kind.PDI?)
  {
    hide Before;
    hide DropEmbeddings;
    hide Roomy;
    DirectionalOverrides(types, base, y);
    BeforeNext(types, base, y);
    RoomyAt(types, base, y);
  }

  /** What is kept at `x` and then at `y`, with codes in between. */
  lemma QuietCharacters(types: seq<BidiType>, base: nat, x: nat, y: nat)
    requires x < y < |types| && base <= 1 && Roomy(types, base)
    requires forall z | x < z < y :: types[z].IsExplicitOrBn()
    requires Result(types, base, x).Kept? && Result(types, base, y).Kept? && IsWeak(Result(types, base, x).kind)
    ensures var a, b := Result(types, base, x), Result(types, base, y);
            b.isolates < a.isolates || (b.isolates == a.isolates && !b.kind.PDI?)
  {
    hide Result;
    hide Before;
    hide Roomy;
    WeakCharacter(types, base, x);
    AnyCharacter(types, base, y);
    CodesKeepIsolates(types, base, x + 1, y);
  }

  /** Neighbours among the kept characters. */
  lemma QuietSpots(encoded: seq<Run>, placed: seq<Run>, codes: seq<Run>, types: seq<BidiType>, base: nat, j: nat)
    requires Explicit(encoded, placed, codes, types, base) && Shallow(types, base) && base <= 1 && Roomy(types, base)
    requires j + 1 < |Spots(placed, Sharp)| && IsWeak(Spots(placed, Sharp)[j].kind)
    ensures var a, b := Spots(placed, Sharp)[j], Spots(placed, Sharp)[j + 1];
            b.isolateLevel < a.isolateLevel || (b.isolateLevel == a.isolateLevel && !b.kind.PDI?)
  {
    hide Explicit;
    hide Shallow;
    hide Roomy;
    hide Spots;
    hide Off;
    hide KeptPos;
    hide Result;
    KeptAll(encoded, placed, codes, types, base);
    KeptIsKept(encoded, placed, codes, types, base, j);
    KeptIsKept(encoded, placed, codes, types, base, j + 1);
    var x, y := KeptPos(codes, j), KeptPos(codes, j + 1);
    KeptPosIncreases(codes, j);
    forall z: nat | x < z < y ensures types[z].IsExplicitOrBn() {
      OnlyCodesBetween(encoded, placed, codes, types, base, j, z);
    }
    QuietCharacters(types, base, x, y);
  }

  /** A list whose neighbouring characters are quiet is quiet. */
  lemma QuietRuns(runs: seq<Run>)
    requires NoneEmpty(runs)
    requires forall j | 0 <= j && j + 1 < |Spots(runs, Sharp)| && IsWeak(Spots(runs, Sharp)[j].kind) ::
               var a, b := Spots(runs, Sharp)[j], Spots(runs, Sharp)[j + 1];
               b.isolateLevel < a.isolateLevel || (b.isolateLevel == a.isolateLevel && !b.kind.PDI?)
    ensures Quiet(runs)
  {
    hide Spots;
    hide Off;
    forall i | 0 < i < |runs| ensures QuietPair(runs[i - 1], runs[i]) {
      OffNext(runs, i - 1);
      SpotAt(runs, i - 1, runs[i - 1].len - 1, Sharp);
      SpotAt(runs, i, 0, Sharp);
      var j := Off(runs, i) - 1;
      assert Spots(runs, Sharp)[j].kind == runs[i - 1].kind;
    }
  }

  // ----- The theorem -----

  /** What W1 to W7 make of one sequence; every level outside that is not above
      its first gives the same start of the sequence (X10). */
  ghost predicate PassesFollow(a: seq<Spot>, w: seq<Spot>) {
    && Levels(w) == Levels(a)
    && forall before: nat | a != [] && before <= a[0].level :: Kinds(w) == Weak(Kinds(a), Levels(a), before)
  }

  /** Every sequence of the text is resolved as if it stood alone. */
  ghost predicate WeakAlone(a: seq<Spot>, w: seq<Spot>) {
    && |a| == |w|
    && forall b: nat, e: nat, d: nat | Isolated(a, b, e, d) ::
         PassesFollow(OfDepth(a[b..e], d), OfDepth(w[b..e], d))
  }

  lemma JoinedQuiet(encoded: seq<Run>, placed: seq<Run>, codes: seq<Run>, types: seq<BidiType>, base: nat,
                    runs: seq<Run>, places: seq<Spot>)
    requires Explicit(encoded, placed, codes, types, base) && Shallow(types, base) && base <= 1 && Roomy(types, base)
    requires Sound(runs, base, codes, places) && Spots(runs, Sharp) == Spots(placed, Sharp)
    ensures Quiet(runs)
  {
    hide Explicit;
    hide Shallow;
    hide Roomy;
    hide Spots;
    hide Sound;
    hide Lasting;
    hide NoneEmpty;
    hide Quiet;
    SoundLasting(runs, base, codes, places);
    LastingRuns(runs);
    forall j: nat | j + 1 < |Spots(runs, Sharp)| && IsWeak(Spots(runs, Sharp)[j].kind)
      ensures var a, b := Spots(runs, Sharp)[j], Spots(runs, Sharp)[j + 1];
              b.isolateLevel < a.isolateLevel || (b.isolateLevel == a.isolateLevel && !b.kind.PDI?) {
      QuietSpots(encoded, placed, codes, types, base, j);
    }
    QuietRuns(runs);
  }

  lemma SameWeakLength(runs: seq<Run>, baseDir: BidiType, base: nat, codes: seq<Run>, places: seq<Spot>)
    requires Sound(runs, base, codes, places)
    ensures IsolatesFit(runs) && |Spots(Weakened(runs, baseDir), Sharp)| == |Spots(runs, Sharp)|
  {
    hide Sound;
    hide Spots;
    hide Weakened;
    WeakenedSound(runs, baseDir, base, codes, places);
    SameLength(runs, Weakened(runs, baseDir), base, codes, places);
  }

  lemma LevelAbove(runs: seq<Run>, b: nat, base: nat, codes: seq<Run>, places: seq<Spot>)
    requires Sound(runs, base, codes, places) && b < |Spots(runs, Sharp)|
    ensures Spots(runs, Sharp)[b].level >= 0
  {
    hide Spots;
    hide Off;
    hide KeptPos;
    hide Nested;
    assert runs[..|runs|] == runs;
    OffIs(runs, |runs|, Sharp);
    var i := RunOf(runs, |runs|, b);
    SpotAt(runs, i, b - Off(runs, i), Sharp);
  }

  lemma OneSequence(runs: seq<Run>, baseDir: BidiType, b: nat, e: nat, d: nat, base: nat, codes: seq<Run>,
                    places: seq<Spot>)
    requires Sound(runs, base, codes, places) && Quiet(runs) && Joined(runs, |runs|, false) && PlainBrackets(runs)
    requires Isolated(Spots(runs, Sharp), b, e, d)
    ensures IsolatesFit(runs) && b < e <= |Spots(Weakened(runs, baseDir), Sharp)| == |Spots(runs, Sharp)|
    ensures PassesFollow(OfDepth(Spots(runs, Sharp)[b..e], d), OfDepth(Spots(Weakened(runs, baseDir), Sharp)[b..e], d))
  {
    hide Sound;
    hide Quiet;
    hide Joined;
    hide PlainBrackets;
    hide Spots;
    hide Weakened;
    hide Weak;
    hide OfDepth;
    hide IsolatesFit;
    SameWeakLength(runs, baseDir, base, codes, places);
    LevelAbove(runs, b, base, codes, places);
    var s := Spots(runs, Sharp);
    DepthFirst(s[b..e], d);
    WeakOfChain(runs, baseDir, b, e, d, 0, base, codes, places);
    forall before: nat | before <= s[b].level
      ensures Kinds(OfDepth(Spots(Weakened(runs, baseDir), Sharp)[b..e], d))
        == Weak(Kinds(OfDepth(s[b..e], d)), Levels(OfDepth(s[b..e], d)), before) {
      WeakOfChain(runs, baseDir, b, e, d, before, base, codes, places);
    }
  }

  /** In a text without overflowing isolates, weak-type resolution gives every
      character of every isolating run sequence the type that W1 to W7 give it
      one after the other on that sequence alone. */
  lemma WeakOfSequences(encoded: seq<Run>, placed: seq<Run>, codes: seq<Run>, types: seq<BidiType>,
                        brackets: seq<Bracket>, base: nat)
    requires Explicit(encoded, placed, codes, types, base) && BracketsKept(encoded, brackets)
             && NeutralBrackets(types, brackets)
    requires Shallow(types, base) && base <= 1 && Roomy(types, base)
    ensures IsolatesFit(placed)
    ensures WeakAlone(Spots(placed, Sharp), Spots(StagesOf(placed, base).weak, Sharp))
  {
    hide Explicit;
    hide Shallow;
    hide Roomy;
    hide Spots;
    hide Off;
    hide Sound;
    hide PlainBrackets;
    hide Joined;
    hide NeutralBrackets;
    hide BracketsKept;
    hide CompactFrom;
    hide Weakened;
    hide Weak;
    hide OfDepth;
    hide Quiet;
    var places, joined := Spots(placed, Blind), CompactFrom(placed, 1, false);
    CodesFit(encoded, placed, codes, types, base);
    SoundFits(placed, base, codes, places);
    CompactSound(placed, false, base, codes, places);
    assert PlainBrackets(placed) by { PlacedBrackets(encoded, placed, codes, types, brackets, base); }
    SoundFits(joined, base, codes, places);
    hide IsolatesFit;
    var w := Weakened(joined, LevelToDir(base));
    JoinedQuiet(encoded, placed, codes, types, base, joined, places);
    SameWeakLength(joined, LevelToDir(base), base, codes, places);
    var a := Spots(joined, Sharp);
    forall b: nat, e: nat, d: nat | Isolated(a, b, e, d)
      ensures PassesFollow(OfDepth(a[b..e], d), OfDepth(Spots(w, Sharp)[b..e], d)) {
      OneSequence(joined, LevelToDir(base), b, e, d, base, codes, places);
    }
  }

  // ----- Where an isolate overflows -----

  /** A terminator, a PDI and a number, on one level and isolate level. */
  ghost function Overflowed(kind: BidiType): seq<Run> {
    [Run(0, 1, kind, 1, 0, NoBracket, 0), Run(1, 1, PDI, 1, 0, NoBracket, 0), Run(2, 1, EN, 1, 0, NoBracket, 0)]
  }

  lemma OverflowedLinks(kind: BidiType)
    ensures var r := Overflowed(kind);
            && Prev(r, 0) == -1 && Prev(r, 1) == 0 && Prev(r, 2) == 1
            && NextSkippingPdi(r, 0) == 2 && NextSkippingPdi(r, 1) == 2 && NextSkippingPdi(r, 2) == -1
  {
    var r := Overflowed(kind);
    assert NextFrom(r, 0, 1) == 1 && NextFrom(r, 0, 2) == 2 && NextFrom(r, 0, 3) == -1;
    assert NextSkippingPdi(r, 1) == 2;
  }

  lemma OverflowedMarks(table: seq<BidiType>)
    requires |table| == STRONG_SLOTS && IsolatesFit(Overflowed(ET))
    ensures MarksFrom(Overflowed(ET), 0, table) == Overflowed(ET)
  {
    hide Prev;
    hide NextSkippingPdi;
    OverflowedLinks(ET);
    var r, t := Overflowed(ET), table[0 := RTL];
    assert Heard(r, 0, table) == t && Heard(r, 1, t) == t && Heard(r, 2, t) == t;
    assert MarksFrom(r, 3, t) == r;
    assert MarksFrom(r, 2, t) == r;
    assert MarksFrom(r, 1, t) == r;
  }

  lemma OverflowedTurns()
    ensures var a, b := Overflowed(ET), Overflowed(EN);
            && Turned2(a, 0, RTL, Carry(true, ON)) == (b, Carry(false, EN))
            && Turned2(b, 1, RTL, Carry(false, EN)) == (b, Carry(true, PDI))
            && Turned2(b, 2, RTL, Carry(true, PDI)).0 == b
  {
    hide Prev;
    hide NextSkippingPdi;
    OverflowedLinks(ET);
    OverflowedLinks(EN);
    var a, b := Overflowed(ET), Overflowed(EN);
    assert SetKind(a, 0, EN) == b && SetKind(b, 1, PDI) == b && SetKind(b, 2, EN) == b;
  }

  lemma OverflowedNumbers(table: seq<BidiType>)
    requires |table| == STRONG_SLOTS && IsolatesFit(Overflowed(ET))
    ensures NumbersFrom(Overflowed(ET), 0, table, Carry(true, ON)) == Overflowed(EN)
  {
    hide Prev;
    hide NextSkippingPdi;
    hide Turned2;
    OverflowedLinks(ET);
    OverflowedLinks(EN);
    OverflowedTurns();
    var a, b, t := Overflowed(ET), Overflowed(EN), table[0 := RTL];
    assert Heard(a, 0, table) == t && Heard(b, 1, t) == t && Heard(b, 2, t) == t;
    assert NumbersFrom(b, 2, t, Carry(true, PDI)) == b;
    assert NumbersFrom(b, 1, t, Carry(false, EN)) == b;
  }

  lemma OverflowedRules(base: nat)
    requires base <= 1
    ensures Weak([ET, PDI, EN], [1, 1, 1], base) == [ON, PDI, EN]
  {
    var ks, ls := [ET, PDI, EN], [1, 1, 1];
    assert Sos(ls, base, 0) == RTL && Strong(ks, ls, base, 1) == RTL && Strong(ks, ls, base, 2) == RTL;
    assert W1(ks, ls, base) == ks && W2(ks, ls, base) == ks && W3(ks) == ks && W4(ks, ls) == ks;
    assert W5(ks, ls) == ks;
    assert W6(ks) == [ON, PDI, EN];
  }

  /** An overflowing isolate leaves its contents on the level and isolate level
      outside.  Then the search that steps over PDIs sees a number behind the PDI
      that W5 does not see: the loops make the terminator a number, the rules
      make it a neutral. */
  lemma SearchPassesPdi(base: nat)
    requires base <= 1
    ensures IsolatesFit(Overflowed(ET)) && !Quiet(Overflowed(ET))
    ensures Weakened(Overflowed(ET), RTL) == Overflowed(EN)
    ensures Weak([ET, PDI, EN], [1, 1, 1], base) == [ON, PDI, EN]
  {
    assert !QuietPair(Overflowed(ET)[1 - 1], Overflowed(ET)[1]);
    var table := seq(STRONG_SLOTS, i => RTL);
    OverflowedMarks(table);
    OverflowedNumbers(table);
    OverflowedRules(base);
  }
}
