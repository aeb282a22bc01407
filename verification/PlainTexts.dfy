/** Texts without isolates: the fused weak-type loops give what the seven rules
    give one after the other. */
module PlainTexts {
  import opened BidiTypes
  import opened Runs
  import opened Chains
  import opened Nesting
  import opened Alignment
  import opened Compaction
  import opened Shadow
  import opened ExplicitRules
  import opened ExplicitLevels
  import opened ExplicitPhase
  import opened ExplicitShape
  import opened ExplicitAlignment
  import opened WeakShape
  import opened WeakPass1
  import opened WeakProof1
  import opened WeakPass2
  import opened WeakProof2
  import opened WeakCharacters
  import opened Resolution
  import opened TextLevels
  import opened KeptRuns

  // ----- Without isolates -----

  ghost predicate IsolateFree(types: seq<BidiType>) {
    forall i | 0 <= i < |types| :: !types[i].IsIsolate()
  }

  lemma {:induction false} NoIsolates(types: seq<BidiType>, base: nat, i: nat)
    requires IsolateFree(types) && i <= |types|
    ensures Before(types, base, i).validIsolates == 0
    decreases i
  {
    if i > 0 {
      NoIsolates(types, base, i - 1);
      assert !types[i - 1].IsIsolate();
    }
  }

  lemma FreeCharacter(types: seq<BidiType>, base: nat, x: nat)
    requires IsolateFree(types) && x < |types| && Result(types, base, x).Kept?
    ensures var c := Result(types, base, x); c.isolates == 0 && !c.kind.IsIsolate() && !c.kind.IsExplicitOrBn()
  {
    hide Before;
    NoIsolates(types, base, x);
    NoIsolates(types, base, x + 1);
    DirectionalOverrides(types, base, x);
  }

  lemma FreeSpots(encoded: seq<Run>, placed: seq<Run>, codes: seq<Run>, types: seq<BidiType>, base: nat, j: nat)
    requires Explicit(encoded, placed, codes, types, base) && Shallow(types, base) && base <= 1 && IsolateFree(types)
    requires j < |Spots(placed, Sharp)|
    ensures var s := Spots(placed, Sharp)[j]; s.isolateLevel == 0 && !s.kind.IsIsolate()
  {
    hide Ready;
    hide AllPlaced;
    hide AllShelved;
    hide Shallow;
    hide Spots;
    hide Off;
    hide Result;
    assert Tiled(encoded, |types|) by { ReadyTiled(encoded, types); }
    assert placed[..|placed|] == placed;
    OffIs(placed, |placed|, Sharp);
    KeptCharacter(encoded, types, base, placed, codes, j);
    FreeCharacter(types, base, KeptPos(codes, j));
  }

  /** Only characters of type ON are brackets, as fribidi_get_bracket_types has
      it. */
  ghost predicate NeutralBrackets(types: seq<BidiType>, brackets: seq<Bracket>) {
    |types| == |brackets| && forall i | 0 <= i < |types| && brackets[i] != NoBracket :: types[i].ON?
  }

  lemma BracketCharacter(types: seq<BidiType>, base: nat, x: nat)
    requires x < |types| && types[x].ON?
    ensures Result(types, base, x).Kept? && OverrideOk(Result(types, base, x).kind)
  {
    hide Before;
    DirectionalOverrides(types, base, x);
  }

  lemma RunBracket(encoded: seq<Run>, m: Run, k: nat, types: seq<BidiType>, brackets: seq<Bracket>, base: nat)
    requires Ready(encoded, types) && k < |encoded| && Placed(encoded[k], m, types, base)
             && BracketRun(encoded[k], brackets)
    requires NeutralBrackets(types, brackets) && m.bracket != NoBracket
    ensures OverrideOk(m.kind)
  {
    hide Result;
    var p := encoded[k].pos;
    assert RunReady(encoded[k], types);
    BracketCharacter(types, base, p);
    assert Result(types, base, p).Kept?;
  }

  lemma PlacedBrackets(encoded: seq<Run>, placed: seq<Run>, codes: seq<Run>, types: seq<BidiType>,
                       brackets: seq<Bracket>, base: nat)
    requires Explicit(encoded, placed, codes, types, base) && NeutralBrackets(types, brackets)
             && BracketsKept(encoded, brackets)
    ensures PlainBrackets(placed)
  {
    hide Survivors;
    hide Codes;
    hide Result;
    hide Ready;
    hide AllShelved;
    assert encoded[..|encoded|] == encoded;
    forall i | 0 <= i < |placed| && placed[i].bracket != NoBracket ensures OverrideOk(placed[i].kind) {
      var k := SurvivorWas(encoded, i, |encoded|);
      assert Placed(encoded[k], placed[i], types, base) && BracketRun(encoded[k], brackets);
      RunBracket(encoded, placed[i], k, types, brackets, base);
    }
  }

  /** The condition under which the weak-type theorem speaks of a list. */
  lemma PlainText(encoded: seq<Run>, placed: seq<Run>, codes: seq<Run>, types: seq<BidiType>, base: nat,
                  runs: seq<Run>, places: seq<Spot>)
    requires Explicit(encoded, placed, codes, types, base) && Shallow(types, base) && base <= 1 && IsolateFree(types)
    requires Sound(runs, base, codes, places) && PlainBrackets(runs) && Joined(runs, |runs|, false)
    requires Spots(runs, Sharp) == Spots(placed, Sharp)
    requires var ls := Levels(Spots(placed, Sharp)); ls == [] || ls[0] >= base
    ensures Plain(runs, Kinds(Spots(placed, Sharp)), Levels(Spots(placed, Sharp)), base)
  {
    hide Explicit;
    hide Shallow;
    hide Spots;
    hide Off;
    hide KeptPos;
    hide Nested;
    forall k | 0 <= k < |runs| ensures FreeRun(runs[k]) {
      assert RunAligned(runs, codes, k);
      SpotAt(runs, k, 0, Sharp);
      FreeSpots(encoded, placed, codes, types, base, Off(runs, k));
    }
    forall k | 0 < k < |runs| ensures CalmPair(runs[k - 1], runs[k]) {
      assert !Joins(runs[k - 1], runs[k], false);
      assert FreeRun(runs[k - 1]) && FreeRun(runs[k]);
      SpotAt(runs, k, 0, Sharp);
      FreeSpots(encoded, placed, codes, types, base, Off(runs, k));
    }
    SpotsSpell(runs);
  }

  // ----- A paragraph that starts with its separator -----

  lemma {:induction false} KeptPosIncreases(codes: seq<Run>, j: nat)
    ensures KeptPos(codes, j) < KeptPos(codes, j + 1)
    decreases |codes|
  {
    if codes != [] {
      KeptPosIncreases(codes[1..], j + codes[0].len);
      KeptPosRises(codes[1..], j + 1 + codes[0].len);
    }
  }

  lemma OnlyLast(types: seq<BidiType>, x: nat)
    requires OneParagraph(types) && x < |types| && types[x].BS?
    ensures x == |types| - 1
  {
  }

  lemma KeptAll(encoded: seq<Run>, placed: seq<Run>, codes: seq<Run>, types: seq<BidiType>, base: nat)
    requires Explicit(encoded, placed, codes, types, base) && Shallow(types, base) && base <= 1
    ensures Off(codes, |codes|) <= |types| && |Spots(placed, Sharp)| == |types| - Off(codes, |codes|)
  {
    hide Explicit;
    hide Shallow;
    hide Spots;
    hide Off;
    CodesFit(encoded, placed, codes, types, base);
    SoundFits(placed, base, codes, Spots(placed, Blind));
    AlignedLength(placed, codes, |types| - Off(codes, |codes|));
  }

  /** Only a paragraph separator is kept below the base level; then it is the
      only character kept. */
  lemma FirstKept(encoded: seq<Run>, placed: seq<Run>, codes: seq<Run>, types: seq<BidiType>, base: nat)
    requires Explicit(encoded, placed, codes, types, base) && Shallow(types, base) && base <= 1 && OneParagraph(types)
    requires Spots(placed, Sharp) != [] && Spots(placed, Sharp)[0].level < base
    ensures |Spots(placed, Sharp)| == 1 && Spots(placed, Sharp)[0].kind.BS?
  {
    hide Explicit;
    hide Shallow;
    hide Spots;
    hide Off;
    hide KeptPos;
    hide Before;
    hide OneParagraph;
    var n := |Spots(placed, Sharp)|;
    CodesFit(encoded, placed, codes, types, base);
    KeptAll(encoded, placed, codes, types, base);
    KeptIsKept(encoded, placed, codes, types, base, 0);
    var x := KeptPos(codes, 0);
    BeforeOk(types, base, x);
    BeforeOk(types, base, x + 1);
    assert types[x].BS?;
    if n > 1 {
      KeptIsKept(encoded, placed, codes, types, base, 1);
      KeptPosIncreases(codes, 0);
      KeptPosRises(codes, 0);
      OnlyLast(types, x);
    }
  }

  /** A lone separator stays what it is, in the loops as by the rules. */
  lemma LoneSeparator(runs: seq<Run>, baseDir: BidiType, base: nat)
    requires |runs| == 1 && runs[0].kind.BS? && runs[0].len == 1 && IsolatesFit(runs)
    ensures Weakened(runs, baseDir) == runs
    ensures forall level :: Weak([BS], [level], base) == [BS]
  {
    hide NextSkippingPdi;
    var table := seq(STRONG_SLOTS, i => baseDir);
    assert MarksFrom(runs, 0, table) == runs;
    assert NumbersFrom(runs, 0, table, Carry(true, ON)) == runs;
  }

  /** A list that tells one character. */
  lemma OneRun(runs: seq<Run>, codes: seq<Run>, n: nat)
    requires Aligned(runs, codes, n) && |Spots(runs, Sharp)| == 1
    ensures |runs| == 1 && runs[0].len == 1 && Spots(runs, Sharp)[0].kind == runs[0].kind
  {
    hide KeptPos;
    if runs != [] {
      assert RunAligned(runs, codes, 0);
      SpotAt(runs, 0, 0, Sharp);
      assert runs[..|runs|] == runs;
      OffIs(runs, |runs|, Sharp);
      if |runs| > 1 {
        assert RunAligned(runs, codes, 1);
        SpotAt(runs, 1, 0, Sharp);
      }
    }
  }

  // ----- The whole text -----

  /** In a text without isolates, weak-type resolution gives every character the
      type that W1 to W7 give it one after the other. */
  lemma WeakOfText(encoded: seq<Run>, placed: seq<Run>, codes: seq<Run>, types: seq<BidiType>, brackets: seq<Bracket>,
                   base: nat)
    requires Explicit(encoded, placed, codes, types, base) && BracketsKept(encoded, brackets)
             && NeutralBrackets(types, brackets)
    requires Shallow(types, base) && base <= 1 && OneParagraph(types) && IsolateFree(types)
    ensures IsolatesFit(placed)
    ensures var ks, ls := Kinds(Spots(placed, Sharp)), Levels(Spots(placed, Sharp));
            Spells(StagesOf(placed, base).weak, Weak(ks, ls, base), ls)
  {
    hide Explicit;
    hide Shallow;
    hide Spots;
    hide Off;
    hide OneParagraph;
    hide Sound;
    hide PlainBrackets;
    hide Joined;
    hide NeutralBrackets;
    hide BracketsKept;
    hide IsolateFree;
    hide CompactFrom;
    hide Weakened;
    hide Plain;
    hide Spells;
    hide Weak;
    var places := Spots(placed, Blind);
    var ks, ls := Kinds(Spots(placed, Sharp)), Levels(Spots(placed, Sharp));
    CodesFit(encoded, placed, codes, types, base);
    SoundFits(placed, base, codes, places);
    CompactSound(placed, false, base, codes, places);
    assert PlainBrackets(placed) by {
      PlacedBrackets(encoded, placed, codes, types, brackets, base);
    }
    var joined := CompactFrom(placed, 1, false);
    SoundFits(joined, base, codes, places);
    hide IsolatesFit;
    if ls == [] || ls[0] >= base {
      PlainText(encoded, placed, codes, types, base, joined, places);
      WeakenedPlain(joined, LevelToDir(base), ks, ls, base);
    } else {
      FirstKept(encoded, placed, codes, types, base);
      OneRun(joined, codes, |places|);
      LoneSeparator(joined, LevelToDir(base), base);
      SpotsSpell(joined);
      assert ks == [BS] && ls == [ls[0]];
    }
  }
}
