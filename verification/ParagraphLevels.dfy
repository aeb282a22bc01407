/** fribidi_get_par_embedding_levels_ex: the phases one after the other, and the
    levels they end in. */
module ParagraphLevels {
  import opened BidiTypes
  import opened Runs
  import opened IsolateLinks
  import opened Nesting
  import opened Alignment
  import opened Compaction
  import opened Shadow
  import opened Overlay
  import opened ExplicitRules
  import opened ExplicitLevels
  import opened ExplicitPhase
  import opened ExplicitAlignment
  import opened WeakShape
  import opened WeakPass1
  import opened WeakProof2
  import opened Neutrals
  import opened Resolution
  import opened TextLevels
  import opened KeptRuns
  import opened PlainTexts
  import opened WeakCharacters
  import opened WeakTexts
  import opened ImplicitLevels
  import opened FinalLevels

  // ----- I1 and I2 -----

  /** The implicit levels, character by character. */
  lemma {:induction false} ImplicitSpots(a: seq<Run>, b: seq<Run>, j: nat)
    requires |a| == |b| && Resolvable(a) && forall k | 0 <= k < |a| ::
               b[k] == a[k].(level := Implicit(a[k].level, a[k].kind))
    requires j < |Spots(a, Sharp)|
    ensures |Spots(a, Sharp)| == |Spots(b, Sharp)| == |Spots(a, Blind)| && Spots(a, Blind)[j].level >= 0
    ensures var s := Spots(a, Sharp)[j];
            && Decided(s.kind) && s.level == Spots(a, Blind)[j].level
            && Spots(b, Sharp)[j].level == Implicit(s.level, s.kind)
    decreases |a|
  {
    hide Implicit;
    hide Off;
    var m := |a| - 1;
    assert a[..m + 1] == a && b[..m + 1] == b;
    assert Resolvable(a[..m]);
    forall i | 0 <= i <= m + 1 ensures Off(a, i) == Off(b, i) {
      OffSame(a, b, i);
    }
    OffIs(a, m, Sharp);
    OffIs(a, m, Blind);
    OffIs(b, m, Sharp);
    OffIs(a, m + 1, Sharp);
    OffIs(b, m + 1, Sharp);
    OffIs(a, m + 1, Blind);
    if j < Off(a, m) {
      ImplicitSpots(a[..m], b[..m], j);
    }
  }

  /** A level that a run has is the level of a character. */
  lemma LevelShown(runs: seq<Run>, codes: seq<Run>, n: nat, k: nat)
    requires Aligned(runs, codes, n) && k < |runs|
    ensures Off(runs, k) < n == |Spots(runs, Sharp)| && Spots(runs, Sharp)[Off(runs, k)].level == runs[k].level
  {
    hide Off;
    hide Spots;
    hide KeptPos;
    assert RunAligned(runs, codes, k);
    AlignedLength(runs, codes, n);
    SpotAt(runs, k, 0, Sharp);
  }

  /** The direction found for a character decides the level it gets. */
  ghost predicate ImpliedAt(s: Spot, place: Spot, m: Spot, maxLevel: int) {
    Decided(s.kind) && s.level == place.level >= 0 && m.level == Implicit(place.level, s.kind) <= maxLevel
  }

  lemma ImpliedIs(s: Spot, place: Spot, m: Spot, maxLevel: int)
    requires Decided(s.kind) && s.level == place.level >= 0 && m.level == Implicit(place.level, s.kind) <= maxLevel
    ensures ImpliedAt(s, place, m, maxLevel)
  {
  }

  /** Each run shows a character that a run of the other list shows too. */
  lemma SpotOfRun(a: seq<Run>, b: seq<Run>, codes: seq<Run>, n: nat, k: nat)
    requires Aligned(a, codes, n) && Aligned(b, codes, n) && Spots(b, Sharp) == Spots(a, Sharp) && k < |b|
    ensures exists i :: 0 <= i < |a| && a[i].level == b[k].level && a[i].kind == b[k].kind
  {
    hide Spots;
    hide Off;
    hide KeptPos;
    assert RunAligned(b, codes, k);
    SpotAt(b, k, 0, Sharp);
    AlignedLength(a, codes, n);
    AlignedLength(b, codes, n);
    var j := Off(b, k);
    var i := RunOf(a, |a|, j);
    SpotAt(a, i, j - Off(a, i), Sharp);
  }

  lemma CompactAgain(a: seq<Run>, b: seq<Run>, base: nat, codes: seq<Run>, n: nat)
    requires Compacts(a, b, false, base, codes, n) && Aligned(a, codes, n) && Resolvable(a)
    ensures Aligned(b, codes, n) && Spots(b, Sharp) == Spots(a, Sharp) && Spots(b, Blind) == Spots(a, Blind)
            && Resolvable(b)
  {
    hide Aligned;
    hide Spots;
    hide Shaped;
    AlignedLength(b, codes, n);
    forall k | 0 <= k < |b|
      ensures 0 <= b[k].level <= MAX_EXPLICIT_LEVEL && (b[k].kind.LTR? || b[k].kind.RTL? || b[k].kind.IsNumber()) {
      SpotOfRun(a, b, codes, n, k);
    }
  }

  lemma CompactAgain2(a: seq<Run>, b: seq<Run>, base: nat, codes: seq<Run>, n: nat)
    requires Compacts(a, b, false, base, codes, n) && Aligned(a, codes, n)
    ensures Aligned(b, codes, n) && Spots(b, Sharp) == Spots(a, Sharp)
  {
    hide Aligned;
    hide Spots;
    hide Shaped;
  }

  lemma LevelBelow(runs: seq<Run>, maxLevel: nat, codes: seq<Run>, n: nat, j: nat)
    requires Aligned(runs, codes, n) && j < n && |Spots(runs, Sharp)| == n
             && forall k | 0 <= k < |runs| :: runs[k].level <= maxLevel
    ensures Spots(runs, Sharp)[j].level <= maxLevel
  {
    hide Spots;
    hide Off;
    hide KeptPos;
    var i := RunOf(runs, |runs|, j);
    SpotAt(runs, i, j - Off(runs, i), Sharp);
  }

  /** I1 and I2, and the list joined for the last time. */
  method ImplicitStage(neutral: seq<Run>, links0: Links, base: nat, ghost codes: seq<Run>, ghost places: seq<Spot>)
    returns (main: seq<Run>, maxLevel: nat)
    requires Done(neutral, codes, places) && Agree(neutral, links0)
    ensures Aligned(main, codes, |places|) && |Spots(main, Sharp)| == |places| == |Spots(neutral, Sharp)|
    ensures base <= maxLevel <= Max(base, MAX_EXPLICIT_LEVEL + 1)
    ensures forall j | 0 <= j < |places| ::
              ImpliedAt(Spots(neutral, Sharp)[j], places[j], Spots(main, Sharp)[j], maxLevel)
    ensures maxLevel == base || exists j :: 0 <= j < |places| && Spots(main, Sharp)[j].level == maxLevel
  {
    hide Spots;
    hide Aligned;
    hide Compacts;
    hide Implicit;
    hide Agree;
    hide CompactFrom;
    hide Joined;
    hide Resolvable;
    hide ImpliedAt;
    var list, links := Compact(neutral, links0, false);
    CompactAll(neutral, false, base, codes, |places|);
    CompactAgain(neutral, list, base, codes, |places|);
    var raised;
    raised, maxLevel := ResolveImplicit(list, base);
    AlignedSame(list, raised, codes, |places|);
    AlignedLength(raised, codes, |places|);
    AlignedLength(list, codes, |places|);
    AgreeSame(list, raised, links);
    CompactAll(raised, false, base, codes, |places|);
    main, links := Compact(raised, links, false);
    CompactAgain2(raised, main, base, codes, |places|);
    forall j | 0 <= j < |places|
      ensures ImpliedAt(Spots(neutral, Sharp)[j], places[j], Spots(main, Sharp)[j], maxLevel) {
      ImplicitSpots(list, raised, j);
      LevelBelow(raised, maxLevel, codes, |places|, j);
      ImpliedIs(Spots(neutral, Sharp)[j], places[j], Spots(main, Sharp)[j], maxLevel);
    }
    if maxLevel != base {
      ghost var k :| 0 <= k < |raised| && raised[k].level == maxLevel;
      LevelShown(raised, codes, |places|, k);
    }
  }

  // ----- The levels before L1 -----

  /** Between the base level and 126, but for a paragraph separator. */
  lemma {:induction false} LevelsInRange(types: seq<BidiType>, brackets: seq<Bracket>, base: nat, x: nat)
    requires |types| == |brackets| && Shallow(types, base) && OneParagraph(types) && base <= 1 && x < |types|
             && !types[x].BS?
    ensures base <= LevelBefore(types, brackets, base, x) <= MAX_EXPLICIT_LEVEL + 1
  {
    hide Before;
    hide Implicit;
    hide Shallow;
    hide KeptText;
    BeforeOk(types, base, x);
    BeforeOk(types, base, x + 1);
    if Result(types, base, x).Removed? && x > 0 {
      LevelsInRange(types, brackets, base, x - 1);
    }
  }

  /** The lists on the way: the encoded runs, the kept ones and the removed codes
      after X9, and the lists between the phases. */
  datatype Trace = Trace(encoded: seq<Run>, placed: seq<Run>, codes: seq<Run>, stages: Stages)

  ghost predicate Traced(tr: Trace, types: seq<BidiType>, brackets: seq<Bracket>, base: nat) {
    && |types| == |brackets| && Explicit(tr.encoded, tr.placed, tr.codes, types, base)
       && BracketsKept(tr.encoded, brackets)
    && Staged(tr.stages, tr.placed, base)
  }

  lemma KeptRank(tr: Trace, types: seq<BidiType>, brackets: seq<Bracket>, base: nat, j: nat)
    requires Traced(tr, types, brackets, base) && Shallow(types, base) && base <= 1
    requires Off(tr.codes, |tr.codes|) <= |types| && j < |types| - Off(tr.codes, |tr.codes|)
    ensures KeptPos(tr.codes, j) <= |types| && Rank(types, brackets, base, KeptPos(tr.codes, j)) == j
  {
    hide Ready;
    hide AllPlaced;
    hide AllShelved;
    hide Shallow;
    hide Off;
    hide KeptPos;
    hide Spots;
    hide KeptText;
    hide Staged;
    hide Directions;
    KeptAll(tr.encoded, tr.placed, tr.codes, types, base);
    assert tr.placed[..|tr.placed|] == tr.placed;
    OffIs(tr.placed, |tr.placed|, Sharp);
    RankOf(tr.encoded, tr.placed, tr.codes, types, brackets, base, j);
  }

  /** The directions found are those of the specification, and `s` has the levels
      that follow from them. */
  ghost predicate Directed(tr: Trace, types: seq<BidiType>, brackets: seq<Bracket>, base: nat, s: seq<Spot>,
                           maxLevel: int)
    requires |types| == |brackets| && Shallow(types, base)
  {
    && Spots(tr.stages.neutral, Sharp) == Directions(types, brackets, base)
    && |s| == |Spots(tr.stages.neutral, Sharp)| == |Spots(tr.placed, Blind)|
    && |s| + Off(tr.codes, |tr.codes|) == |types| && Fits(tr.codes, |s|, true)
    && forall j | 0 <= j < |s| ::
         ImpliedAt(Spots(tr.stages.neutral, Sharp)[j], Spots(tr.placed, Blind)[j], s[j], maxLevel)
  }

  /** Kept character number `j`: its level, before and after reinsertion. */
  lemma KeptLevelIs(tr: Trace, types: seq<BidiType>, brackets: seq<Bracket>, base: nat, s: seq<Spot>, maxLevel: int,
                    j: nat)
    requires Traced(tr, types, brackets, base) && Shallow(types, base) && base <= 1
    requires Directed(tr, types, brackets, base, s, maxLevel) && j < |s|
    ensures var x := KeptPos(tr.codes, j);
            && x < |types| && Result(types, base, x).Kept? && x < |s| + Off(tr.codes, |tr.codes|)
            && Refilled(s, tr.codes, x, base) == s[j].level == LevelBefore(types, brackets, base, x)
            && s[j].level == Implicit(Result(types, base, x).level, Spots(tr.stages.neutral, Sharp)[j].kind) <= maxLevel
  {
    hide Explicit;
    hide Shallow;
    hide Spots;
    hide Off;
    hide Fits;
    hide Refilled;
    hide Result;
    hide Implicit;
    hide KeptPos;
    hide BracketsKept;
    hide Directions;
    hide Staged;
    KeptIsKept(tr.encoded, tr.placed, tr.codes, types, base, j);
    KeptRank(tr, types, brackets, base, j);
    assert ImpliedAt(Spots(tr.stages.neutral, Sharp)[j], Spots(tr.placed, Blind)[j], s[j], maxLevel);
    KeptLevel(s, tr.codes, j, base);
  }

  /** The levels of the text that reinsertion makes of the resolved runs are
      those of the specification. */
  lemma {:induction false} PreAt(tr: Trace, types: seq<BidiType>, brackets: seq<Bracket>, base: nat, s: seq<Spot>,
                                 maxLevel: int, x: nat)
    requires Traced(tr, types, brackets, base) && Shallow(types, base) && base <= 1 && x < |types|
    requires Directed(tr, types, brackets, base, s, maxLevel)
    ensures Fits(tr.codes, |s|, true) && x < |s| + Off(tr.codes, |tr.codes|)
    ensures Refilled(s, tr.codes, x, base) == LevelBefore(types, brackets, base, x)
  {
    hide Explicit;
    hide Shallow;
    hide Spots;
    hide Off;
    hide Fits;
    hide Refilled;
    hide Result;
    hide Implicit;
    hide KeptPos;
    hide BracketsKept;
    hide Directions;
    hide Rank;
    hide ImpliedAt;
    hide Staged;
    var c, j := Placement(tr.encoded, tr.placed, tr.codes, types, base, x);
    if c >= 0 {
      CodeLevel(s, tr.codes, c, x, base);
      if x > 0 {
        PreAt(tr, types, brackets, base, s, maxLevel, x - 1);
      }
    } else {
      KeptLevelIs(tr, types, brackets, base, s, maxLevel, j);
    }
  }

  /** Nothing before L1 is above the highest level met. */
  lemma {:induction false} FilledBelow(s: seq<Spot>, x: nat, base: nat, top: int)
    requires x < |s| && base <= top && forall i | 0 <= i < |s| :: s[i].level <= top
    ensures FilledLevel(s, x, base) <= top
  {
    if s[x].level == -1 && x > 0 {
      FilledBelow(s, x - 1, base, top);
    }
  }

  lemma WovenBelow(s: seq<Spot>, codes: seq<Run>, k: nat, top: int)
    requires k <= |codes| && Fits(codes, |s|, true) && top >= 0
    requires (forall i | 0 <= i < |s| :: s[i].level <= top) && forall i | 0 <= i < |codes| :: codes[i].level == -1
    ensures forall i | 0 <= i < |Laid(s, codes, true, k)| :: Laid(s, codes, true, k)[i].level <= top
  {
    hide Fits;
    if k == 0 {
      LaidStart(s, codes, true);
    } else {
      WovenBelow(s, codes, k - 1, top);
      LaidNext(s, codes, true, k - 1);
      hide Laid;
    }
  }

  lemma PreBelow(s: seq<Spot>, codes: seq<Run>, n: nat, base: nat, top: nat, x: nat)
    requires Fits(codes, |s|, true) && base <= top && n == |s| + Off(codes, |codes|) && x < n
    requires (forall i | 0 <= i < |s| :: s[i].level <= top) && forall i | 0 <= i < |codes| :: codes[i].level == -1
    ensures Refilled(s, codes, x, base) <= top
  {
    hide Laid;
    WovenBelow(s, codes, |codes|, top);
    FilledBelow(Laid(s, codes, true, |codes|), x, base, top);
  }

  // ----- The whole call -----

  /** Every kept character has its explicit level raised by I1 or I2 for the
      direction that the phases have left it. */
  ghost predicate LevelsFollow(pre: seq<nat>, tr: Trace, types: seq<BidiType>, base: nat) {
    && |pre| == |types|
    && forall j | 0 <= j < |Spots(tr.stages.neutral, Sharp)| ::
         var x := KeptPos(tr.codes, j);
         && x < |types| && Result(types, base, x).Kept?
         && pre[x] == Implicit(Result(types, base, x).level, Spots(tr.stages.neutral, Sharp)[j].kind)
  }

  ghost function LevelsBefore(types: seq<BidiType>, brackets: seq<Bracket>, base: nat): (r: seq<nat>)
    requires |types| == |brackets| && Shallow(types, base)
    ensures |r| == |types|
  {
    seq(|types|, x requires 0 <= x < |types| => LevelBefore(types, brackets, base, x))
  }

  /** `result` is one more than the highest level before L1, or than the base
      level. */
  ghost predicate Tops(result: int, pre: seq<nat>, base: nat) {
    && result > base && (forall x | 0 <= x < |pre| :: pre[x] < result)
    && (result == base + 1 || exists x :: 0 <= x < |pre| && pre[x] + 1 == result)
  }

  lemma CodesLevel(codes: seq<Run>, types: seq<BidiType>)
    requires forall i | 0 <= i < |codes| :: CodeRunAt(codes[i], types)
    ensures forall i | 0 <= i < |codes| :: codes[i].level == -1
  {
    forall i | 0 <= i < |codes| ensures codes[i].level == -1 {
      assert CodeRunAt(codes[i], types);
    }
  }

  lemma PreTops(tr: Trace, types: seq<BidiType>, brackets: seq<Bracket>, base: nat, s: seq<Spot>, maxLevel: nat)
    requires Traced(tr, types, brackets, base) && Shallow(types, base) && base <= 1 && base <= maxLevel
    requires Directed(tr, types, brackets, base, s, maxLevel)
    requires maxLevel == base || exists j :: 0 <= j < |s| && s[j].level == maxLevel
    ensures Tops(maxLevel + 1, LevelsBefore(types, brackets, base), base)
    ensures LevelsFollow(LevelsBefore(types, brackets, base), tr, types, base)
  {
    hide Explicit;
    hide Shallow;
    hide Spots;
    hide Off;
    hide Fits;
    hide Refilled;
    hide Result;
    hide Implicit;
    hide KeptPos;
    hide BracketsKept;
    hide Directions;
    hide LevelBefore;
    hide Staged;
    var pre := LevelsBefore(types, brackets, base);
    assert forall i | 0 <= i < |tr.codes| :: tr.codes[i].level == -1 by {
      CodesFitIn(tr.encoded, tr.placed, tr.codes, types, base);
      CodesLevel(tr.codes, types);
    }
    forall x | 0 <= x < |types| ensures pre[x] <= maxLevel {
      PreAt(tr, types, brackets, base, s, maxLevel, x);
      PreBelow(s, tr.codes, |types|, base, maxLevel, x);
    }
    forall j | 0 <= j < |s|
      ensures var x := KeptPos(tr.codes, j);
              && x < |types| && Result(types, base, x).Kept? && pre[x] == s[j].level
              && pre[x] == Implicit(Result(types, base, x).level, Spots(tr.stages.neutral, Sharp)[j].kind) {
      KeptLevelIs(tr, types, brackets, base, s, maxLevel, j);
    }
    if maxLevel != base {
      var j :| 0 <= j < |s| && s[j].level == maxLevel;
      assert pre[KeptPos(tr.codes, j)] == maxLevel;
    }
  }

  lemma PlacedSingle(encoded: seq<Run>, placed: seq<Run>, codes: seq<Run>, types: seq<BidiType>, brackets: seq<Bracket>,
                     base: nat)
    requires Explicit(encoded, placed, codes, types, base) && BracketsKept(encoded, brackets)
    ensures SingleBrackets(placed)
  {
    hide Survivors;
    hide Codes;
    hide Result;
    hide AllShelved;
    assert encoded[..|encoded|] == encoded;
    forall i | 0 <= i < |placed| ensures placed[i].len > 0 && (placed[i].bracket != NoBracket ==> placed[i].len == 1) {
      var k := SurvivorWas(encoded, i, |encoded|);
      assert Placed(encoded[k], placed[i], types, base) && BracketRun(encoded[k], brackets)
             && RunReady(encoded[k], types);
    }
  }

  lemma DirectedText(encoded: seq<Run>, placed: seq<Run>, codes: seq<Run>, types: seq<BidiType>, brackets: seq<Bracket>,
                     base: nat)
    requires |types| == |brackets| && Explicit(encoded, placed, codes, types, base) && BracketsKept(encoded, brackets)
    requires Shallow(types, base) && IsolatesFit(placed)
    ensures Spots(StagesOf(placed, base).neutral, Sharp) == Directions(types, brackets, base)
  {
    hide Ready;
    hide AllPlaced;
    hide AllShelved;
    hide Shallow;
    hide IsolatesFit;
    hide Spots;
    hide StagesOf;
    hide Directions;
    hide KeptText;
    hide BracketsKept;
    WholeText(encoded, placed, types, brackets, base);
    PlacedSingle(encoded, placed, codes, types, brackets, base);
    ListDirections(placed, types, brackets, base);
  }

  lemma LevelsAre(levels: seq<nat>, types: seq<BidiType>, brackets: seq<Bracket>, base: nat)
    requires |levels| == |types| == |brackets| && Shallow(types, base)
    requires forall x | 0 <= x < |types| :: levels[x] == FinalLevel(types, brackets, base, x)
    ensures levels == ParLevels(types, brackets, base)
  {
    hide FinalLevel;
  }

  lemma LevelsNat(neutral: seq<Spot>, places: seq<Spot>, s: seq<Spot>, maxLevel: int)
    requires |neutral| == |places| == |s| && forall j | 0 <= j < |s| :: ImpliedAt(neutral[j], places[j], s[j], maxLevel)
    ensures forall j | 0 <= j < |s| :: s[j].level >= 0
  {
    hide Implicit;
  }

  lemma SeparatorResets(types: seq<BidiType>, x: nat)
    requires x < |types| && types[x].BS?
    ensures Resets(types, x)
  {
  }

  lemma FinalBounds(types: seq<BidiType>, brackets: seq<Bracket>, base: nat, result: nat, x: nat)
    requires |types| == |brackets| && Shallow(types, base) && OneParagraph(types) && base <= 1 && x < |types|
    requires Tops(result, LevelsBefore(types, brackets, base), base)
    ensures base <= FinalLevel(types, brackets, base, x) < result
  {
    hide Shallow;
    hide OneParagraph;
    hide LevelBefore;
    hide Resets;
    assert LevelsBefore(types, brackets, base)[x] < result;
    if !Resets(types, x) {
      if types[x].BS? {
        SeparatorResets(types, x);
      } else {
        LevelsInRange(types, brackets, base, x);
      }
    }
  }

  /** fribidi_get_par_embedding_levels_ex.  `tr` records the lists on the way. */
  method GetParEmbeddingLevels(types: seq<BidiType>, brackets: seq<Bracket>, strong: bool, fallback: nat)
    returns (levels: array<nat>, result: nat, baseDir: BidiType, ghost tr: Trace)
    requires |types| == |brackets| && types != [] && OneParagraph(types) && fallback <= 1
    requires Shallow(types, BaseLevel(types, strong, fallback))
    ensures fresh(levels) && levels.Length == |types| && baseDir == LevelToDir(BaseLevel(types, strong, fallback))
    ensures var base := BaseLevel(types, strong, fallback);
            && levels[..] == ParLevels(types, brackets, base)
            && Traced(tr, types, brackets, base) && IsolatesFit(tr.placed) && tr.stages == StagesOf(tr.placed, base)
            && LevelsFollow(LevelsBefore(types, brackets, base), tr, types, base)
            && Tops(result, LevelsBefore(types, brackets, base), base)
            && (forall x | 0 <= x < |types| :: base <= levels[x] < result <= MAX_EXPLICIT_LEVEL + 2)
    ensures var base, s := BaseLevel(types, strong, fallback), Spots(tr.placed, Sharp);
            IsolateFree(types) && NeutralBrackets(types, brackets) ==>
              Spells(tr.stages.weak, Weak(Kinds(s), Levels(s), base), Levels(s))
    ensures var base, s := BaseLevel(types, strong, fallback), Spots(tr.placed, Sharp);
            Roomy(types, base) && NeutralBrackets(types, brackets) ==> WeakAlone(s, Spots(tr.stages.weak, Sharp))
  {
    hide Explicit;
    hide BracketsKept;
    hide Shallow;
    hide Staged;
    hide BaseLevel;
    hide Sound;
    hide Spots;
    hide Aligned;
    hide Off;
    hide Fits;
    hide Refilled;
    hide Resets;
    hide Implicit;
    hide Resolvable;
    hide OneParagraph;
    hide StagesOf;
    hide Directions;
    hide Agree;
    hide Tops;
    hide LevelsFollow;
    hide LevelBefore;
    hide IsolateFree;
    hide NeutralBrackets;
    hide Roomy;
    hide WeakAlone;
    hide Spells;
    hide Weak;
    hide ImpliedAt;
    hide ParLevels;
    hide IsolatesFit;
    var encoded, placed, codes, base := ExplicitStage(types, brackets, strong, fallback);
    baseDir := LevelToDir(base);
    ghost var places := Spots(placed, Blind);
    CodesFit(encoded, placed, codes, types, base);
    CodesFitIn(encoded, placed, codes, types, base);
    CodesLevel(codes, types);
    SoundFits(placed, base, codes, places);
    var links := BuildLinks(placed);
    var neutral;
    ghost var stages;
    neutral, links, stages := Resolve(placed, links, base, codes, places);
    StagesSound(placed, base, codes, places);
    DirectedText(encoded, placed, codes, types, brackets, base);
    tr := Trace(encoded, placed, codes, stages);
    var main, maxLevel := ImplicitStage(neutral, links, base, codes, places);
    ghost var s := Spots(main, Sharp);
    LevelsNat(Spots(neutral, Sharp), places, s, maxLevel);
    levels := FinishLevels(main, codes, types, base, baseDir, |places|);
    result := maxLevel + 1;
    PreTops(tr, types, brackets, base, s, maxLevel);
    forall x | 0 <= x < |types|
      ensures levels[x] == FinalLevel(types, brackets, base, x) && base <= levels[x] < result {
      PreAt(tr, types, brackets, base, s, maxLevel, x);
      FinalBounds(types, brackets, base, result, x);
    }
    LevelsAre(levels[..], types, brackets, base);
    if IsolateFree(types) && NeutralBrackets(types, brackets) {
      WeakOfText(encoded, placed, codes, types, brackets, base);
    }
    if Roomy(types, base) && NeutralBrackets(types, brackets) {
      WeakOfSequences(encoded, placed, codes, types, brackets, base);
    }
  }
}
