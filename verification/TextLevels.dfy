/** The levels of a paragraph as a function of its characters: the text that X9
    keeps, the directions that the phases after X9 find for it, and the levels
    that follow. */
module TextLevels {
  import opened BidiTypes
  import opened Runs
  import opened Alignment
  import opened Compaction
  import opened ExplicitRules
  import opened ExplicitPhase
  import opened ExplicitAlignment
  import opened ExplicitState
  import opened Shadow
  import opened Chains
  import opened IsolateLinks
  import opened WeakPass1
  import opened WeakProof1
  import opened WeakPass2
  import opened WeakProof2
  import opened BracketPairs
  import opened BracketRules
  import opened BracketPhase
  import opened Neutrals
  import opened Resolution
  import opened Similarity
  import opened ImplicitLevels
  import opened FinalLevels

  // ----- The kept text and its directions -----

  ghost function SpotAtX(types: seq<BidiType>, brackets: seq<Bracket>, base: nat, x: nat): seq<Spot>
    requires x < |types| == |brackets|
  {
    match Result(types, base, x)
    case Removed => []
    case Kept(level, kind, isolates) => [Spot(kind, level, isolates, brackets[x])]
  }

  /** The kept ones of the first `n` characters, as X1 to X8 leave them. */
  ghost function KeptText(types: seq<BidiType>, brackets: seq<Bracket>, base: nat, n: nat): seq<Spot>
    requires n <= |types| == |brackets|
  {
    if n == 0 then []
    else KeptText(types, brackets, base, n - 1) + SpotAtX(types, brackets, base, n - 1)
  }

  /** The text as a list with a run for every character. */
  function Singles(text: seq<Spot>): (r: seq<Run>)
    ensures |r| == |text|
  {
    seq(|text|, i requires 0 <= i < |text| => Run(i, 1, text[i].kind, text[i].level, text[i].isolateLevel,
      text[i].bracket, 0))
  }

  lemma {:induction false} KeptFits(types: seq<BidiType>, brackets: seq<Bracket>, base: nat, n: nat)
    requires n <= |types| == |brackets| && Shallow(types, base)
    ensures forall i | 0 <= i < |KeptText(types, brackets, base, n)| ::
              KeptText(types, brackets, base, n)[i].isolateLevel < STRONG_SLOTS
  {
    hide Before;
    if n > 0 {
      KeptFits(types, brackets, base, n - 1);
      assert Before(types, base, n - 1).validIsolates <= MAX_ISOLATE_LEVEL;
      assert Before(types, base, n).validIsolates <= MAX_ISOLATE_LEVEL;
    }
  }

  lemma SinglesFit(types: seq<BidiType>, brackets: seq<Bracket>, base: nat)
    requires |types| == |brackets| && Shallow(types, base)
    ensures IsolatesFit(Singles(KeptText(types, brackets, base, |types|)))
  {
    KeptFits(types, brackets, base, |types|);
  }

  /** What the phases from X10 to N2 make of the kept characters. */
  ghost function Directions(types: seq<BidiType>, brackets: seq<Bracket>, base: nat): seq<Spot>
    requires |types| == |brackets| && Shallow(types, base)
  {
    SinglesFit(types, brackets, base);
    Spots(StagesOf(Singles(KeptText(types, brackets, base, |types|)), base).neutral, Sharp)
  }

  /** How many characters before `x` are kept. */
  ghost function Rank(types: seq<BidiType>, brackets: seq<Bracket>, base: nat, x: nat): nat
    requires x <= |types| == |brackets|
  {
    |KeptText(types, brackets, base, x)|
  }

  // ----- The run list tells the kept text -----

  /** The brackets of a run are those of its characters, and stand alone. */
  ghost predicate BracketRun(r: Run, brackets: seq<Bracket>) {
    && r.pos + r.len <= |brackets| && (forall p | r.pos <= p < r.pos + r.len :: brackets[p] == r.bracket)
    && (r.bracket != NoBracket ==> r.len == 1)
  }

  ghost predicate BracketsKept(runs: seq<Run>, brackets: seq<Bracket>) {
    forall k | 0 <= k < |runs| :: BracketRun(runs[k], brackets)
  }

  lemma {:induction false} TextRemoved(types: seq<BidiType>, brackets: seq<Bracket>, base: nat, p: nat, n: nat)
    requires p + n <= |types| == |brackets| && forall q | p <= q < p + n :: types[q].IsExplicitOrBn()
    ensures KeptText(types, brackets, base, p + n) == KeptText(types, brackets, base, p)
  {
    hide Before;
    if n > 0 {
      TextRemoved(types, brackets, base, p, n - 1);
    }
  }

  lemma {:induction false} TextKept(types: seq<BidiType>, brackets: seq<Bracket>, base: nat, p: nat, n: nat, s: Spot)
    requires p + n <= |types| == |brackets|
    requires forall q | p <= q < p + n :: SpotAtX(types, brackets, base, q) == [s]
    ensures KeptText(types, brackets, base, p + n) == KeptText(types, brackets, base, p) + Repeat(s, n)
  {
    hide SpotAtX;
    if n > 0 {
      TextKept(types, brackets, base, p, n - 1, s);
      assert Repeat(s, n) == Repeat(s, n - 1) + [s];
    }
  }

  /** A part of a kept run. */
  lemma RunTells(r: Run, m: Run, types: seq<BidiType>, brackets: seq<Bracket>, base: nat, d: nat)
    requires |types| == |brackets| && Placed(r, m, types, base) && Shallow(types, base) && BracketRun(r, brackets)
    requires d <= r.len && r.len > 0
    ensures KeptText(types, brackets, base, r.pos + d)
            == KeptText(types, brackets, base, r.pos) + Repeat(SpotOf(m, Full), d)
  {
    hide Result;
    hide KeptText;
    hide Shallow;
    forall q | r.pos <= q < r.pos + d ensures SpotAtX(types, brackets, base, q) == [SpotOf(m, Full)] {
      assert Result(types, base, q).Kept?;
    }
    TextKept(types, brackets, base, r.pos, d, SpotOf(m, Full));
  }

  lemma SpotsUpTo(list: seq<Run>, n: nat, sight: Sight)
    requires n < |list|
    ensures Spots(list[..n + 1], sight) == Spots(list[..n], sight) + Repeat(SpotOf(list[n], sight), list[n].len)
  {
    assert list[..n + 1][..n] == list[..n];
  }

  lemma RunInText(r: Run, types: seq<BidiType>)
    requires RunReady(r, types)
    ensures r.pos <= |types|
  {
  }

  lemma PlacedLength(r: Run, m: Run, types: seq<BidiType>, base: nat)
    requires Placed(r, m, types, base)
    ensures m.len == r.len && m.pos == r.pos && m.bracket == r.bracket
  {
  }

  lemma RemovedRun(r: Run, types: seq<BidiType>, brackets: seq<Bracket>, base: nat)
    requires |types| == |brackets| && RunReady(r, types) && r.kind.IsExplicitOrBn()
    ensures KeptText(types, brackets, base, r.pos + r.len) == KeptText(types, brackets, base, r.pos)
  {
    TextRemoved(types, brackets, base, r.pos, r.len);
  }

  lemma TellsNothing(runs: seq<Run>, list: seq<Run>, types: seq<BidiType>, brackets: seq<Bracket>, base: nat)
    requires |types| == |brackets| && Ready(runs, types)
    ensures Survivors(runs[..0]) == [] && StartOf(runs, 0, |types|) == 0
    ensures Spots(list[..0], Full) == KeptText(types, brackets, base, 0) == []
  {
  }

  /** Where the survivors of the first `n` runs, and run `n`, are among all. */
  lemma {:induction false} SurvivorPlace(runs: seq<Run>, n: nat)
    requires n <= |runs|
    ensures Survivors(runs[..n]) <= Survivors(runs)
    ensures n < |runs| && !runs[n].kind.IsExplicitOrBn() ==>
              var k := |Survivors(runs[..n])|; k < |Survivors(runs)| && Survivors(runs)[k] == runs[n]
    decreases |runs| - n
  {
    if n == |runs| {
      assert runs[..n] == runs;
    } else {
      SurvivorsNext(runs, n);
      SurvivorPlace(runs, n + 1);
    }
  }

  /** The kept runs among the first `n` tell the kept characters before run `n`. */
  lemma {:induction false} ListTells(runs: seq<Run>, list: seq<Run>, types: seq<BidiType>, brackets: seq<Bracket>,
                                     base: nat, n: nat)
    requires |types| == |brackets| && Ready(runs, types) && BracketsKept(runs, brackets) && Shallow(types, base)
    requires AllPlaced(Survivors(runs), list, types, base) && n <= |runs|
    ensures var k := |Survivors(runs[..n])|;
            && k <= |list| && StartOf(runs, n, |types|) <= |types|
            && Spots(list[..k], Full) == KeptText(types, brackets, base, StartOf(runs, n, |types|))
            && (n < |runs| && !runs[n].kind.IsExplicitOrBn() ==> k < |list| && Placed(runs[n], list[k], types, base))
  {
    hide Survivors;
    hide Codes;
    hide Shallow;
    hide Placed;
    hide KeptText;
    hide Spots;
    hide RunReady;
    hide BracketRun;
    SurvivorPlace(runs, n);
    if n < |runs| {
      RunInText(runs[n], types);
    }
    if n == 0 {
      TellsNothing(runs, list, types, brackets, base);
    } else {
      ListTells(runs, list, types, brackets, base, n - 1);
      SurvivorPlace(runs, n - 1);
      SurvivorsNext(runs, n - 1);
      StartNext(runs, n - 1, |types|);
      var r, k := runs[n - 1], |Survivors(runs[..n - 1])|;
      assert RunReady(r, types) && BracketRun(r, brackets);
      if r.kind.IsExplicitOrBn() {
        RemovedRun(r, types, brackets, base);
      } else {
        RunTells(r, list[k], types, brackets, base, r.len);
        PlacedLength(r, list[k], types, base);
        SpotsUpTo(list, k, Full);
      }
    }
  }

  /** Which run survivor number `i` was. */
  lemma {:induction false} SurvivorWas(runs: seq<Run>, i: nat, n: nat) returns (k: nat)
    requires n <= |runs| && i < |Survivors(runs[..n])|
    ensures k < n && !runs[k].kind.IsExplicitOrBn() && |Survivors(runs[..k])| == i && Survivors(runs[..n])[i] == runs[k]
    decreases n
  {
    hide Survivors;
    if n == 0 {
      assert runs[..0] == [];
      NothingPassed();
      assert false;
    } else {
      SurvivorsNext(runs, n - 1);
      if i < |Survivors(runs[..n - 1])| {
        k := SurvivorWas(runs, i, n - 1);
      } else {
        k := n - 1;
      }
    }
  }

  lemma WholeText(runs: seq<Run>, list: seq<Run>, types: seq<BidiType>, brackets: seq<Bracket>, base: nat)
    requires |types| == |brackets| && Ready(runs, types) && BracketsKept(runs, brackets) && Shallow(types, base)
    requires AllPlaced(Survivors(runs), list, types, base)
    ensures Spots(list, Full) == KeptText(types, brackets, base, |types|)
  {
    hide Survivors;
    hide KeptText;
    hide Spots;
    hide Shallow;
    hide Placed;
    ListTells(runs, list, types, brackets, base, |runs|);
    assert runs[..|runs|] == runs && list[..|list|] == list;
  }

  lemma ReadyTiled(runs: seq<Run>, types: seq<BidiType>)
    requires Ready(runs, types)
    ensures Tiled(runs, |types|)
  {
  }

  /** Kept character number `j` has `j` kept characters before it. */
  lemma RankOf(runs: seq<Run>, list: seq<Run>, codes: seq<Run>, types: seq<BidiType>, brackets: seq<Bracket>, base: nat,
               j: nat)
    requires |types| == |brackets| && Ready(runs, types) && BracketsKept(runs, brackets) && Shallow(types, base)
    requires AllPlaced(Survivors(runs), list, types, base) && AllShelved(Codes(runs), codes) && j < Off(list, |list|)
    ensures KeptPos(codes, j) <= |types| && Rank(types, brackets, base, KeptPos(codes, j)) == j
  {
    hide Survivors;
    hide Codes;
    hide KeptPos;
    hide Off;
    hide Spots;
    hide Shallow;
    hide KeptText;
    hide RunReady;
    hide BracketRun;
    hide Ready;
    var kept := Survivors(runs);
    assert Tiled(runs, |types|) by { ReadyTiled(runs, types); }
    hide Tiled;
    assert runs[..|runs|] == runs && Codes(runs) + [] == Codes(runs);
    var i := RunOf(list, |list|, j);
    var d := j - Off(list, i);
    OffPlaced(kept, list, types, base);
    OffSame(kept, list, i);
    KeptAligned(runs, |runs|, |types|, [], i, d);
    ShelvedSame(Codes(runs), codes, j);
    var n := SurvivorWas(runs, i, |runs|);
    ListTells(runs, list, types, brackets, base, n);
    OffIs(list, i, Full);
    assert BracketRun(runs[n], brackets);
    RunTells(runs[n], list[i], types, brackets, base, d);
  }

  // ----- The directions that the phases find -----

  lemma {:induction false} SinglesText(text: seq<Spot>)
    ensures Spots(Singles(text), Full) == text && SingleBrackets(Singles(text))
    decreases |text|
  {
    if text != [] {
      var n := |text| - 1;
      SinglesText(text[..n]);
      assert Singles(text)[..n] == Singles(text[..n]);
      assert text == text[..n] + [text[n]];
    }
  }

  lemma CompactText(list: seq<Run>)
    requires SingleBrackets(list)
    ensures var r := CompactFrom(list, 1, false);
            Spots(r, Full) == Spots(list, Full) && SingleBrackets(r) && Joined(r, |r|, false)
  {
    hide CompactFrom;
    hide Spots;
    hide Joined;
    hide SingleBrackets;
    CompactAll(list, false, 0, [], 0);
  }

  // ----- One direction for every kept character -----

  /** How many characters a list holds. */
  ghost function Size(runs: seq<Run>): nat { Off(runs, |runs|) }

  lemma SizeIs(runs: seq<Run>, sight: Sight)
    ensures |Spots(runs, sight)| == Size(runs)
  {
    hide Off;
    assert runs[..|runs|] == runs;
    OffIs(runs, |runs|, sight);
  }

  lemma SizeSet(runs: seq<Run>, k: nat, kind: BidiType)
    requires k < |runs|
    ensures Size(SetKind(runs, k, kind)) == Size(runs)
  {
    hide Off;
    OffSame(runs, SetKind(runs, k, kind), |runs|);
  }

  lemma SizeMerge(runs: seq<Run>, k: nat)
    requires 0 < k < |runs|
    ensures Size(MergeWithPrev(runs, k)) == Size(runs)
  {
    var r := MergeWithPrev(runs, k);
    OffMerged(runs, k, |r|);
  }

  lemma SizeTurn1(runs: seq<Run>, k: nat, strong: BidiType)
    requires k < |runs|
    ensures Size(Turn1(runs, k, strong).0) == Size(runs)
  {
    hide Size;
    hide MergeWithPrev;
    hide Prev;
    hide PrevType;
    hide NextType;
    hide NextSkippingPdi;
    SizeSet(runs, k, ON);
    SizeSet(runs, k, AN);
    SizeSet(runs, k, PrevType(runs, k));
    var r := SetKind(runs, k, ON);
    SizeSet(r, k, PrevType(runs, k));
    if k > 0 {
      SizeMerge(runs, k);
      SizeMerge(r, k);
    }
    var next := NextSkippingPdi(runs, k);
    if next >= 0 {
      SizeSet(SetKind(runs, k, AN), next, AN);
    }
    var (b, k') := MarkBack(runs, k);
    if k' + 1 < |b| {
      SizeMerge(b, k' + 1);
    }
  }

  lemma {:induction false} SizeMarks(runs: seq<Run>, k: nat, table: seq<BidiType>)
    requires IsolatesFit(runs) && |table| == STRONG_SLOTS
    ensures Size(MarksFrom(runs, k, table)) == Size(runs)
    decreases |runs| - k
  {
    hide Size;
    hide Turn1;
    if k < |runs| {
      var t := Heard(runs, k, table);
      var strong := t[runs[k].isolateLevel];
      SizeTurn1(runs, k, strong);
      Turn1Fits(runs, k, strong);
      SizeMarks(Turn1(runs, k, strong).0, Turn1(runs, k, strong).1, t);
    }
  }

  lemma SizeShape(a: seq<Run>, b: seq<Run>)
    requires |a| == |b| && forall i | 0 <= i < |a| :: a[i].len == b[i].len
    ensures Size(a) == Size(b)
  {
    hide Off;
    OffSame(a, b, |a|);
  }

  lemma SizePair(runs: seq<Run>, o: nat, c: nat, base: nat)
    requires o < c < |runs|
    ensures Size(N0Pair(runs, o, c, base)) == Size(runs)
  {
    hide Size;
    hide Prev;
    hide Encloses;
    hide Context;
    var e := Parity(runs[o].level);
    SizeShape(runs, SetPair(runs, o, c, e));
    SizeShape(runs, SetPair(runs, o, c, 1 - e));
  }

  lemma {:induction false} SizeN0(runs: seq<Run>, ps: seq<Pairing>, base: nat)
    requires PairsFit(ps, |runs|)
    ensures Size(N0(runs, ps, base)) == Size(runs)
  {
    hide Size;
    hide N0Pair;
    if ps != [] {
      var n := |ps| - 1;
      SizeN0(runs, ps[..n], base);
      SizePair(N0(runs, ps[..n], base), ps[n].open, ps[n].close, base);
    }
  }

  lemma SizeCompact(runs: seq<Run>, blur: bool)
    ensures Size(CompactFrom(runs, 1, blur)) == Size(runs)
  {
    hide Size;
    hide CompactFrom;
    hide Spots;
    hide Joined;
    CompactAll(runs, blur, 0, [], 0);
    SizeIs(runs, Blind);
    SizeIs(CompactFrom(runs, 1, blur), Blind);
  }

  /** The phases from X10 to N2 neither lose nor add a character, in any list. */
  lemma SizeStages(runs: seq<Run>, base: nat)
    requires IsolatesFit(runs)
    ensures Size(StagesOf(runs, base).neutral) == Size(runs)
  {
    hide Size;
    hide CompactFrom;
    hide MarksFrom;
    hide NumbersFrom;
    hide N0;
    hide NeutralsFrom;
    hide IsolatesFit;
    hide SortedPairs;
    var st := StagesOf(runs, base);
    var table := seq(STRONG_SLOTS, i => LevelToDir(base));
    SizeCompact(runs, false);
    SizeMarks(st.joined, 0, table);
    SizeShape(MarksFrom(st.joined, 0, table), st.weak);
    SizeCompact(st.weak, true);
    SizeN0(st.soft, SortedPairs(st.soft), base);
    SizeShape(st.paired, Cleared(st.paired));
    SizeCompact(Cleared(st.paired), true);
    SizeShape(st.bare, st.neutral);
  }

  lemma DirectionForEach(types: seq<BidiType>, brackets: seq<Bracket>, base: nat)
    requires |types| == |brackets| && Shallow(types, base)
    ensures |Directions(types, brackets, base)| == |KeptText(types, brackets, base, |types|)|
  {
    hide Shallow;
    hide Size;
    hide StagesOf;
    hide KeptText;
    hide Spots;
    var text := KeptText(types, brackets, base, |types|);
    SinglesFit(types, brackets, base);
    SizeStages(Singles(text), base);
    SizeIs(StagesOf(Singles(text), base).neutral, Sharp);
    SizeIs(Singles(text), Full);
    SinglesText(text);
  }

  /** Any list that tells the kept text comes out with the directions of the
      specification. */
  lemma ListDirections(list: seq<Run>, types: seq<BidiType>, brackets: seq<Bracket>, base: nat)
    requires |types| == |brackets| && Shallow(types, base) && IsolatesFit(list) && SingleBrackets(list)
    requires Spots(list, Full) == KeptText(types, brackets, base, |types|)
    ensures Spots(StagesOf(list, base).neutral, Sharp) == Directions(types, brackets, base)
  {
    hide Shallow;
    hide IsolatesFit;
    hide SingleBrackets;
    hide KeptText;
    hide Spots;
    hide StagesOf;
    hide CompactFrom;
    hide Joined;
    hide Similar;
    hide Singles;
    var text := KeptText(types, brackets, base, |types|);
    var one := Singles(text);
    SinglesFit(types, brackets, base);
    SinglesText(text);
    CompactText(list);
    CompactText(one);
    SameText(CompactFrom(list, 1, false), CompactFrom(one, 1, false));
    SimilarStages(list, one, base);
    SpotsSimilar(StagesOf(list, base).neutral, StagesOf(one, base).neutral, Sharp);
  }

  lemma {:induction false} TextGrows(types: seq<BidiType>, brackets: seq<Bracket>, base: nat, x: nat, n: nat)
    requires x <= n <= |types| == |brackets|
    ensures |KeptText(types, brackets, base, x)| <= |KeptText(types, brackets, base, n)|
    decreases n
  {
    hide Result;
    if x < n {
      TextGrows(types, brackets, base, x, n - 1);
    }
  }

  lemma KeptHasDirection(types: seq<BidiType>, brackets: seq<Bracket>, base: nat, x: nat)
    requires x < |types| == |brackets| && Shallow(types, base) && Result(types, base, x).Kept?
    ensures Rank(types, brackets, base, x) < |Directions(types, brackets, base)|
  {
    hide Result;
    hide Shallow;
    hide Directions;
    DirectionForEach(types, brackets, base);
    TextGrows(types, brackets, base, x + 1, |types|);
  }

  // ----- The levels -----

  /** The level of character `x` before L1: a kept character has its explicit
      level raised by I1 or I2 for its direction; a removed one has the level of
      the one before. */
  ghost function LevelBefore(types: seq<BidiType>, brackets: seq<Bracket>, base: nat, x: nat): nat
    requires x < |types| == |brackets| && Shallow(types, base)
  {
    match Result(types, base, x)
    case Removed => if x == 0 then base else LevelBefore(types, brackets, base, x - 1)
    case Kept(level, _, _) =>
      KeptHasDirection(types, brackets, base, x);
      Implicit(level, Directions(types, brackets, base)[Rank(types, brackets, base, x)].kind)
  }

  ghost function FinalLevel(types: seq<BidiType>, brackets: seq<Bracket>, base: nat, x: nat): nat
    requires x < |types| == |brackets| && Shallow(types, base)
  {
    if Resets(types, x) then base else LevelBefore(types, brackets, base, x)
  }

  /** The levels of the paragraph. */
  ghost function ParLevels(types: seq<BidiType>, brackets: seq<Bracket>, base: nat): (r: seq<nat>)
    requires |types| == |brackets| && Shallow(types, base)
    ensures |r| == |types|
  {
    seq(|types|, x requires 0 <= x < |types| => FinalLevel(types, brackets, base, x))
  }
}
