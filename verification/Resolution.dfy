/** From X10 to N2: the phases between the explicit and the implicit levels, one
    after the other. */
module Resolution {
  import opened BidiTypes
  import opened Runs
  import opened NextRunCache
  import opened IsolateLinks
  import opened Nesting
  import opened Alignment
  import opened Compaction
  import opened WeakShape
  import opened WeakPass1
  import opened WeakProof1
  import opened WeakPass2
  import opened WeakProof2
  import opened WeakEffects
  import opened BracketPairs
  import opened BracketRules
  import opened BracketPhase
  import opened Neutrals
  import opened SequenceRules
  import opened ImplicitLevels

  // ----- The phases in order -----

  /** The lists between the phases. */
  datatype Stages = Stages(joined: seq<Run>, weak: seq<Run>, soft: seq<Run>, paired: seq<Run>, bare: seq<Run>,
      neutral: seq<Run>)

  function Cleared(runs: seq<Run>): (r: seq<Run>)
    ensures |r| == |runs| && forall k | 0 <= k < |runs| :: r[k] == runs[k].(bracket := NoBracket)
  {
    seq(|runs|, k requires 0 <= k < |runs| => runs[k].(bracket := NoBracket))
  }

  /** From N0 to N2. */
  ghost function AfterWeak(joined: seq<Run>, weak: seq<Run>, base: nat): Stages {
    var soft := CompactFrom(weak, 1, true);
    var paired := N0(soft, SortedPairs(soft), base);
    var bare := CompactFrom(Cleared(paired), 1, true);
    Stages(joined, weak, soft, paired, bare, NeutralsFrom(bare, 0))
  }

  /** What the phases make of the list that the explicit phase leaves. */
  ghost function StagesOf(placed: seq<Run>, base: nat): Stages
    requires IsolatesFit(placed)
  {
    var joined := CompactFrom(placed, 1, false);
    AfterWeak(joined, Weakened(joined, LevelToDir(base)), base)
  }

  // ----- What the phases keep, and what each does -----

  ghost predicate SameCharacters(st: Stages, places: seq<Spot>) {
    && Spots(st.joined, Blind) == places && Spots(st.weak, Blind) == places && Spots(st.soft, Blind) == places
    && Spots(st.paired, Blind) == places && Spots(st.bare, Blind) == places && Spots(st.neutral, Blind) == places
  }

  /** The phases as the rules tell them: levels and isolate levels stay; weak
      types turn as W1 to W7 let them; brackets follow N0 and the remaining
      neutrals N1 and N2. */
  ghost predicate Staged(st: Stages, placed: seq<Run>, base: nat) {
    && SameCharacters(st, Spots(placed, Blind))
    && Spots(st.joined, Full) == Spots(placed, Full) && Joined(st.joined, |st.joined|, false)
    && Through((x, y) => MayBecome(x, y), Spots(placed, Sharp), Spots(st.weak, Sharp))
    && Spots(st.soft, Soft) == Spots(st.weak, Soft)
    && st.paired == N0(st.soft, SortedPairs(st.soft), base) && PairByPair(st.soft, base)
    && Spots(st.bare, Soft) == Spots(st.paired, Soft) && NoBrackets(st.bare) && Compacted(st.bare)
    && SameShape(st.bare, st.neutral) && NeutralsFollow(st.bare, st.neutral, base)
    && (forall k | 0 <= k < |st.bare| && !st.bare[k].kind.BS? :: st.neutral[k].kind == Resolved(st.bare, k, base))
    && (forall k | 0 <= k < |st.neutral| :: Decided(st.neutral[k].kind))
  }

  lemma SoundFits(runs: seq<Run>, base: nat, codes: seq<Run>, places: seq<Spot>)
    requires Sound(runs, base, codes, places)
    ensures IsolatesFit(runs) && Shaped(runs, base) && LevelsFit(runs) && Nested(runs, base) && PosIncreasing(runs)
    ensures Aligned(runs, codes, |places|) && Spots(runs, Blind) == places && AboveBase(runs, base)
  {
    hide Nested;
  }

  lemma CompactSound(runs: seq<Run>, blur: bool, base: nat, codes: seq<Run>, places: seq<Spot>)
    requires Sound(runs, base, codes, places)
    ensures var r := CompactFrom(runs, 1, blur);
            && Sound(r, base, codes, places) && (Settled(runs) ==> Settled(r)) && (NoBrackets(runs) ==> NoBrackets(r))
            && Spots(r, SightOf(blur)) == Spots(runs, SightOf(blur)) && Joined(r, |r|, blur)
            && (!blur ==> Spots(r, Full) == Spots(runs, Full))
            && (PlainBrackets(runs) ==> PlainBrackets(r))
  {
    hide Shaped;
    hide Aligned;
    hide Spots;
    hide NoCodes;
    hide Settled;
    hide NoBrackets;
    hide PlainBrackets;
    hide Joined;
    CompactAll(runs, blur, base, codes, |places|);
  }

  /** A pair of neutral brackets becomes a pair of letters. */
  lemma PairLetters(a: seq<Run>, b: seq<Run>, o: nat, c: nat, base: nat)
    requires OnlyLetters(a, b) && o < c < |a| && a[o].kind.ON? && a[c].kind.ON?
    ensures OnlyLetters(a, N0Pair(b, o, c, base))
  {
    hide Encloses;
    hide Context;
  }

  lemma LettersNone(runs: seq<Run>)
    ensures OnlyLetters(runs, runs)
  {
  }

  lemma OpenersAreNeutral(runs: seq<Run>, ps: seq<Pairing>, n: nat)
    requires AllPaired(runs, ps) && n < |ps|
    ensures ps[n].open < |runs| && runs[ps[n].open].kind.ON?
  {
    hide SearchAt;
    SearchStack(runs, ps[n].close);
  }

  /** N0 changes brackets only, and only to letters. */
  lemma {:induction false} N0Letters(runs: seq<Run>, ps: seq<Pairing>, base: nat)
    requires AllPaired(runs, ps) && PairsFit(ps, |runs|)
    ensures OnlyLetters(runs, N0(runs, ps, base))
  {
    hide OnlyLetters;
    hide N0Pair;
    hide Paired;
    if ps == [] {
      LettersNone(runs);
    } else {
      var n := |ps| - 1;
      N0Letters(runs, ps[..n], base);
      OpenersAreNeutral(runs, ps, n);
      ClosersAreNeutral(runs, ps, n);
      PairLetters(runs, N0(runs, ps[..n], base), ps[n].open, ps[n].close, base);
    }
  }

  lemma LettersSound(a: seq<Run>, b: seq<Run>, base: nat, codes: seq<Run>, places: seq<Spot>)
    requires OnlyLetters(a, b) && Sound(a, base, codes, places) && Settled(a)
    ensures Sound(b, base, codes, places) && Settled(b)
  {
    hide Nested;
    hide Spots;
    hide Aligned;
    ShapedSame(a, b, base);
    AlignedSame(a, b, codes, |places|);
    SpotsBlind(a, b);
  }

  lemma ClearedSound(runs: seq<Run>, base: nat, codes: seq<Run>, places: seq<Spot>)
    requires Sound(runs, base, codes, places) && Settled(runs)
    ensures Sound(Cleared(runs), base, codes, places) && Settled(Cleared(runs)) && NoBrackets(Cleared(runs))
  {
    hide Nested;
    hide Spots;
    hide Aligned;
    ShapedSame(runs, Cleared(runs), base);
    AlignedSame(runs, Cleared(runs), codes, |places|);
    SpotsBlind(runs, Cleared(runs));
  }

  lemma {:induction false} ClearedSpots(a: seq<Run>, b: seq<Run>)
    requires |a| == |b| && (forall k | 0 <= k < |a| :: b[k] == a[k].(bracket := NoBracket))
    ensures Spots(a, Soft) == Spots(b, Soft)
    decreases |a|
  {
    if a != [] {
      ClearedSpots(a[..|a| - 1], b[..|a| - 1]);
    }
  }

  lemma NeutralsResolvable(a: seq<Run>, b: seq<Run>, codes: seq<Run>, places: seq<Spot>)
    requires SameShape(a, b) && Aligned(a, codes, |places|) && Spots(a, Blind) == places && LevelsFit(a)
    requires forall k | 0 <= k < |b| :: Decided(b[k].kind)
    ensures Aligned(b, codes, |places|) && Spots(b, Blind) == places && Resolvable(b)
  {
    hide Spots;
    hide Aligned;
    AlignedSame(a, b, codes, |places|);
    SpotsBlind(a, b);
    forall k | 0 <= k < |b|
      ensures 0 <= b[k].level <= MAX_EXPLICIT_LEVEL && (b[k].kind.LTR? || b[k].kind.RTL? || b[k].kind.IsNumber()) {
      assert Decided(b[k].kind);
    }
  }

  lemma BracketsSound(soft: seq<Run>, base: nat, codes: seq<Run>, places: seq<Spot>)
    requires Sound(soft, base, codes, places) && Settled(soft)
    ensures var paired := N0(soft, SortedPairs(soft), base);
            && Sound(paired, base, codes, places) && Spots(paired, Blind) == places
            && Sound(Cleared(paired), base, codes, places) && Settled(Cleared(paired)) && NoBrackets(Cleared(paired))
            && Spots(Cleared(paired), Soft) == Spots(paired, Soft)
  {
    hide Sound;
    hide Settled;
    hide N0;
    hide OnlyLetters;
    hide AllPaired;
    hide Spots;
    hide NoBrackets;
    hide Cleared;
    var paired := N0(soft, SortedPairs(soft), base);
    SortedAre(soft);
    N0Letters(soft, SortedPairs(soft), base);
    LettersSound(soft, paired, base, codes, places);
    SoundFits(paired, base, codes, places);
    ClearedSound(paired, base, codes, places);
    ClearedSpots(paired, Cleared(paired));
  }

  lemma NeutralsSound(bare: seq<Run>, base: nat, codes: seq<Run>, places: seq<Spot>)
    requires Sound(bare, base, codes, places) && Settled(bare) && Compacted(bare)
    ensures var neutral := NeutralsFrom(bare, 0);
            && SameShape(bare, neutral) && NeutralsFollow(bare, neutral, base)
            && (forall k | 0 <= k < |bare| && !bare[k].kind.BS? :: neutral[k].kind == Resolved(bare, k, base))
            && (forall k | 0 <= k < |neutral| :: Decided(neutral[k].kind))
            && Aligned(neutral, codes, |places|) && Spots(neutral, Blind) == places && Resolvable(neutral)
  {
    hide Sound;
    hide Settled;
    hide Spots;
    hide Aligned;
    hide Compacted;
    hide Resolvable;
    hide Resolved;
    hide NeutralsFrom;
    hide Decided;
    SoundFits(bare, base, codes, places);
    hide Shaped;
    hide Nested;
    hide LevelsFit;
    hide AboveBase;
    hide PosIncreasing;
    StartN(bare, base);
    hide StateN;
    NeutralsResolve(bare, bare, 0, base);
    hide NeutralsFollow;
    NeutralsMean(bare, base);
    NeutralsResolvable(bare, NeutralsFrom(bare, 0), codes, places);
  }

  /** What holds at the end of the phases. */
  ghost predicate Done(neutral: seq<Run>, codes: seq<Run>, places: seq<Spot>) {
    Aligned(neutral, codes, |places|) && Spots(neutral, Blind) == places && Resolvable(neutral)
  }

  /** The list that W1 to W7 leave, and the one with its neutrals joined. */
  lemma WeakSound(placed: seq<Run>, base: nat, codes: seq<Run>, places: seq<Spot>)
    requires Sound(placed, base, codes, places)
    ensures IsolatesFit(placed)
    ensures var st := StagesOf(placed, base);
            && Sound(st.joined, base, codes, places) && Sound(st.weak, base, codes, places)
            && Sound(st.soft, base, codes, places) && Settled(st.soft)
            && Spots(st.joined, Full) == Spots(placed, Full) && Joined(st.joined, |st.joined|, false)
            && Through((x, y) => MayBecome(x, y), Spots(placed, Sharp), Spots(st.weak, Sharp))
            && Spots(st.soft, Soft) == Spots(st.weak, Soft)
  {
    hide Sound;
    hide Settled;
    hide Spots;
    hide Joined;
    hide Through;
    hide CompactFrom;
    hide Weakened;
    hide NoBrackets;
    hide PlainBrackets;
    hide IsolatesFit;
    SoundFits(placed, base, codes, places);
    var joined := CompactFrom(placed, 1, false);
    CompactSound(placed, false, base, codes, places);
    WeakenedSound(joined, LevelToDir(base), base, codes, places);
    WeakenedBecomes(joined, LevelToDir(base), base, codes, places);
    CompactSound(Weakened(joined, LevelToDir(base)), true, base, codes, places);
  }

  lemma StagesSound(placed: seq<Run>, base: nat, codes: seq<Run>, places: seq<Spot>)
    requires Sound(placed, base, codes, places)
    ensures IsolatesFit(placed)
    ensures Staged(StagesOf(placed, base), placed, base) && Done(StagesOf(placed, base).neutral, codes, places)
  {
    hide Sound;
    hide Settled;
    hide Spots;
    hide Joined;
    hide Through;
    hide CompactFrom;
    hide Weakened;
    hide NoBrackets;
    hide PlainBrackets;
    hide IsolatesFit;
    hide Compacted;
    hide Cleared;
    hide N0;
    hide NeutralsFrom;
    hide Resolved;
    hide Decided;
    hide Resolvable;
    hide Aligned;
    WeakSound(placed, base, codes, places);
    var st := StagesOf(placed, base);
    SoundFits(placed, base, codes, places);
    SoundFits(st.joined, base, codes, places);
    SoundFits(st.weak, base, codes, places);
    SoundFits(st.soft, base, codes, places);
    hide Shaped;
    hide Nested;
    hide LevelsFit;
    hide AboveBase;
    hide PosIncreasing;
    BracketsSound(st.soft, base, codes, places);
    hide PairByPair;
    hide NeutralsFollow;
    PairsFollow(st.soft, base);
    CompactSound(Cleared(st.paired), true, base, codes, places);
    SoundFits(st.bare, base, codes, places);
    JoinedIsCompacted(st.bare);
    NeutralsSound(st.bare, base, codes, places);
  }

  // ----- The methods -----

  /** The bracket property is removed once N0 is done. */
  method ClearBrackets(runs0: seq<Run>) returns (runs: seq<Run>)
    ensures runs == Cleared(runs0)
  {
    runs := runs0;
    for k := 0 to |runs|
      invariant |runs| == |runs0| && forall i | 0 <= i < k :: runs[i] == runs0[i].(bracket := NoBracket)
      invariant forall i | k <= i < |runs| :: runs[i] == runs0[i]
    {
      runs := runs[k := runs[k].(bracket := NoBracket)];
    }
  }

  lemma ClearedLinks(runs: seq<Run>, links: Links)
    requires Agree(runs, links)
    ensures Agree(Cleared(runs), links)
  {
    hide Agree;
    AgreeSame(runs, Cleared(runs), links);
  }

  /** X10 to N2.  The isolate links go along from phase to phase. */
  method Resolve(placed: seq<Run>, links0: Links, base: nat, ghost codes: seq<Run>, ghost places: seq<Spot>)
    returns (neutral: seq<Run>, links: Links, ghost st: Stages)
    requires Sound(placed, base, codes, places) && Agree(placed, links0)
    ensures IsolatesFit(placed) && st == StagesOf(placed, base) && neutral == st.neutral && Agree(neutral, links)
  {
    hide Agree;
    hide Sound;
    hide Settled;
    hide Spots;
    hide Joined;
    hide Through;
    hide CompactFrom;
    hide Weakened;
    hide IsolatesFit;
    hide Cleared;
    hide N0;
    hide NeutralsFrom;
    hide OnlyLetters;
    hide Aligned;
    hide Compacted;
    hide NoBrackets;
    WeakSound(placed, base, codes, places);
    st := StagesOf(placed, base);
    SoundFits(st.joined, base, codes, places);
    SoundFits(st.soft, base, codes, places);
    hide Shaped;
    hide Nested;
    hide LevelsFit;
    hide AboveBase;
    hide PosIncreasing;
    var joined, weak, soft;
    joined, links := Compact(placed, links0, false);
    weak, links := ResolveWeakTypes(joined, links, LevelToDir(base), base, codes, places);
    soft, links := Compact(weak, links, true);
    var paired := ResolveBrackets(soft, links, base);
    var cleared := ClearBrackets(paired);
    ClearedLinks(paired, links);
    var bare;
    bare, links := Compact(cleared, links, true);
    BracketsSound(soft, base, codes, places);
    CompactSound(cleared, true, base, codes, places);
    SoundFits(bare, base, codes, places);
    neutral := ResolveNeutrals(bare, links);
  }
}
