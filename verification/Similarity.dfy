/** Lists that tell the same text: the phases from X10 to N2 look at types,
    levels, lengths and brackets, never at where a run stands in the paragraph. */
module Similarity {
  import opened BidiTypes
  import opened Runs
  import opened Chains
  import opened NextRunCache
  import opened IsolateLinks
  import opened Nesting
  import opened Alignment
  import opened Compaction
  import opened WeakPass1
  import opened WeakProof1
  import opened WeakPass2
  import opened WeakProof2
  import opened BracketPairs
  import opened BracketRules
  import opened BracketPhase
  import opened Neutrals
  import opened Resolution

  ghost predicate SimilarRun(a: Run, b: Run) {
    b == a.(pos := b.pos, fsiBaseLevel := b.fsiBaseLevel)
  }

  ghost predicate Similar(a: seq<Run>, b: seq<Run>) {
    |a| == |b| && forall i | 0 <= i < |a| :: SimilarRun(a[i], b[i])
  }

  // ----- One text, one list -----

  lemma {:induction false} SpotsSimilar(a: seq<Run>, b: seq<Run>, sight: Sight)
    requires Similar(a, b)
    ensures Spots(a, sight) == Spots(b, sight)
    decreases |a|
  {
    if a != [] {
      var n := |a| - 1;
      assert SimilarRun(a[n], b[n]);
      SpotsSimilar(a[..n], b[..n], sight);
    }
  }

  lemma SpotsEnd(runs: seq<Run>, sight: Sight)
    requires runs != [] && runs[|runs| - 1].len > 0
    ensures var n, s := |runs| - 1, Spots(runs, sight);
            && |s| == |Spots(runs[..n], sight)| + runs[n].len
            && s[|s| - 1] == SpotOf(runs[n], sight) && s[..|s| - runs[n].len] == Spots(runs[..n], sight)
            && forall j | |s| - runs[n].len <= j < |s| :: s[j] == SpotOf(runs[n], sight)
  {
  }

  /** Of two lists with the same text, the last run of the one is not longer. */
  lemma {:induction false} LastRun(a: seq<Run>, b: seq<Run>)
    requires Joined(a, |a|, false) && SingleBrackets(a) && SingleBrackets(b)
    requires a != [] && b != [] && Spots(a, Full) == Spots(b, Full)
    ensures SpotOf(a[|a| - 1], Full) == SpotOf(b[|b| - 1], Full) && a[|a| - 1].len >= b[|b| - 1].len
  {
    hide Spots;
    var m, n, s := |a| - 1, |b| - 1, Spots(a, Full);
    SpotsEnd(a, Full);
    SpotsEnd(b, Full);
    if m == 0 {
      assert a[..m] == [];
      SpotsNothing(Full);
    } else {
      assert a[..m][m - 1] == a[m - 1];
      SpotsEnd(a[..m], Full);
      assert !Joins(a[m - 1], a[m], false);
      assert s[|s| - a[m].len - 1] == SpotOf(a[m - 1], Full);
    }
  }

  lemma SimilarLast(a: seq<Run>, b: seq<Run>)
    requires a != [] && b != [] && Similar(a[..|a| - 1], b[..|b| - 1]) && SimilarRun(a[|a| - 1], b[|b| - 1])
    ensures Similar(a, b)
  {
    forall i | 0 <= i < |a| ensures SimilarRun(a[i], b[i]) {
      if i < |a| - 1 {
        assert SimilarRun(a[..|a| - 1][i], b[..|b| - 1][i]);
      }
    }
  }

  /** A joined list is told by its text. */
  lemma {:induction false} SameText(a: seq<Run>, b: seq<Run>)
    requires Joined(a, |a|, false) && Joined(b, |b|, false) && SingleBrackets(a) && SingleBrackets(b)
    requires Spots(a, Full) == Spots(b, Full)
    ensures Similar(a, b)
    decreases |a|
  {
    hide Spots;
    hide Joins;
    if a == [] || b == [] {
      SpotsNothing(Full);
      if a != [] {
        SpotsEnd(a, Full);
      }
      if b != [] {
        SpotsEnd(b, Full);
      }
    } else {
      var m, n := |a| - 1, |b| - 1;
      LastRun(a, b);
      LastRun(b, a);
      SpotsEnd(a, Full);
      SpotsEnd(b, Full);
      SameText(a[..m], b[..n]);
      assert SimilarRun(a[m], b[n]);
      SimilarLast(a, b);
    }
  }

  // ----- Changing the list -----

  lemma SimilarMerge(a: seq<Run>, b: seq<Run>, k: nat)
    requires Similar(a, b) && 0 < k < |a|
    ensures Similar(MergeWithPrev(a, k), MergeWithPrev(b, k))
  {
    var r, s := MergeWithPrev(a, k), MergeWithPrev(b, k);
    assert SimilarRun(a[k], b[k]);
    forall i | 0 <= i < |r| ensures SimilarRun(r[i], s[i]) {
      assert SimilarRun(a[if i < k then i else i + 1], b[if i < k then i else i + 1]);
    }
  }

  lemma SimilarSet(a: seq<Run>, b: seq<Run>, k: nat, kind: BidiType)
    requires Similar(a, b) && k < |a|
    ensures Similar(SetKind(a, k, kind), SetKind(b, k, kind))
  {
    var r, s := SetKind(a, k, kind), SetKind(b, k, kind);
    forall i | 0 <= i < |r| ensures SimilarRun(r[i], s[i]) {
      assert SimilarRun(a[i], b[i]);
    }
  }

  lemma SimilarAt(a: seq<Run>, b: seq<Run>, k: nat)
    requires Similar(a, b) && k < |a|
    ensures a[k].kind == b[k].kind && a[k].level == b[k].level && a[k].isolateLevel == b[k].isolateLevel
    ensures a[k].len == b[k].len && a[k].bracket == b[k].bracket
  {
    assert SimilarRun(a[k], b[k]);
  }

  lemma SimilarFits(a: seq<Run>, b: seq<Run>)
    requires Similar(a, b) && IsolatesFit(a)
    ensures IsolatesFit(b)
  {
    forall i | 0 <= i < |b| ensures b[i].isolateLevel < STRONG_SLOTS {
      assert SimilarRun(a[i], b[i]);
    }
  }

  lemma SimilarSize(a: seq<Run>, b: seq<Run>)
    requires Similar(a, b)
    ensures |a| == |b|
  {
  }

  lemma {:induction false} SimilarCompact(a: seq<Run>, b: seq<Run>, k: nat, blur: bool)
    requires Similar(a, b)
    ensures Similar(CompactFrom(a, k, blur), CompactFrom(b, k, blur))
    decreases |a| - k
  {
    hide Similar;
    hide IsolatesFit;
    hide MergeWithPrev;
    SimilarSize(a, b);
    if 0 < k < |a| {
      SimilarAt(a, b, k - 1);
      SimilarAt(a, b, k);
      SimilarMerge(a, b, k);
      if Joins(a[k - 1], a[k], blur) {
        SimilarCompact(MergeWithPrev(a, k), MergeWithPrev(b, k), k, blur);
      } else {
        SimilarCompact(a, b, k + 1, blur);
      }
    }
  }

  // ----- Chains -----

  lemma SimilarChain(a: seq<Run>, b: seq<Run>, k: nat)
    requires Similar(a, b) && k < |a|
    ensures Prev(a, k) == Prev(b, k) && NextSkippingPdi(a, k) == NextSkippingPdi(b, k)
    ensures Continues(a, k) == Continues(b, k)
    ensures PrevType(a, k) == PrevType(b, k) && NextType(a, k) == NextType(b, k)
  {
    hide PrevFrom;
    hide NextFrom;
    hide NextSkippingPdi;
    forall i | 0 <= i < |a| ensures a[i].kind == b[i].kind {
      SimilarAt(a, b, i);
    }
    forall i | 0 <= i < |a| ensures a[i].level == b[i].level && a[i].isolateLevel == b[i].isolateLevel {
      SimilarAt(a, b, i);
    }
    PrevLevels(a, b, a[k].isolateLevel, k - 1);
    SearchSame(a, b, k, 0);
  }

  // ----- W1 to W7 -----

  lemma SimilarMarkBack(a: seq<Run>, b: seq<Run>, k: nat)
    requires Similar(a, b) && k < |a|
    ensures MarkBack(a, k).1 == MarkBack(b, k).1 && Similar(MarkBack(a, k).0, MarkBack(b, k).0)
  {
    hide Similar;
    hide Prev;
    hide PrevType;
    hide MergeWithPrev;
    hide NextSkippingPdi;
    hide NextType;
    SimilarSize(a, b);
    SimilarChain(a, b, k);
    SimilarAt(a, b, k);
    if k > 0 {
      SimilarAt(a, b, k - 1);
    }
    if Prev(a, k) >= 0 {
      SimilarAt(a, b, Prev(a, k));
    }
    SimilarSet(a, b, k, ON);
    var r, s := if k > 0 && a[k - 1].kind.IsIsolate() then SetKind(a, k, ON) else a,
                if k > 0 && b[k - 1].kind.IsIsolate() then SetKind(b, k, ON) else b;
    SimilarSet(r, s, k, PrevType(a, k));
    if k > 0 {
      SimilarMerge(r, s, k);
    }
  }

  lemma SimilarMark(a: seq<Run>, b: seq<Run>, k: nat)
    requires Similar(a, b) && k < |a|
    ensures MarkStep(a, k).1 == MarkStep(b, k).1 && Similar(MarkStep(a, k).0, MarkStep(b, k).0)
  {
    hide Similar;
    hide MarkBack;
    hide MergeWithPrev;
    hide PrevType;
    hide NextType;
    hide NextSkippingPdi;
    hide Prev;
    SimilarSize(a, b);
    SimilarChain(a, b, k);
    SimilarMarkBack(a, b, k);
    var (r, k') := MarkBack(a, k);
    var s := MarkBack(b, k).0;
    SimilarSize(r, s);
    SimilarAt(r, s, k');
    if k' + 1 < |r| {
      SimilarAt(r, s, k' + 1);
      SimilarMerge(r, s, k' + 1);
    }
  }

  lemma SimilarNumber(a: seq<Run>, b: seq<Run>, k: nat)
    requires Similar(a, b) && k < |a|
    ensures Similar(NumberStep(a, k), NumberStep(b, k))
  {
    hide Similar;
    hide PrevType;
    hide NextType;
    hide NextSkippingPdi;
    hide Prev;
    SimilarSize(a, b);
    SimilarChain(a, b, k);
    SimilarSet(a, b, k, AN);
    if NextSkippingPdi(a, k) >= 0 {
      SimilarSet(SetKind(a, k, AN), SetKind(b, k, AN), NextSkippingPdi(a, k), AN);
    }
  }

  lemma SimilarTurn1(a: seq<Run>, b: seq<Run>, k: nat, strong: BidiType)
    requires Similar(a, b) && k < |a|
    ensures Turn1(a, k, strong).1 == Turn1(b, k, strong).1 && Similar(Turn1(a, k, strong).0, Turn1(b, k, strong).0)
  {
    hide Similar;
    hide MarkStep;
    hide NumberStep;
    SimilarSize(a, b);
    SimilarAt(a, b, k);
    SimilarMark(a, b, k);
    SimilarNumber(a, b, k);
  }

  lemma SimilarHeard(a: seq<Run>, b: seq<Run>, k: nat, table: seq<BidiType>)
    requires Similar(a, b) && k < |a| && a[k].isolateLevel < |table|
    ensures k < |b| && b[k].isolateLevel == a[k].isolateLevel && Heard(a, k, table) == Heard(b, k, table)
  {
    hide Similar;
    hide PrevType;
    hide NextType;
    SimilarSize(a, b);
    SimilarAt(a, b, k);
    SimilarChain(a, b, k);
  }

  lemma {:induction false} SimilarMarks(a: seq<Run>, b: seq<Run>, k: nat, table: seq<BidiType>)
    requires Similar(a, b) && IsolatesFit(a) && IsolatesFit(b) && |table| == STRONG_SLOTS
    ensures Similar(MarksFrom(a, k, table), MarksFrom(b, k, table))
    decreases |a| - k
  {
    hide Similar;
    hide IsolatesFit;
    hide Turn1;
    hide Heard;
    SimilarSize(a, b);
    if k < |a| {
      LevelFits(a, k);
      SimilarHeard(a, b, k, table);
      var t := Heard(a, k, table);
      var strong := t[a[k].isolateLevel];
      SimilarTurn1(a, b, k, strong);
      Turn1Fits(a, k, strong);
      Turn1Fits(b, k, strong);
      SimilarMarks(Turn1(a, k, strong).0, Turn1(b, k, strong).0, Turn1(a, k, strong).1, t);
    }
  }

  lemma SimilarTurn2Same(a: seq<Run>, b: seq<Run>, k: nat, strong: BidiType, c: Carry)
    requires k < |a| == |b| && a[k].kind == b[k].kind && a[k].len == b[k].len && LevelAfter(a, k) == LevelAfter(b, k)
    requires a[k].level == b[k].level && PrevType(a, k) == PrevType(b, k) && NextType(a, k) == NextType(b, k)
    ensures Turn2(a, k, PrevType(a, k), NextType(a, k), strong, c)
            == Turn2(b, k, PrevType(b, k), NextType(b, k), strong, c)
  {
    hide PrevType;
    hide NextType;
    hide LevelAfter;
    hide LevelToDir;
    hide IsEsOrCs;
  }

  lemma SimilarTurn2(a: seq<Run>, b: seq<Run>, k: nat, strong: BidiType, c: Carry)
    requires Similar(a, b) && k < |a|
    ensures k < |b| && Turned2(a, k, strong, c).1 == Turned2(b, k, strong, c).1
    ensures Similar(Turned2(a, k, strong, c).0, Turned2(b, k, strong, c).0)
  {
    hide Similar;
    hide PrevType;
    hide NextType;
    SimilarSize(a, b);
    SimilarAt(a, b, k);
    SimilarChain(a, b, k);
    if k + 1 < |a| {
      SimilarAt(a, b, k + 1);
    }
    SimilarTurn2Same(a, b, k, strong, c);
    SimilarSet(a, b, k, Turn2(a, k, PrevType(a, k), NextType(a, k), strong, c).0);
  }

  lemma {:induction false} SimilarNumbers(a: seq<Run>, b: seq<Run>, k: nat, table: seq<BidiType>, c: Carry)
    requires Similar(a, b) && IsolatesFit(a) && IsolatesFit(b) && |table| == STRONG_SLOTS
    ensures Similar(NumbersFrom(a, k, table, c), NumbersFrom(b, k, table, c))
    decreases |a| - k
  {
    hide Similar;
    hide IsolatesFit;
    hide Turn2;
    hide Heard;
    hide PrevType;
    hide NextType;
    SimilarSize(a, b);
    if k < |a| {
      LevelFits(a, k);
      SimilarHeard(a, b, k, table);
      var t := Heard(a, k, table);
      var strong := t[a[k].isolateLevel];
      SimilarTurn2(a, b, k, strong, c);
      KindFits(a, k, Turn2(a, k, PrevType(a, k), NextType(a, k), strong, c).0);
      KindFits(b, k, Turn2(b, k, PrevType(b, k), NextType(b, k), strong, c).0);
      SimilarNumbers(Turned2(a, k, strong, c).0, Turned2(b, k, strong, c).0, k + 1, t, Turned2(a, k, strong, c).1);
    }
  }

  lemma SimilarWeak(a: seq<Run>, b: seq<Run>, baseDir: BidiType)
    requires Similar(a, b) && IsolatesFit(a)
    ensures IsolatesFit(b) && Similar(Weakened(a, baseDir), Weakened(b, baseDir))
  {
    hide Similar;
    hide IsolatesFit;
    SimilarFits(a, b);
    var table := seq(STRONG_SLOTS, i => baseDir);
    SimilarMarks(a, b, 0, table);
    SimilarNumbers(MarksFrom(a, 0, table), MarksFrom(b, 0, table), 0, table, Carry(true, ON));
  }

  // ----- Brackets -----

  lemma {:induction false} SimilarMatch(a: seq<Run>, b: seq<Run>, stack: seq<nat>, id: nat)
    requires Similar(a, b)
    ensures Match(a, stack, id) == Match(b, stack, id)
  {
    hide Similar;
    SimilarSize(a, b);
    if stack != [] {
      var n := |stack| - 1;
      if stack[n] < |a| {
        SimilarAt(a, b, stack[n]);
      }
      SimilarMatch(a, b, stack[..n], id);
    }
  }

  lemma SimilarStep(a: seq<Run>, b: seq<Run>, st: Search, k: nat)
    requires Similar(a, b) && k < |a|
    ensures k < |b| && Bd16Step(a, st, k) == Bd16Step(b, st, k)
  {
    hide Similar;
    hide Match;
    SimilarSize(a, b);
    SimilarAt(a, b, k);
    if a[k].bracket != NoBracket {
      SimilarMatch(a, b, st.stack, a[k].bracket.id);
    }
  }

  lemma {:induction false} SimilarSearch(a: seq<Run>, b: seq<Run>, k: nat)
    requires Similar(a, b) && k < |a|
    ensures k < |b| && SearchAt(a, k) == SearchAt(b, k)
    decreases k
  {
    hide Similar;
    hide SearchAt;
    hide PrevFrom;
    hide Bd16Step;
    hide PrevType;
    hide NextType;
    SimilarSize(a, b);
    SimilarChain(a, b, k);
    SearchNext(a, k);
    SearchNext(b, k);
    if Continues(a, k) {
      SimilarSearch(a, b, Prev(a, k));
      SimilarStep(a, b, SearchAt(a, Prev(a, k)), k);
    } else {
      SimilarStep(a, b, Search([], false, -1), k);
    }
  }

  /** The same brackets, in the same order. */
  ghost predicate SamePairs(ps: seq<Pairing>, qs: seq<Pairing>) {
    |ps| == |qs| && forall i | 0 <= i < |ps| :: ps[i].open == qs[i].open && ps[i].close == qs[i].close
  }

  lemma PairingEnds(runs: seq<Run>, o: nat, c: nat)
    requires o < c < |runs|
    ensures PairingAt(runs, o, c).open == o && PairingAt(runs, o, c).close == c
  {
  }

  lemma {:induction false} SimilarPairs(a: seq<Run>, b: seq<Run>, k: nat)
    requires Similar(a, b) && k <= |a|
    ensures k <= |b| && SamePairs(PairsBefore(a, k), PairsBefore(b, k))
  {
    hide Similar;
    hide SearchAt;
    hide PairingAt;
    SimilarSize(a, b);
    if k > 0 {
      SimilarPairs(a, b, k - 1);
      SimilarSearch(a, b, k - 1);
      SearchStack(a, k - 1);
      SearchStack(b, k - 1);
      var o := SearchAt(a, k - 1).found;
      if o >= 0 {
        PairingEnds(a, o, k - 1);
        PairingEnds(b, o, k - 1);
      }
    }
  }

  lemma {:induction false} SameInsert(p: Pairing, q: Pairing, ps: seq<Pairing>, qs: seq<Pairing>)
    requires SamePairs(ps, qs) && p.open == q.open && p.close == q.close
    ensures SamePairs(Insert(p, ps), Insert(q, qs))
  {
    if ps != [] && p.open >= ps[0].open {
      SameInsert(p, q, ps[1..], qs[1..]);
    }
  }

  lemma {:induction false} SameSort(ps: seq<Pairing>, qs: seq<Pairing>)
    requires SamePairs(ps, qs)
    ensures SamePairs(Sort(ps), Sort(qs))
  {
    if ps != [] {
      SameSort(ps[1..], qs[1..]);
      SameInsert(ps[0], qs[0], Sort(ps[1..]), Sort(qs[1..]));
    }
  }

  lemma {:induction false} SimilarEncloses(a: seq<Run>, b: seq<Run>, o: nat, m: nat, dir: int)
    requires Similar(a, b) && m < |a|
    ensures m < |b| && Encloses(a, o, m, dir) == Encloses(b, o, m, dir)
    decreases m
  {
    hide Similar;
    hide PrevFrom;
    hide PrevType;
    hide NextType;
    SimilarSize(a, b);
    SimilarAt(a, b, m);
    SimilarChain(a, b, m);
    if Continues(a, m) {
      SimilarEncloses(a, b, o, Prev(a, m), dir);
    }
  }

  lemma {:induction false} SimilarContext(a: seq<Run>, b: seq<Run>, k: nat, base: nat)
    requires Similar(a, b) && k < |a|
    ensures k < |b| && Context(a, k, base) == Context(b, k, base)
    decreases k
  {
    hide Similar;
    hide PrevFrom;
    hide PrevType;
    hide NextType;
    SimilarSize(a, b);
    SimilarAt(a, b, k);
    SimilarChain(a, b, k);
    if k > 0 {
      SimilarAt(a, b, k - 1);
    }
    if Continues(a, k) {
      SimilarContext(a, b, Prev(a, k), base);
    }
  }

  lemma SimilarSetPair(a: seq<Run>, b: seq<Run>, o: nat, c: nat, dir: int)
    requires Similar(a, b) && o < |a| && c < |a|
    ensures o < |b| && c < |b| && Similar(SetPair(a, o, c, dir), SetPair(b, o, c, dir))
  {
    hide Similar;
    SimilarSize(a, b);
    SimilarSet(a, b, o, DirType(dir));
    SimilarSet(SetKind(a, o, DirType(dir)), SetKind(b, o, DirType(dir)), c, DirType(dir));
  }

  lemma SimilarPair(a: seq<Run>, b: seq<Run>, o: nat, c: nat, base: nat)
    requires Similar(a, b) && o < c < |a|
    ensures c < |b| && Similar(N0Pair(a, o, c, base), N0Pair(b, o, c, base))
  {
    hide Similar;
    hide Prev;
    hide PrevType;
    hide NextType;
    hide Encloses;
    hide Context;
    hide SetPair;
    SimilarSize(a, b);
    SimilarAt(a, b, o);
    SimilarChain(a, b, c);
    var e, m := Parity(a[o].level), Prev(a, c);
    if m >= 0 {
      SimilarEncloses(a, b, o, m, e);
      SimilarEncloses(a, b, o, m, 1 - e);
    }
    SimilarContext(a, b, o, base);
    SimilarSetPair(a, b, o, c, e);
    SimilarSetPair(a, b, o, c, 1 - e);
  }

  lemma {:induction false} SimilarN0(a: seq<Run>, b: seq<Run>, ps: seq<Pairing>, qs: seq<Pairing>, base: nat)
    requires Similar(a, b) && SamePairs(ps, qs) && PairsFit(ps, |a|) && PairsFit(qs, |b|)
    ensures Similar(N0(a, ps, base), N0(b, qs, base))
  {
    hide Similar;
    hide N0Pair;
    SimilarSize(a, b);
    if ps != [] {
      var n := |ps| - 1;
      SimilarN0(a, b, ps[..n], qs[..n], base);
      SimilarPair(N0(a, ps[..n], base), N0(b, qs[..n], base), ps[n].open, ps[n].close, base);
    }
  }

  lemma SimilarBrackets(a: seq<Run>, b: seq<Run>, base: nat)
    requires Similar(a, b)
    ensures Similar(N0(a, SortedPairs(a), base), N0(b, SortedPairs(b), base))
  {
    hide Similar;
    hide N0;
    hide Sort;
    hide PairsBefore;
    hide SamePairs;
    hide AllPaired;
    hide Sorted;
    SimilarSize(a, b);
    SimilarPairs(a, b, |a|);
    SortedAre(a);
    SortedAre(b);
    SameSort(PairsBefore(a, |a|), PairsBefore(b, |b|));
    SimilarN0(a, b, SortedPairs(a), SortedPairs(b), base);
  }

  lemma SimilarCleared(a: seq<Run>, b: seq<Run>)
    requires Similar(a, b)
    ensures Similar(Cleared(a), Cleared(b))
  {
    forall i | 0 <= i < |a| ensures SimilarRun(Cleared(a)[i], Cleared(b)[i]) {
      assert SimilarRun(a[i], b[i]);
    }
  }

  // ----- N1 and N2 -----

  lemma SimilarTurnN(a: seq<Run>, b: seq<Run>, k: nat)
    requires Similar(a, b) && k < |a|
    ensures k < |b| && TurnN(a, k, Prev(a, k), NextSkippingPdi(a, k)) == TurnN(b, k, Prev(b, k), NextSkippingPdi(b, k))
  {
    hide Similar;
    hide Prev;
    hide NextSkippingPdi;
    SimilarSize(a, b);
    SimilarAt(a, b, k);
    SimilarChain(a, b, k);
  }

  lemma {:induction false} SimilarNeutrals(a: seq<Run>, b: seq<Run>, k: nat)
    requires Similar(a, b)
    ensures Similar(NeutralsFrom(a, k), NeutralsFrom(b, k))
    decreases |a| - k
  {
    hide Similar;
    hide TurnN;
    hide Prev;
    hide NextSkippingPdi;
    SimilarSize(a, b);
    if k < |a| {
      var kind := TurnN(a, k, Prev(a, k), NextSkippingPdi(a, k));
      SimilarTurnN(a, b, k);
      SimilarSet(a, b, k, kind);
      SimilarNeutrals(SetKind(a, k, kind), SetKind(b, k, kind), k + 1);
    }
  }

  // ----- All phases -----

  /** Two lists of one text come out alike. */
  lemma SimilarStages(a: seq<Run>, b: seq<Run>, base: nat)
    requires IsolatesFit(a) && IsolatesFit(b) && Similar(CompactFrom(a, 1, false), CompactFrom(b, 1, false))
    ensures Similar(StagesOf(a, base).neutral, StagesOf(b, base).neutral)
  {
    hide Similar;
    hide IsolatesFit;
    hide CompactFrom;
    hide Weakened;
    hide N0;
    hide SortedPairs;
    hide Cleared;
    hide NeutralsFrom;
    var s, t := StagesOf(a, base), StagesOf(b, base);
    SimilarWeak(s.joined, t.joined, LevelToDir(base));
    SimilarCompact(s.weak, t.weak, 1, true);
    SimilarBrackets(s.soft, t.soft, base);
    SimilarCleared(s.paired, t.paired);
    SimilarCompact(Cleared(s.paired), Cleared(t.paired), 1, true);
    SimilarNeutrals(s.bare, t.bare, 0);
  }
}
