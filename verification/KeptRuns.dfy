/** Encoding and explicit levels: the runs that are kept, the codes that are
    removed, and where the characters of the text are among them. */
module KeptRuns {
  import opened BidiTypes
  import opened Runs
  import opened Nesting
  import opened Alignment
  import opened Compaction
  import opened Shadow
  import opened Overlay
  import opened ExplicitRules
  import opened ExplicitLevels
  import opened ExplicitPhase
  import opened ExplicitShape
  import opened ExplicitAlignment
  import opened WeakShape
  import opened Resolution
  import opened TextLevels

  /** P2 and P3, unless the caller asks for a direction; `fallback` is the level
      of the weak direction the caller gives. */
  ghost function BaseLevel(types: seq<BidiType>, strong: bool, fallback: nat): nat {
    if !strong && FirstLetter(types, 0) >= 0 then FirstLetter(types, 0) else fallback
  }

  // ----- Encoding and explicit levels -----

  /** The kept runs and the removed codes, as rules X1 to X9 leave them. */
  ghost predicate Explicit(encoded: seq<Run>, placed: seq<Run>, codes: seq<Run>, types: seq<BidiType>, base: nat) {
    Ready(encoded, types) && AllPlaced(Survivors(encoded), placed, types, base) && AllShelved(Codes(encoded), codes)
  }

  lemma EncodedReady(runs0: seq<Run>, runs: seq<Run>, types: seq<BidiType>, brackets: seq<Bracket>)
    requires |types| == |brackets| && Encodes(runs0, types, brackets) && OneParagraph(types)
    requires FsiFieldsOnly(runs0, runs) && FsiResolved(runs, types)
    ensures Ready(runs, types)
  {
    forall k | 0 <= k < |runs| ensures RunReady(runs[k], types) {
      assert runs0[k].(fsiBaseLevel := runs[k].fsiBaseLevel) == runs[k];
      assert Uniform(runs0[k], types, brackets);
    }
    assert Tiled(runs, |types|) by {
      forall k | 0 <= k < |runs| ensures runs[k].pos == runs0[k].pos && runs[k].len == runs0[k].len {
        assert runs0[k].(fsiBaseLevel := runs[k].fsiBaseLevel) == runs[k];
      }
    }
  }

  lemma {:induction false} LetterIsBit(types: seq<BidiType>, depth: nat)
    ensures FirstLetter(types, depth) <= 1
    decreases |types|
  {
    if types != [] {
      var t := types[0];
      LetterIsBit(types[1..], if t.PDI? then (if depth > 0 then depth - 1 else 0) else if t.IsInitiator()
        then depth + 1 else depth);
    }
  }

  lemma BaseIsBit(types: seq<BidiType>, strong: bool, fallback: nat)
    requires fallback <= 1
    ensures BaseLevel(types, strong, fallback) <= 1
  {
    LetterIsBit(types, 0);
  }

  lemma EncodedBrackets(runs0: seq<Run>, runs: seq<Run>, types: seq<BidiType>, brackets: seq<Bracket>)
    requires |types| == |brackets| && Encodes(runs0, types, brackets) && FsiFieldsOnly(runs0, runs)
    ensures BracketsKept(runs, brackets)
  {
    forall k | 0 <= k < |runs| ensures BracketRun(runs[k], brackets) {
      assert runs0[k].(fsiBaseLevel := runs[k].fsiBaseLevel) == runs[k];
      assert Uniform(runs0[k], types, brackets);
    }
  }

  /** Without isolates there is no FSI to resolve. */
  lemma NothingToResolve(runs: seq<Run>, types: seq<BidiType>, brackets: seq<Bracket>)
    requires |types| == |brackets| && Encodes(runs, types, brackets)
             && forall i | 0 <= i < |types| :: !types[i].IsIsolate()
    ensures FsiFieldsOnly(runs, runs) && FsiResolved(runs, types)
  {
    forall k | 0 <= k < |runs| ensures !runs[k].kind.FSI? {
      assert Uniform(runs[k], types, brackets);
      assert types[runs[k].pos] == runs[k].kind;
    }
  }

  method ExplicitStage(types: seq<BidiType>, brackets: seq<Bracket>, strong: bool, fallback: nat)
    returns (encoded: seq<Run>, placed: seq<Run>, codes: seq<Run>, base: nat)
    requires |types| == |brackets| && OneParagraph(types) && fallback <= 1
    ensures base == BaseLevel(types, strong, fallback) && base <= 1
    ensures Explicit(encoded, placed, codes, types, base) && BracketsKept(encoded, brackets)
  {
    hide Encodes;
    hide Ready;
    hide AllPlaced;
    hide AllShelved;
    hide FsiFieldsOnly;
    hide FsiResolved;
    hide OneParagraph;
    hide FirstLetter;
    hide BracketsKept;
    var runs, hasIsolate := EncodeRuns(types, brackets);
    var found;
    base, found := FindBaseLevel(runs, strong, fallback, types, brackets);
    BaseIsBit(types, strong, fallback);
    if hasIsolate {
      encoded := ResolveFsi(runs, types, brackets);
    } else {
      NothingToResolve(runs, types, brackets);
      encoded := runs;
    }
    EncodedReady(runs, encoded, types, brackets);
    EncodedBrackets(runs, encoded, types, brackets);
    placed, codes := ResolveExplicit(encoded, types, base);
  }

  lemma AlignedLength(list: seq<Run>, codes: seq<Run>, n: nat)
    requires Aligned(list, codes, n)
    ensures |Spots(list, Blind)| == n && |Spots(list, Sharp)| == n
  {
    hide Off;
    assert list[..|list|] == list;
    OffIs(list, |list|, Blind);
    OffIs(list, |list|, Sharp);
  }

  lemma CodesFit(encoded: seq<Run>, placed: seq<Run>, codes: seq<Run>, types: seq<BidiType>, base: nat)
    requires Explicit(encoded, placed, codes, types, base) && Shallow(types, base) && base <= 1
    ensures Off(codes, |codes|) <= |types|
    ensures Sound(placed, base, codes, Spots(placed, Blind))
    ensures |Spots(placed, Blind)| == |types| - Off(codes, |codes|)
  {
    hide Ready;
    hide AllPlaced;
    hide AllShelved;
    hide Shallow;
    hide Shaped;
    hide Aligned;
    hide Spots;
    hide Off;
    assert Tiled(encoded, |types|) by { ReadyTiled(encoded, types); }
    ShapedAfterX(encoded, types, base, placed);
    AlignedAfterX(encoded, types, base, placed, codes);
    AlignedLength(placed, codes, |types| - Off(codes, |codes|));
  }

  // ----- Codes and kept characters fill the text -----

  lemma {:induction false} BlindLevel(a: seq<Run>, j: nat)
    requires j < |Spots(a, Sharp)|
    ensures |Spots(a, Sharp)| == |Spots(a, Blind)| && Spots(a, Blind)[j].level == Spots(a, Sharp)[j].level
  {
    var m := |a| - 1;
    OffIs(a, m, Sharp);
    OffIs(a, m, Blind);
    if j < |Spots(a[..m], Sharp)| {
      BlindLevel(a[..m], j);
    }
  }

  lemma {:induction false} CodesInOrder(runs: seq<Run>, types: seq<BidiType>, n: nat)
    requires Ready(runs, types) && n <= |runs|
    ensures var codes := Codes(runs[..n]);
            && (forall i | 0 < i < |codes| :: codes[i - 1].pos + codes[i - 1].len <= codes[i].pos)
            && (forall i | 0 <= i < |codes| :: RunReady(codes[i], types) && codes[i].kind.IsExplicitOrBn())
            && (codes != [] ==> codes[|codes| - 1].pos + codes[|codes| - 1].len <= StartOf(runs, n, |types|))
  {
    hide Survivors;
    hide Codes;
    hide RunReady;
    if n == 0 {
      assert runs[..0] == [];
      NothingPassed();
    } else {
      CodesInOrder(runs, types, n - 1);
      SurvivorsNext(runs, n - 1);
      StartNext(runs, n - 1, |types|);
      assert RunReady(runs[n - 1], types);
    }
  }

  ghost predicate CodeRunAt(r: Run, types: seq<BidiType>) {
    && r.level == -1 && r.pos + r.len <= |types|
    && forall x | r.pos <= x < r.pos + r.len :: types[x].IsExplicitOrBn()
  }

  lemma PassedAt(a: seq<Run>, j: nat, i: nat)
    requires Passed(a, j) && i < |a|
    ensures a[i].pos <= j + Off(a, i)
  {
  }

  /** The removed codes fit the room that the kept characters leave. */
  lemma CodesFitIn(encoded: seq<Run>, placed: seq<Run>, codes: seq<Run>, types: seq<BidiType>, base: nat)
    requires Explicit(encoded, placed, codes, types, base)
    ensures Off(codes, |codes|) <= |types| && Fits(codes, |types| - Off(codes, |codes|), true)
    ensures forall i | 0 <= i < |codes| :: CodeRunAt(codes[i], types)
  {
    hide Survivors;
    hide Codes;
    hide AllPlaced;
    hide Off;
    hide Passed;
    var removed, kept, m := Codes(encoded), Survivors(encoded), |encoded|;
    assert encoded[..m] == encoded;
    assert Tiled(encoded, |types|) by { ReadyTiled(encoded, types); }
    hide Ready;
    CodesInOrder(encoded, types, m);
    KeptAndRemoved(encoded, m, |types|);
    OffShelved(removed, codes);
    forall i | 0 <= i < |codes| ensures CodeRunAt(codes[i], types) {
      assert Shelved(removed[i], codes[i]) && RunReady(removed[i], types);
    }
    forall i | 0 <= i < |codes| ensures codes[i].pos == removed[i].pos && codes[i].len == removed[i].len {
      assert Shelved(removed[i], codes[i]);
    }
    var n := |types| - Off(codes, |codes|);
    forall i | 0 <= i < |codes| ensures FitsAt(codes, n, true, i) {
      OffSame(removed, codes, i);
      assert RunReady(removed[i], types);
      PassedAt(removed, Off(kept, |kept|), i);
    }
  }

  lemma KeptIsKept(encoded: seq<Run>, placed: seq<Run>, codes: seq<Run>, types: seq<BidiType>, base: nat, j: nat)
    requires Explicit(encoded, placed, codes, types, base) && Shallow(types, base) && base <= 1
    requires Off(codes, |codes|) <= |types| && j < |types| - Off(codes, |codes|)
    ensures |Spots(placed, Sharp)| == |Spots(placed, Blind)| == |types| - Off(codes, |codes|)
    ensures var x, s := KeptPos(codes, j), Spots(placed, Sharp)[j];
            && x < |types| && s.level >= 0 && Result(types, base, x) == Kept(s.level, s.kind, s.isolateLevel)
            && Spots(placed, Blind)[j].level == s.level
  {
    hide Ready;
    hide AllPlaced;
    hide AllShelved;
    hide Shallow;
    hide Off;
    hide Result;
    hide KeptPos;
    hide Spots;
    assert Tiled(encoded, |types|) by { ReadyTiled(encoded, types); }
    CodesFit(encoded, placed, codes, types, base);
    SoundFits(placed, base, codes, Spots(placed, Blind));
    AlignedLength(placed, codes, |types| - Off(codes, |codes|));
    assert placed[..|placed|] == placed;
    OffIs(placed, |placed|, Blind);
    KeptCharacter(encoded, types, base, placed, codes, j);
    BlindLevel(placed, j);
  }

  /** Every character is either on a code or kept, never both. */
  lemma Placement(encoded: seq<Run>, placed: seq<Run>, codes: seq<Run>, types: seq<BidiType>, base: nat, x: nat)
    returns (c: int, j: nat)
    requires Explicit(encoded, placed, codes, types, base) && Shallow(types, base) && base <= 1 && x < |types|
    ensures Off(codes, |codes|) <= |types| && Fits(codes, |types| - Off(codes, |codes|), true)
    ensures -1 <= c < |codes| && (Result(types, base, x).Removed? <==> c >= 0)
    ensures c >= 0 ==> codes[c].level == -1 && codes[c].pos <= x < codes[c].pos + codes[c].len
    ensures c < 0 ==> j < |types| - Off(codes, |codes|) && KeptPos(codes, j) == x
  {
    hide Ready;
    hide AllPlaced;
    hide AllShelved;
    hide Shallow;
    hide Off;
    hide Before;
    hide KeptPos;
    hide Sound;
    hide Spots;
    hide Fits;
    CodesFitIn(encoded, placed, codes, types, base);
    CodesFit(encoded, placed, codes, types, base);
    var n := |types| - Off(codes, |codes|);
    assert codes[..|codes|] == codes;
    c, j := Cover(codes, |codes|, x), 0;
    if c < 0 {
      WovenAll(codes, n, |codes|, x);
      j :| j < n && KeptPos(codes[..|codes|], j) == x;
      KeptIsKept(encoded, placed, codes, types, base, j);
    } else {
      assert CodeRunAt(codes[c], types);
    }
  }
}
