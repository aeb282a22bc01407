/** The end of fribidi_get_par_embedding_levels_ex: removed codes go back into
    the run list and take the level before them, rule L1 resets what separates
    and what trails, and the runs are written out character by character. */
module FinalLevels {
  import opened BidiTypes
  import opened Runs
  import opened Alignment
  import opened Compaction
  import opened Shadow
  import opened Overlay

  // ----- Rule L1, parts 1 to 3 and 4 for the whole paragraph -----

  /** Character `x` is a separator, or everything from it to the next separator
      or to the end of the text is white space, an isolate code or removed. */
  predicate Resets(types: seq<BidiType>, x: nat)
    requires x < |types|
    decreases |types| - x
  {
    types[x].IsL1Resettable() && (types[x].IsSeparator() || x + 1 == |types| || Resets(types, x + 1))
  }

  /** The types that L1 names: separators, and what may stand before one. */
  const L1_SEPARATORS: set<BidiType> := {BS, SS}

  const L1_STRETCH: set<BidiType> := {WS, LRI, RLI, FSI, PDI, LRE, RLE, LRO, RLO, PDF, BN, BS, SS}

  lemma L1Types(t: BidiType)
    ensures t.IsL1Resettable() <==> t in L1_STRETCH
    ensures t.IsSeparator() <==> t in L1_SEPARATORS
  {
  }

  lemma ResetsHere(types: seq<BidiType>, x: nat)
    requires x < |types|
    ensures Resets(types, x) <==>
              types[x].IsL1Resettable() && (types[x].IsSeparator() || x + 1 == |types| || Resets(types, x + 1))
  {
  }

  /** L1, parts 1 to 4 for the whole paragraph: a position is reset exactly when
      everything from it to the next separator, or to the end of the text, is a
      separator, white space, an isolate code or removed. */
  lemma {:induction false} ResetsMeans(types: seq<BidiType>, x: nat)
    requires x < |types|
    ensures Resets(types, x) <==>
              exists j :: x <= j < |types| && (types[j] in L1_SEPARATORS || j == |types| - 1)
                          && forall i | x <= i <= j :: types[i] in L1_STRETCH
    decreases |types| - x
  {
    hide *;
    ResetsHere(types, x);
    L1Types(types[x]);
    var n := |types| - 1;
    if x < n {
      ResetsMeans(types, x + 1);
      if Resets(types, x) && types[x] !in L1_SEPARATORS {
        var j :| x + 1 <= j < |types| && (types[j] in L1_SEPARATORS || j == |types| - 1)
                 && forall i | x + 1 <= i <= j :: types[i] in L1_STRETCH;
        assert forall i | x <= i <= j :: types[i] in L1_STRETCH;
      }
    }
  }

  ghost predicate Hit(over: seq<Run>, x: nat) {
    exists i :: 0 <= i < |over| && over[i].pos <= x < over[i].pos + over[i].len
  }

  lemma HitPrepend(p: Run, over: seq<Run>, x: nat)
    ensures Hit([p] + over, x) <==> (p.pos <= x < p.pos + p.len || Hit(over, x))
  {
    var all := [p] + over;
    if p.pos <= x < p.pos + p.len {
      assert all[0].pos <= x < all[0].pos + all[0].len;
    }
    if Hit(over, x) {
      var i :| 0 <= i < |over| && over[i].pos <= x < over[i].pos + over[i].len;
      assert all[i + 1].pos <= x < all[i + 1].pos + all[i + 1].len;
    }
  }

  /** The runs of `over` lie from position `start` on and carry the base level. */
  ghost predicate ResetRuns(over: seq<Run>, start: int, n: nat, baseLevel: nat) {
    && Fits(over, n, false)
    && (forall i | 0 <= i < |over| :: over[i].level == baseLevel && over[i].pos >= start)
  }

  /** What the backward scan knows when it has read the characters from `j` on. */
  ghost predicate Scanned(types: seq<BidiType>, over: seq<Run>, j: nat, state: bool, pos: int, baseLevel: nat) {
    && j <= |types| && j - 1 <= pos < |types|
    && ResetRuns(over, if state then pos + 1 else j, |types|, baseLevel)
    && (state <==> j == |types| || Resets(types, j))
    && (state ==> forall x | j <= x <= pos :: Resets(types, x))
    && (forall x | j <= x < |types| && (state ==> x > pos) :: Hit(over, x) <==> Resets(types, x))
    && (state ==> forall x | j <= x <= pos :: !Hit(over, x))
  }

  lemma StartScan(types: seq<BidiType>, baseLevel: nat)
    ensures Scanned(types, [], |types|, true, |types| - 1, baseLevel)
  {
  }

  lemma PrependFits(p: Run, over: seq<Run>, n: nat, baseLevel: nat, start: nat)
    requires ResetRuns(over, p.pos + p.len, n, baseLevel) && p.level == baseLevel && p.pos >= start
             && p.pos + p.len <= n
    ensures ResetRuns([p] + over, start, n, baseLevel)
  {
    var all := [p] + over;
    forall k | 0 <= k < |all| ensures FitsAt(all, n, false, k) {
      if k > 0 {
        assert FitsAt(over, n, false, k - 1);
      }
    }
  }

  lemma ResetRunsEarlier(over: seq<Run>, a: int, b: int, n: nat, baseLevel: nat)
    requires ResetRuns(over, a, n, baseLevel) && b <= a
    ensures ResetRuns(over, b, n, baseLevel)
  {
  }

  lemma HitLater(over: seq<Run>, start: int, n: nat, baseLevel: nat, x: nat)
    requires ResetRuns(over, start, n, baseLevel) && x < start
    ensures !Hit(over, x)
  {
  }

  /** The scan closes a stretch at `j`, which is not to be reset. */
  lemma CloseStretch(types: seq<BidiType>, over: seq<Run>, j: nat, pos: int, baseLevel: nat, p: Run)
    requires Scanned(types, over, j + 1, true, pos, baseLevel) && j < |types| && !types[j].IsL1Resettable()
    requires p.pos == j + 1 && p.len == pos - j && p.level == baseLevel
    ensures Scanned(types, [p] + over, j, false, pos, baseLevel)
  {
    hide ResetRuns;
    PrependFits(p, over, |types|, baseLevel, j);
    forall x | j <= x < |types| ensures Hit([p] + over, x) <==> Resets(types, x) {
      HitPrepend(p, over, x);
      HitLater(over, pos + 1, |types|, baseLevel, j);
    }
  }

  lemma OpenStretch(types: seq<BidiType>, over: seq<Run>, j: nat, pos: int, baseLevel: nat)
    requires Scanned(types, over, j + 1, false, pos, baseLevel) && j < |types| && types[j].IsSeparator()
    ensures Scanned(types, over, j, true, j, baseLevel)
  {
    hide ResetRuns;
    HitLater(over, j + 1, |types|, baseLevel, j);
  }

  lemma SameStretch(types: seq<BidiType>, over: seq<Run>, j: nat, state: bool, pos: int, baseLevel: nat)
    requires Scanned(types, over, j + 1, state, pos, baseLevel) && j < |types|
    requires if state then types[j].IsL1Resettable() else !types[j].IsSeparator()
    ensures Scanned(types, over, j, state, pos, baseLevel)
  {
    hide ResetRuns;
    if state {
      HitLater(over, pos + 1, |types|, baseLevel, j);
    } else {
      HitLater(over, j + 1, |types|, baseLevel, j);
      ResetRunsEarlier(over, j + 1, j, |types|, baseLevel);
    }
  }

  /** The runs that the end of the loop, at j == -1, leaves. */
  lemma EndScan(types: seq<BidiType>, over: seq<Run>, pos: int, baseLevel: nat, p: Run)
    requires Scanned(types, over, 0, true, pos, baseLevel) && p.pos == 0 && p.len == pos + 1 && p.level == baseLevel
    ensures ResetRuns([p] + over, 0, |types|, baseLevel)
    ensures forall x | 0 <= x < |types| :: Hit([p] + over, x) <==> Resets(types, x)
  {
    hide ResetRuns;
    PrependFits(p, over, |types|, baseLevel, 0);
    forall x | 0 <= x < |types| ensures Hit([p] + over, x) <==> Resets(types, x) {
      HitPrepend(p, over, x);
    }
  }

  lemma EndClosed(types: seq<BidiType>, over: seq<Run>, pos: int, baseLevel: nat)
    requires Scanned(types, over, 0, false, pos, baseLevel)
    ensures ResetRuns(over, 0, |types|, baseLevel)
    ensures forall x | 0 <= x < |types| :: Hit(over, x) <==> Resets(types, x)
  {
  }

  /** The loop for L1: from the end of the text to its start, with one step more
      to close what is open. */
  method CollectResets(types: seq<BidiType>, baseLevel: nat, baseDir: BidiType) returns (over: seq<Run>)
    ensures ResetRuns(over, 0, |types|, baseLevel)
    ensures forall x | 0 <= x < |types| :: Hit(over, x) <==> Resets(types, x)
  {
    hide Scanned;
    hide ResetRuns;
    hide Hit;
    over := [];
    var state, pos, j := true, |types| - 1, |types|;
    StartScan(types, baseLevel);
    while j > 0
      invariant 0 <= j <= |types| && -1 <= pos && j - 1 <= pos
      invariant Scanned(types, over, j, state, pos, baseLevel)
    {
      j := j - 1;
      var t := types[j];
      if !state && t.IsSeparator() {
        OpenStretch(types, over, j, pos, baseLevel);
        state, pos := true, j;
      } else if state && !t.IsL1Resettable() {
        var p := Run(j + 1, pos - j, baseDir, baseLevel, 0, NoBracket, 0);
        CloseStretch(types, over, j, pos, baseLevel, p);
        state, over := false, [p] + over;
      } else {
        SameStretch(types, over, j, state, pos, baseLevel);
      }
    }
    if state {
      var p := Run(0, pos + 1, baseDir, baseLevel, 0, NoBracket, 0);
      EndScan(types, over, pos, baseLevel, p);
      over := [p] + over;
    } else {
      EndClosed(types, over, pos, baseLevel);
    }
  }

  // ----- The levels of removed codes -----

  /** The level of character `x`, or of the nearest character before it that has
      one. */
  ghost function FilledLevel(s: seq<Spot>, x: nat, baseLevel: nat): int
    requires x < |s|
  {
    if s[x].level != -1 then s[x].level else if x == 0 then baseLevel else FilledLevel(s, x - 1, baseLevel)
  }

  /** Run `k` has taken the level before it if it had none. */
  ghost predicate FilledRun(list0: seq<Run>, list: seq<Run>, k: nat, baseLevel: nat)
    requires k < |list0| == |list|
  {
    list[k] == list0[k].(level := if list0[k].level != -1 then list0[k].level else if k == 0 then baseLevel
      else list[k - 1].level)
  }

  /** Removed codes take the level of the run before them. */
  method FillCodeLevels(list0: seq<Run>, baseLevel: nat) returns (list: seq<Run>)
    ensures |list| == |list0| && forall k | 0 <= k < |list0| :: FilledRun(list0, list, k, baseLevel)
  {
    list := list0;
    if list != [] && list[0].level == -1 {
      list := list[0 := list[0].(level := baseLevel)];
    }
    for k := 0 to |list|
      invariant |list| == |list0| && forall i | 0 <= i < |list| && (i == 0 || i < k) ::
                  FilledRun(list0, list, i, baseLevel)
      invariant forall i | 0 < i < |list| && k <= i :: list[i] == list0[i]
    {
      assert FilledRun(list0, list, 0, baseLevel);
      ghost var was := list;
      if list[k].level == -1 {
        list := list[k := list[k].(level := list[k - 1].level)];
      }
      forall i | 0 <= i <= k ensures FilledRun(list0, list, i, baseLevel) {
        assert i < k ==> FilledRun(list0, was, i, baseLevel);
      }
    }
  }

  lemma {:induction false} FilledLengths(list0: seq<Run>, list: seq<Run>, n: nat)
    requires |list| == |list0| && n <= |list| && forall k | 0 <= k < |list0| :: list[k].len == list0[k].len
    ensures |Spots(list0[..n], Sharp)| == |Spots(list[..n], Sharp)|
  {
    OffIs(list0, n, Sharp);
    OffIs(list, n, Sharp);
    OffSame(list0, list, n);
  }

  lemma FilledStep(s: seq<Spot>, x: nat, baseLevel: nat)
    requires x < |s|
    ensures FilledLevel(s, x, baseLevel) ==
              if s[x].level != -1 then s[x].level else if x == 0 then baseLevel else FilledLevel(s, x - 1, baseLevel)
  {
  }

  lemma {:induction false} FilledPrefix(a: seq<Spot>, b: seq<Spot>, x: nat, baseLevel: nat)
    requires a <= b && x < |a|
    ensures FilledLevel(a, x, baseLevel) == FilledLevel(b, x, baseLevel)
  {
    if x > 0 {
      FilledPrefix(a, b, x - 1, baseLevel);
    }
  }

  lemma SpotsNotEmpty(list: seq<Run>, m: nat)
    requires 0 < m <= |list| && list[m - 1].len > 0
    ensures Spots(list[..m], Sharp) != []
  {
    assert list[..m][..m - 1] == list[..m - 1];
  }

  /** Filling by runs fills by characters. */
  lemma {:induction false} FilledSpots(list0: seq<Run>, list: seq<Run>, baseLevel: nat, n: nat, x: nat)
    requires |list| == |list0| && n <= |list| && forall k | 0 <= k < |list0| ::
               FilledRun(list0, list, k, baseLevel) && list0[k].len > 0
    requires x < |Spots(list[..n], Sharp)|
    ensures |Spots(list0[..n], Sharp)| == |Spots(list[..n], Sharp)|
    ensures Spots(list[..n], Sharp)[x].level == FilledLevel(Spots(list0[..n], Sharp), x, baseLevel)
    ensures n > 0 && x == |Spots(list[..n], Sharp)| - 1 ==> Spots(list[..n], Sharp)[x].level == list[n - 1].level
    decreases n, x
  {
    hide FilledLevel;
    var m := n - 1;
    assert list[..n][..m] == list[..m] && list0[..n][..m] == list0[..m];
    FilledLengths(list0, list, m);
    assert FilledRun(list0, list, m, baseLevel);
    var s0, s, a := Spots(list0[..n], Sharp), Spots(list[..n], Sharp), |Spots(list[..m], Sharp)|;
    FilledStep(s0, x, baseLevel);
    if x < a {
      FilledSpots(list0, list, baseLevel, m, x);
      FilledPrefix(Spots(list0[..m], Sharp), s0, x, baseLevel);
    } else if x > a {
      FilledSpots(list0, list, baseLevel, n, x - 1);
    } else if m > 0 {
      assert Spots(list[..m], Sharp) != [] by { SpotsNotEmpty(list, m); }
      FilledSpots(list0, list, baseLevel, m, a - 1);
      FilledPrefix(Spots(list0[..m], Sharp), s0, a - 1, baseLevel);
    }
  }

  // ----- The end of the call -----

  /** The levels before L1: codes back in place, with the level before them. */
  ghost function Refilled(s: seq<Spot>, codes: seq<Run>, x: nat, baseLevel: nat): int
    requires Fits(codes, |s|, true) && x < |s| + Off(codes, |codes|)
  {
    FilledLevel(Laid(s, codes, true, |codes|), x, baseLevel)
  }

  lemma SpotsNone(list: seq<Run>)
    ensures Spots(list[..0], Sharp) == []
  {
  }

  lemma SpotsGrow(list: seq<Run>, k: nat)
    requires k < |list|
    ensures Spots(list[..k + 1], Sharp) == Spots(list[..k], Sharp) + Repeat(SpotOf(list[k], Sharp), list[k].len)
  {
    assert list[..k + 1][..k] == list[..k];
  }

  lemma {:induction false} SpotsShorter(list: seq<Run>, k: nat)
    requires k <= |list|
    ensures |Spots(list[..k], Sharp)| <= |Spots(list, Sharp)|
    decreases |list| - k
  {
    if k < |list| {
      SpotsGrow(list, k);
      SpotsShorter(list, k + 1);
    } else {
      assert list[..k] == list;
    }
  }

  /** embedding_levels is written run by run. */
  method WriteLevels(list: seq<Run>, ghost n: nat) returns (levels: array<nat>)
    requires |Spots(list, Sharp)| == n && forall k | 0 <= k < |list| :: list[k].level >= 0
    ensures fresh(levels) && levels.Length == n
    ensures forall x | 0 <= x < n :: levels[x] == Spots(list, Sharp)[x].level
  {
    hide Spots;
    var total := 0;
    SpotsNone(list);
    for k := 0 to |list|
      invariant total == |Spots(list[..k], Sharp)|
    {
      SpotsGrow(list, k);
      total := total + list[k].len;
    }
    assert list[..|list|] == list;
    levels := new nat[total];
    var pos := 0;
    for k := 0 to |list|
      invariant pos == |Spots(list[..k], Sharp)| && pos <= total
      invariant forall x | 0 <= x < pos :: levels[x] == Spots(list[..k], Sharp)[x].level
    {
      SpotsGrow(list, k);
      SpotsShorter(list, k + 1);
      var start := pos;
      for l := 0 to list[k].len
        invariant pos == start + l
        invariant forall x | 0 <= x < start :: levels[x] == Spots(list[..k], Sharp)[x].level
        invariant forall x | start <= x < pos :: levels[x] == list[k].level
      {
        levels[pos] := list[k].level;
        pos := pos + 1;
      }
    }
  }

  lemma RunShows(list: seq<Run>, n: nat, k: nat)
    requires Aligned(list, [], n) && k < |list|
    ensures Off(list, k) < n == |Spots(list, Sharp)| && Spots(list, Sharp)[Off(list, k)] == SpotOf(list[k], Sharp)
  {
    hide Off;
    hide Spots;
    hide KeptPos;
    assert RunAligned(list, [], k);
    assert list[..|list|] == list;
    OffIs(list, |list|, Sharp);
    SpotAt(list, k, 0, Sharp);
  }

  lemma ResetAt(s: seq<Spot>, over: seq<Run>, baseLevel: nat, x: nat)
    requires ResetRuns(over, 0, |s|, baseLevel) && Fits(over, |s|, false) && x < |s|
    ensures Laid(s, over, false, |over|)[x].level == if Hit(over, x) then baseLevel else s[x].level
  {
    OverlayAt(s, over, |over|, x);
  }

  lemma RunHasLevel(filled: seq<Spot>, over: seq<Run>, list: seq<Run>, baseLevel: nat, n: nat, k: nat)
    requires |filled| == n && ResetRuns(over, 0, n, baseLevel) && Fits(over, n, false)
    requires forall x | 0 <= x < n :: filled[x].level >= 0
    requires Aligned(list, [], n) && Spots(list, Sharp) == Laid(filled, over, false, |over|) && k < |list|
    ensures list[k].level >= 0
  {
    hide Fits;
    hide Aligned;
    hide Spots;
    hide Off;
    hide Laid;
    hide ResetRuns;
    hide Hit;
    RunShows(list, n, k);
    ResetAt(filled, over, baseLevel, Off(list, k));
  }

  lemma {:induction false} FilledNat(s: seq<Spot>, x: nat, baseLevel: nat)
    requires x < |s| && forall i | 0 <= i < |s| :: s[i].level >= -1
    ensures FilledLevel(s, x, baseLevel) >= 0
  {
    if s[x].level == -1 && x > 0 {
      FilledNat(s, x - 1, baseLevel);
    }
  }

  lemma {:induction false} WovenLevels(s: seq<Spot>, codes: seq<Run>, k: nat)
    requires k <= |codes| && Fits(codes, |s|, true)
    requires (forall j | 0 <= j < |s| :: s[j].level >= 0) && forall i | 0 <= i < |codes| :: codes[i].level == -1
    ensures forall i | 0 <= i < |Laid(s, codes, true, k)| :: Laid(s, codes, true, k)[i].level >= -1
  {
    hide Fits;
    if k == 0 {
      LaidStart(s, codes, true);
    } else {
      WovenLevels(s, codes, k - 1);
      LaidNext(s, codes, true, k - 1);
      hide Laid;
    }
  }

  lemma RefilledNat(s: seq<Spot>, codes: seq<Run>, x: nat, baseLevel: nat)
    requires Fits(codes, |s|, true) && x < |s| + Off(codes, |codes|)
    requires (forall j | 0 <= j < |s| :: s[j].level >= 0) && forall k | 0 <= k < |codes| :: codes[k].level == -1
    ensures Refilled(s, codes, x, baseLevel) >= 0
  {
    hide Laid;
    WovenLevels(s, codes, |codes|);
    FilledNat(Laid(s, codes, true, |codes|), x, baseLevel);
  }

  /** No run is left without a level. */
  lemma NoLevelMissing(s: seq<Spot>, codes: seq<Run>, filled: seq<Spot>, over: seq<Run>, list: seq<Run>, baseLevel: nat,
                       n: nat)
    requires Fits(codes, |s|, true) && n == |s| + Off(codes, |codes|) == |filled| && ResetRuns(over, 0, n, baseLevel)
             && Fits(over, n, false)
    requires (forall j | 0 <= j < |s| :: s[j].level >= 0) && forall k | 0 <= k < |codes| :: codes[k].level == -1
    requires forall x | 0 <= x < n :: filled[x].level == Refilled(s, codes, x, baseLevel)
    requires Aligned(list, [], n) && Spots(list, Sharp) == Laid(filled, over, false, |over|)
    ensures forall k | 0 <= k < |list| :: list[k].level >= 0
  {
    hide Fits;
    hide Aligned;
    hide Spots;
    hide Off;
    hide Laid;
    hide Refilled;
    hide ResetRuns;
    forall x | 0 <= x < n ensures filled[x].level >= 0 {
      RefilledNat(s, codes, x, baseLevel);
    }
    forall k | 0 <= k < |list| ensures list[k].level >= 0 {
      RunHasLevel(filled, over, list, baseLevel, n, k);
    }
  }

  lemma ResetsFit(over: seq<Run>, n: nat, baseLevel: nat)
    requires ResetRuns(over, 0, n, baseLevel)
    ensures Fits(over, n, false)
  {
  }

  lemma FilledText(list0: seq<Run>, list: seq<Run>, baseLevel: nat, n: nat)
    requires Aligned(list0, [], n) && |list| == |list0|
             && forall k | 0 <= k < |list0| :: FilledRun(list0, list, k, baseLevel)
    ensures Aligned(list, [], n) && |Spots(list0, Sharp)| == n && |Spots(list, Sharp)| == n
    ensures forall x | 0 <= x < n :: Spots(list, Sharp)[x].level == FilledLevel(Spots(list0, Sharp), x, baseLevel)
  {
    hide FilledLevel;
    hide Spots;
    hide KeptPos;
    hide Off;
    var m := |list|;
    assert list[..m] == list && list0[..m] == list0;
    forall k | 0 <= k < m ensures list0[k].len > 0 && list[k].pos == list0[k].pos && list[k].len == list0[k].len {
      assert RunAligned(list0, [], k) && FilledRun(list0, list, k, baseLevel);
    }
    AlignedSame(list0, list, [], n);
    OffIs(list0, m, Sharp);
    FilledLengths(list0, list, m);
    forall x | 0 <= x < n ensures Spots(list, Sharp)[x].level == FilledLevel(Spots(list0, Sharp), x, baseLevel) {
      FilledSpots(list0, list, baseLevel, m, x);
    }
  }

  /** Reinsertion and L1: what a character has in the end. */
  method FinishLevels(main: seq<Run>, codes: seq<Run>, types: seq<BidiType>, baseLevel: nat, baseDir: BidiType,
                      ghost n: nat)
    returns (levels: array<nat>)
    requires Aligned(main, codes, n) && Fits(codes, n, true) && n + Off(codes, |codes|) == |types|
    requires forall k | 0 <= k < |codes| :: codes[k].level == -1
    requires forall j | 0 <= j < |Spots(main, Sharp)| :: Spots(main, Sharp)[j].level >= 0
    ensures |Spots(main, Sharp)| == n
    ensures fresh(levels) && levels.Length == |types|
    ensures forall x | 0 <= x < |types| ::
              levels[x] == if Resets(types, x) then baseLevel else Refilled(Spots(main, Sharp), codes, x, baseLevel)
  {
    hide Aligned;
    hide Fits;
    hide Spots;
    hide Laid;
    hide FilledRun;
    hide Resets;
    hide FilledLevel;
    hide ResetRuns;
    hide Hit;
    var list := ShadowRunList(main, codes, true, n);
    ghost var woven := list;
    list := FillCodeLevels(list, baseLevel);
    FilledText(woven, list, baseLevel, |types|);
    ghost var filled := list;
    var over := CollectResets(types, baseLevel, baseDir);
    ResetsFit(over, |types|, baseLevel);
    list := ShadowRunList(list, over, false, |types|);
    NoLevelMissing(Spots(main, Sharp), codes, Spots(filled, Sharp), over, list, baseLevel, |types|);
    levels := WriteLevels(list, |types|);
    forall x | 0 <= x < |types|
      ensures levels[x] == if Resets(types, x) then baseLevel else Refilled(Spots(main, Sharp), codes, x, baseLevel) {
      ResetAt(Spots(filled, Sharp), over, baseLevel, x);
    }
  }

  // ----- What that means -----

  /** A kept character has its own level before L1. */
  lemma KeptLevel(s: seq<Spot>, codes: seq<Run>, j: nat, baseLevel: nat)
    requires Fits(codes, |s|, true) && j < |s| && s[j].level != -1
    ensures var x := KeptPos(codes, j); x < |s| + Off(codes, |codes|) && Refilled(s, codes, x, baseLevel) == s[j].level
  {
    WovenAt(s, codes, |codes|, j);
    assert codes[..|codes|] == codes;
  }

  /** A removed code has the level of the character before it, so that no line
      is reordered differently for it. */
  lemma CodeLevel(s: seq<Spot>, codes: seq<Run>, i: nat, x: nat, baseLevel: nat)
    requires Fits(codes, |s|, true) && i < |codes| && codes[i].level == -1
             && codes[i].pos <= x < codes[i].pos + codes[i].len
    ensures x < |s| + Off(codes, |codes|)
    ensures Refilled(s, codes, x, baseLevel) == if x == 0 then baseLevel else Refilled(s, codes, x - 1, baseLevel)
  {
    WovenCode(s, codes, |codes|, i, x);
  }
}
