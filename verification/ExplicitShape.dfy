/** The explicit phase leaves the run list nested as the later phases expect,
    whatever codes the text holds. */
module ExplicitShape {
  import opened BidiTypes
  import opened Runs
  import opened Chains
  import opened NextRunCache
  import opened Nesting
  import opened ExplicitRules
  import opened ExplicitLevels
  import opened ExplicitPhase

  // ----- The stack remembers where its isolates were opened -----

  /** The run that opened the isolate at stack index `j` is the last run on the
      isolate level outside it, and has the level below it on the stack. */
  ghost predicate AnchorAt(list: seq<Run>, stack: seq<Entry>, j: nat)
    requires 0 < j < |stack|
  {
    var a := PrevFrom(list, Isolates(stack[..j]), |list| - 1);
    a >= 0 && list[a].level == stack[j - 1].level
  }

  ghost predicate Anchored(list: seq<Run>, stack: seq<Entry>) {
    forall j | 0 < j < |stack| && stack[j].isolate :: AnchorAt(list, stack, j)
  }

  /** The kept runs so far, and the state behind them. */
  ghost predicate History(list: seq<Run>, s: XState) {
    && s.stack != [] && Anchored(list, s.stack)
    && (list != [] ==> list[|list| - 1].isolateLevel <= s.validIsolates && !list[|list| - 1].kind.BS?)
    && (s.overflowIsolates > 0 ==>
          list != [] && list[|list| - 1].isolateLevel == s.validIsolates && list[|list| - 1].level == Top(s).level)
  }

  lemma {:induction false} PrevAppend(list: seq<Run>, r: Run, iso: nat, j: int)
    requires -1 <= j < |list|
    ensures PrevFrom(list + [r], iso, j) == PrevFrom(list, iso, j)
    decreases j + 1
  {
    if j >= 0 {
      PrevAppend(list, r, iso, j - 1);
    }
  }

  lemma {:induction false} IsolatesPrefix(stack: seq<Entry>, j: nat)
    requires j < |stack|
    ensures Isolates(stack[..j]) + (if stack[j].isolate then 1 else 0) <= Isolates(stack)
    decreases |stack|
  {
    var n := |stack| - 1;
    if j < n {
      IsolatesPrefix(stack[..n], j);
      assert stack[..n][..j] == stack[..j];
    } else {
      assert stack[..n] == stack[..j];
    }
  }

  /** The entry of the isolate at depth `d`. */
  lemma {:induction false} FindIsolate(stack: seq<Entry>, d: nat) returns (j: nat)
    requires d < Isolates(stack)
    ensures j < |stack| && stack[j].isolate && Isolates(stack[..j]) == d
  {
    var n := |stack| - 1;
    if d < Isolates(stack[..n]) {
      j := FindIsolate(stack[..n], d);
      assert stack[..n][..j] == stack[..j];
    } else {
      j := n;
    }
  }

  lemma {:induction false} LevelsRise(s: XState, base: nat, a: nat, b: nat)
    requires Ok(s, base) && a < b < |s.stack|
    ensures s.stack[a].level < s.stack[b].level
    decreases b
  {
    if a < b - 1 {
      LevelsRise(s, base, a, b - 1);
    }
  }

  // ----- What a step does to the anchors -----

  lemma AnchoredAppend(list: seq<Run>, stack: seq<Entry>, r: Run)
    requires Anchored(list, stack) && r.isolateLevel == Isolates(stack)
    ensures Anchored(list + [r], stack)
  {
    hide Isolates;
    forall j | 0 < j < |stack| && stack[j].isolate ensures AnchorAt(list + [r], stack, j) {
      assert AnchorAt(list, stack, j);
      IsolatesPrefix(stack, j);
      PrevAppend(list, r, Isolates(stack[..j]), |list| - 1);
    }
  }

  lemma AnchoredPrefix(list: seq<Run>, stack: seq<Entry>, n: nat)
    requires Anchored(list, stack) && n <= |stack|
    ensures Anchored(list, stack[..n])
  {
    hide Isolates;
    hide PrevFrom;
    forall j | 0 < j < n && stack[..n][j].isolate ensures AnchorAt(list, stack[..n], j) {
      assert AnchorAt(list, stack, j);
      assert stack[..n][..j] == stack[..j];
    }
  }

  lemma AnchoredPush(list: seq<Run>, stack: seq<Entry>, e: Entry)
    requires Anchored(list, stack) && stack != []
    requires e.isolate ==>
               list != [] && list[|list| - 1].isolateLevel == Isolates(stack)
               && list[|list| - 1].level == stack[|stack| - 1].level
    ensures Anchored(list, stack + [e])
  {
    hide Isolates;
    var pushed := stack + [e];
    forall j | 0 < j < |pushed| && pushed[j].isolate ensures AnchorAt(list, pushed, j) {
      assert pushed[..j] == stack[..j];
      if j < |stack| {
        assert AnchorAt(list, stack, j);
      } else {
        assert stack[..j] == stack;
      }
    }
  }

  /** A removed code changes nothing that the history says. */
  lemma CodeStep(list: seq<Run>, s: XState, t: BidiType, rtl: bool)
    requires History(list, s) && t.IsExplicitOrBn()
    ensures History(list, Step(s, t, rtl))
  {
    hide Anchored;
    hide NextLevel;
    if t.PDF? {
      AnchoredPrefix(list, s.stack, |s.stack| - 1);
    } else if !t.BN? {
      AnchoredPush(list, s.stack, Entry(NextLevel(Top(s).level, t.IsRtl()), OverrideOf(t), false));
    }
  }

  lemma {:induction false} CodeRun(list: seq<Run>, types: seq<BidiType>, base: nat, p: nat, n: nat)
    requires p + n <= |types| && History(list, Before(types, base, p))
    requires forall q | p <= q < p + n :: types[q].IsExplicitOrBn()
    ensures History(list, Before(types, base, p + n))
  {
    hide History;
    hide Step;
    if n > 0 {
      CodeRun(list, types, base, p, n - 1);
      CodeStep(list, Before(types, base, p + n - 1), types[p + n - 1], FsiLevel(types, p + n - 1) == 1);
    }
  }

  // ----- Appending a run -----

  /** Run `r` is placed by state `s`. */
  ghost predicate Follows(list: seq<Run>, s: XState, r: Run) {
    && s.stack != [] && Anchored(list, s.stack)
    && r.isolateLevel == s.validIsolates && (r.level == Top(s).level || r.kind.BS?)
    && (list != [] ==> !list[|list| - 1].kind.BS? && (list[|list| - 1].isolateLevel <= s.validIsolates || r.kind.PDI?))
    && (r.kind.PDI? ==> var a := PrevFrom(list, r.isolateLevel, |list| - 1); a >= 0 && list[a].level == r.level)
  }

  /** An isolate around the run was opened at a lower level. */
  lemma FollowsInner(list: seq<Run>, s: XState, r: Run, base: nat, i: nat)
    requires Follows(list, s, r) && Ok(s, base) && i < |list| && Inner(list + [r], i, |list|) && !r.kind.BS?
    ensures r.level > list[i].level
  {
    hide PrevFrom;
    hide Isolates;
    var all := list + [r];
    assert all[|list|].isolateLevel > all[i].isolateLevel;
    forall m | i < m < |list| ensures list[m].isolateLevel > list[i].isolateLevel {
      assert all[m].isolateLevel > all[i].isolateLevel;
    }
    var j := FindIsolate(s.stack, list[i].isolateLevel);
    assert AnchorAt(list, s.stack, j);
    PrevOfNext(list, list[i].isolateLevel, i, |list| - 1);
    LevelsRise(s, base, j - 1, |s.stack| - 1);
  }

  /** The new run steps at most one isolate level deeper. */
  lemma FollowsStep(list: seq<Run>, s: XState, r: Run, base: nat)
    requires Follows(list, s, r) && Ok(s, base)
    ensures list == [] ==> r.isolateLevel == 0
    ensures list != [] ==> r.isolateLevel <= list[|list| - 1].isolateLevel + 1
  {
    hide Isolates;
    if s.validIsolates > 0 {
      var j := FindIsolate(s.stack, s.validIsolates - 1);
      assert AnchorAt(list, s.stack, j);
    }
  }

  lemma FollowsNested(list: seq<Run>, s: XState, r: Run, base: nat)
    requires Follows(list, s, r) && Ok(s, base)
    ensures NestedAt(list + [r], |list|, base)
  {
    hide Inner;
    hide Anchored;
    var all, k := list + [r], |list|;
    FollowsStep(list, s, r, base);
    PrevAppend(list, r, r.isolateLevel, k - 1);
    forall i | 0 <= i < k && Inner(all, i, k) && !r.kind.BS? ensures all[k].level > all[i].level {
      FollowsInner(list, s, r, base, i);
    }
  }

  lemma NestedAtAppend(list: seq<Run>, r: Run, k: nat, base: nat)
    requires k < |list| && NestedAt(list, k, base)
    ensures NestedAt(list + [r], k, base)
  {
    hide PrevFrom;
    PrevAppend(list, r, list[k].isolateLevel, k - 1);
    forall i | 0 <= i < k && Inner(list + [r], i, k) ensures Inner(list, i, k) {
      forall m | i < m <= k ensures list[m].isolateLevel > list[i].isolateLevel {
        assert (list + [r])[m].isolateLevel > (list + [r])[i].isolateLevel;
      }
    }
  }

  lemma NestedAppend(list: seq<Run>, r: Run, base: nat)
    requires Nested(list, base) && NestedAt(list + [r], |list|, base)
    ensures Nested(list + [r], base)
  {
    hide Nested;
    forall k | 0 <= k <= |list| ensures NestedAt(list + [r], k, base) {
      if k < |list| {
        NestedIs(list, k, base);
        NestedAtAppend(list, r, k, base);
      }
    }
    NestedAll(list + [r], base);
  }

  lemma HistoryAppend(list: seq<Run>, s: XState, r: Run, base: nat)
    requires Follows(list, s, r) && Ok(s, base) && !r.kind.BS?
    ensures History(list + [r], s)
  {
    hide Isolates;
    hide Anchored;
    AnchoredAppend(list, s.stack, r);
  }

  // ----- The three kinds of kept runs -----

  lemma PlainFollows(list: seq<Run>, s: XState, r: Run)
    requires History(list, s) && r.isolateLevel == s.validIsolates && (r.level == Top(s).level || r.kind.BS?)
             && !r.kind.PDI?
    ensures Follows(list, s, r)
  {
  }

  lemma FollowsIsolate(list: seq<Run>, s: XState, r: Run)
    requires Follows(list, s, r)
    ensures r.isolateLevel == s.validIsolates
  {
  }

  lemma InitiatorHistory(list: seq<Run>, s: XState, r: Run, base: nat, t: BidiType, rtl: bool)
    requires Follows(list, s, r) && Ok(s, base) && t.IsInitiator() && r.level == Top(s).level && !r.kind.BS?
    ensures History(list + [r], Step(s, t, rtl))
  {
    hide Follows;
    hide Isolates;
    hide Anchored;
    hide NextLevel;
    HistoryAppend(list, s, r, base);
    FollowsIsolate(list, s, r);
    var s' := Step(s, t, rtl);
    if |s'.stack| > |s.stack| {
      AnchoredPush(list + [r], s.stack, s'.stack[|s.stack|]);
    }
  }

  lemma PdiFollows(list: seq<Run>, s: XState, r: Run, base: nat)
    requires History(list, s) && Ok(s, base)
    requires r.isolateLevel == EndIsolate(s).validIsolates && r.level == Top(EndIsolate(s)).level
    requires r.kind == if s.overflowIsolates > 0 || s.validIsolates > 0 then PDI else ON
    ensures Follows(list, EndIsolate(s), r)
  {
    hide Isolates;
    hide DropEmbeddings;
    if s.overflowIsolates == 0 && s.validIsolates > 0 {
      var kept := DropEmbeddings(s.stack);
      DropKeeps(s.stack);
      var n := |kept| - 1;
      assert kept[..n] == s.stack[..n] && s.stack[n].isolate;
      AnchoredPrefix(list, s.stack, n);
      EndIsolateOk(s, base);
      assert AnchorAt(list, s.stack, n);
    }
  }

  // ----- The whole paragraph -----

  /** The kept runs before original run `n` are nested, and lie as the state
      before it remembers. */
  ghost predicate KeptNested(list: seq<Run>, runs: seq<Run>, n: nat, types: seq<BidiType>, base: nat) {
    && n <= |runs| && Nested(list, base)
    && var p := if n < |runs| then runs[n].pos else |types|;
       p <= |types| && (n < |runs| || runs == [] || !runs[n - 1].kind.BS? ==> History(list, Before(types, base, p)))
  }

  lemma KeptRunLaid(list: seq<Run>, s: XState, r: Run, base: nat)
    requires Nested(list, base) && Follows(list, s, r) && Ok(s, base)
    ensures Nested(list + [r], base) && (!r.kind.BS? ==> History(list + [r], s))
  {
    hide Nested;
    hide Follows;
    hide History;
    hide NestedAt;
    FollowsNested(list, s, r, base);
    NestedAppend(list, r, base);
    if !r.kind.BS? {
      HistoryAppend(list, s, r, base);
    }
  }

  lemma StepPdi(s: XState, rtl: bool)
    requires s.stack != []
    ensures Step(s, PDI, rtl) == EndIsolate(s)
  {
  }

  ghost predicate OverrideOk(t: BidiType) { t == ON || t == LTR || t == RTL }

  lemma DirectionalStep(s: XState, t: BidiType, rtl: bool)
    requires s.stack != [] && forall i | 0 <= i < |s.stack| :: OverrideOk(s.stack[i].override)
    ensures forall i | 0 <= i < |Step(s, t, rtl).stack| :: OverrideOk(Step(s, t, rtl).stack[i].override)
  {
    hide NextLevel;
  }

  lemma {:induction false} DirectionalOverrides(types: seq<BidiType>, base: nat, p: nat)
    requires p <= |types|
    ensures forall i | 0 <= i < |Before(types, base, p).stack| :: OverrideOk(Before(types, base, p).stack[i].override)
    decreases p
  {
    if p > 0 {
      DirectionalOverrides(types, base, p - 1);
      DirectionalStep(Before(types, base, p - 1), types[p - 1], FsiLevel(types, p - 1) == 1);
    }
  }

  /** Overrides are directions, so no plain character turns into a PDI or BS. */
  lemma PlainKind(types: seq<BidiType>, base: nat, p: nat)
    requires p < |types| && !types[p].PDI? && !types[p].IsExplicitOrBn() && base <= 1
    ensures var x := Result(types, base, p);
            x.Kept? && !x.kind.PDI? && (x.kind.BS? <==> types[p].BS?)
  {
    hide Before;
    DirectionalOverrides(types, base, p);
  }

  /** One kept run; `p` is its position, `e` where it ends. */
  lemma KeepStep(list: seq<Run>, r: Run, m: Run, types: seq<BidiType>, base: nat)
    requires Nested(list, base) && RunReady(r, types) && Shallow(types, base) && Placed(r, m, types, base) && base <= 1
    requires !r.kind.IsExplicitOrBn() && History(list, Before(types, base, r.pos))
    ensures Nested(list + [m], base)
    ensures !r.kind.BS? ==> History(list + [m], Before(types, base, r.pos + r.len))
  {
    hide Nested;
    hide History;
    hide Follows;
    hide Before;
    hide Step;
    hide Shallow;
    var p := r.pos;
    var s, x := Before(types, base, p), Result(types, base, p);
    BeforeOk(types, base, p);
    BeforeNext(types, base, p);
    if r.kind.PDI? {
      BeforeOk(types, base, p + 1);
      StepPdi(s, FsiLevel(types, p) == 1);
      PdiFollows(list, s, m, base);
      KeptRunLaid(list, EndIsolate(s), m, base);
    } else {
      PlainKind(types, base, p);
      PlainFollows(list, s, m);
      KeptRunLaid(list, s, m, base);
      if r.kind.IsInitiator() {
        InitiatorHistory(list, s, m, base, r.kind, FsiLevel(types, p) == 1);
      } else {
        QuietRun(types, base, p, r.len, r.kind);
      }
    }
  }

  lemma KeptNestedStart(runs: seq<Run>, types: seq<BidiType>, base: nat)
    requires Tiled(runs, |types|)
    ensures KeptNested([], runs, 0, types, base)
  {
  }

  lemma NoSurvivors()
    ensures Survivors([]) == []
  {
  }

  lemma {:induction false} KeptNestedUpTo(runs: seq<Run>, types: seq<BidiType>, base: nat, n: nat, list: seq<Run>)
    requires Ready(runs, types) && Shallow(types, base) && base <= 1 && n <= |runs|
    requires AllPlaced(Survivors(runs[..n]), list, types, base)
    ensures KeptNested(list, runs, n, types, base)
    decreases n
  {
    hide Survivors;
    hide Codes;
    hide Placed;
    hide Nested;
    hide History;
    hide Before;
    hide Shallow;
    if n == 0 {
      assert runs[..0] == [];
      assert Survivors([]) == [] by { NoSurvivors(); }
      KeptNestedStart(runs, types, base);
    } else {
      var r := runs[n - 1];
      SurvivorsNext(runs, n - 1);
      NextStart(runs, types, n - 1);
      assert RunReady(r, types);
      if r.kind.IsExplicitOrBn() {
        KeptNestedUpTo(runs, types, base, n - 1, list);
        CodeRun(list, types, base, r.pos, r.len);
      } else {
        var h := |list| - 1;
        assert list == list[..h] + [list[h]];
        KeptNestedUpTo(runs, types, base, n - 1, list[..h]);
        KeepStep(list[..h], r, list[h], types, base);
        if r.kind.BS? {
          SeparatorIsLast(runs, types, n - 1);
        }
      }
    }
  }

  /** The runs that X9 keeps, in order of their positions. */
  lemma {:induction false} SurvivorsInOrder(runs: seq<Run>, types: seq<BidiType>, n: nat)
    requires Ready(runs, types) && n <= |runs|
    ensures var kept := Survivors(runs[..n]);
            && PosIncreasing(kept)
            && (forall i | 0 <= i < |kept| :: RunReady(kept[i], types) && !kept[i].kind.IsExplicitOrBn())
            && (forall i | 0 <= i < |kept| :: kept[i].pos < if n < |runs| then runs[n].pos else |types|)
  {
    hide Survivors;
    hide Codes;
    hide RunReady;
    if n == 0 {
      assert runs[..0] == [];
      NoSurvivors();
    } else {
      SurvivorsInOrder(runs, types, n - 1);
      SurvivorsNext(runs, n - 1);
      NextStart(runs, types, n - 1);
      assert RunReady(runs[n - 1], types);
    }
  }

  lemma PlacedFits(r: Run, m: Run, types: seq<BidiType>, base: nat)
    requires RunReady(r, types) && !r.kind.IsExplicitOrBn() && Placed(r, m, types, base) && base <= 1
    ensures m.pos == r.pos && 0 <= m.level <= MAX_EXPLICIT_LEVEL && m.isolateLevel < ISOLATE_SLOTS
    ensures m.level >= base || m.kind.BS?
    ensures !m.kind.IsExplicitOrBn()
  {
    hide Before;
    BeforeOk(types, base, r.pos);
    BeforeOk(types, base, r.pos + 1);
    DirectionalOverrides(types, base, r.pos);
    var x := Result(types, base, r.pos);
    assert x.Kept? && m.level == x.level && m.kind == x.kind;
  }

  /** After the explicit phase the list has the shape that X10 and all later
      rules rely on. */
  lemma ShapedAfterX(runs: seq<Run>, types: seq<BidiType>, base: nat, list: seq<Run>)
    requires Ready(runs, types) && Shallow(types, base) && base <= 1
    requires AllPlaced(Survivors(runs), list, types, base)
    ensures Shaped(list, base)
    ensures forall i | 0 <= i < |list| :: !list[i].kind.IsExplicitOrBn()
  {
    hide Survivors;
    hide Nested;
    hide History;
    hide Before;
    hide Placed;
    hide RunReady;
    hide Shallow;
    assert runs[..|runs|] == runs;
    KeptNestedUpTo(runs, types, base, |runs|, list);
    SurvivorsInOrder(runs, types, |runs|);
    var kept := Survivors(runs);
    forall i | 0 <= i < |list|
      ensures list[i].pos == kept[i].pos && 0 <= list[i].level <= MAX_EXPLICIT_LEVEL
              && list[i].isolateLevel < ISOLATE_SLOTS
      ensures (list[i].level >= base || list[i].kind.BS?) && !list[i].kind.IsExplicitOrBn() {
      PlacedFits(kept[i], list[i], types, base);
    }
  }
}
