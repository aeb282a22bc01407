/** Rules P2, P3 and X1 to X9 on the run list: the explicit-level phase of
    fribidi_get_par_embedding_levels_ex. */
module ExplicitLevels {
  import opened BidiTypes
  import opened Runs
  import opened ExplicitRules
  import opened ExplicitState

  // ----- Runs and characters -----

  /** `n` characters of one type in a row. */
  ghost function Repeat(s: XState, t: BidiType, n: nat): (r: XState)
    requires s.stack != []
    ensures r.stack != []
  {
    if n == 0 then s else Step(Repeat(s, t, n - 1), t, false)
  }

  lemma {:induction false} RepeatAdd(s: XState, t: BidiType, m: nat, n: nat)
    requires s.stack != []
    ensures Repeat(Repeat(s, t, m), t, n) == Repeat(s, t, m + n)
  {
    hide Step;
    if n > 0 {
      RepeatAdd(s, t, m, n - 1);
    }
  }

  lemma {:induction false} RepeatStuck(s: XState, t: BidiType, n: nat)
    requires s.stack != [] && Step(s, t, false) == s
    ensures Repeat(s, t, n) == s
  {
    if n > 0 {
      RepeatStuck(s, t, n - 1);
    }
  }

  lemma OnlyFsiCares(s: XState, t: BidiType, fsiRtl: bool)
    requires s.stack != [] && !t.FSI?
    ensures Step(s, t, fsiRtl) == Step(s, t, false)
  {
  }

  /** The standard's state moves over a run in one go. */
  lemma {:induction false} BeforeRun(types: seq<BidiType>, base: nat, p: nat, n: nat, t: BidiType)
    requires p + n <= |types| && !t.FSI? && forall q | p <= q < p + n :: types[q] == t
    ensures Before(types, base, p + n) == Repeat(Before(types, base, p), t, n)
  {
    hide Step;
    hide FsiLevel;
    if n > 0 {
      BeforeRun(types, base, p, n - 1, t);
      OnlyFsiCares(Before(types, base, p + n - 1), t, FsiLevel(types, p + n - 1) == 1);
    }
  }

  /** The bit tricks of the loop compute the least greater odd or even level. */
  lemma NewLevel(level: nat, rtl: bool)
    ensures (if rtl then (level + 3) / 2 * 2 - 1 else (level + 2) / 2 * 2) == NextLevel(level, rtl)
    ensures (if rtl then level + 1 + level % 2 else level + 2 - level % 2) == NextLevel(level, rtl)
  {
  }

  // ----- The machine -----

  /** The variables of the loop and the fixed-size status stack. */
  class Machine {
    var level: nat
    var override: BidiType
    var isolate: bool
    var isolateLevel: nat
    const stack: array<Status>
    var stackSize: nat
    var overPushed: nat
    var firstInterval: nat
    var validIsolateCount: nat
    var isolateOverflow: nat
    ghost const base: nat
    ghost var deepest: nat

    ghost function Regs(): Registers
      reads this, stack
      requires stackSize <= stack.Length
    {
      Registers(level, override, isolate, isolateLevel, stack[..stackSize], overPushed, firstInterval,
        validIsolateCount, isolateOverflow)
    }

    ghost predicate Valid()
      reads this, stack
    {
      stack.Length == STACK_SLOTS && stackSize <= stack.Length && base <= 1 && Regs().Valid(base, deepest)
    }

    constructor (baseLevel: nat)
      requires baseLevel <= 1
      ensures Valid() && Regs().Abs() == Initial(baseLevel) && base == baseLevel && deepest == 0
      ensures fresh(stack)
    {
      level, override, isolate, isolateLevel := baseLevel, ON, false, 0;
      stack := new Status[STACK_SLOTS];
      stackSize, overPushed, firstInterval := 0, 0, 0;
      validIsolateCount, isolateOverflow := 0, 0;
      base, deepest := baseLevel, 0;
      new;
      assert Initial(baseLevel).stack[..0] == [];
    }

    /** PUSH_STATUS. */
    method PushStatus(newLevel: nat, newOverride: BidiType)
      requires stack.Length == STACK_SLOTS && stackSize <= MAX_EXPLICIT_LEVEL
      modifies this, stack
      ensures stackSize <= stack.Length && Regs() == old(Regs()).Pushed(newLevel, newOverride)
              && deepest == old(deepest)
    {
      if overPushed == 0 && isolateOverflow == 0 && newLevel <= MAX_EXPLICIT_LEVEL {
        ghost var saved := stack[..stackSize];
        if level == MAX_EXPLICIT_LEVEL - 1 {
          firstInterval := overPushed;
        }
        stack[stackSize] := Status(override, level, isolate, isolateLevel);
        stackSize := stackSize + 1;
        assert stack[..stackSize] == saved + [stack[stackSize - 1]];
        level := newLevel;
        override := newOverride;
      } else if isolateOverflow == 0 {
        overPushed := overPushed + 1;
      }
    }

    /** POP_STATUS. */
    method PopStatus()
      requires stackSize <= stack.Length
      modifies this
      ensures stackSize <= stack.Length && Regs() == old(Regs()).Popped() && deepest == old(deepest)
    {
      if stackSize > 0 {
        if overPushed > firstInterval {
          overPushed := overPushed - 1;
        } else {
          if overPushed == firstInterval {
            firstInterval := 0;
          }
          stackSize := stackSize - 1;
          level := stack[stackSize].level;
          override := stack[stackSize].override;
          isolate := stack[stackSize].isolate;
          isolateLevel := stack[stackSize].isolateLevel;
        }
      }
    }

    /** LRE, RLE, LRO, RLO, `n` times. */
    method EmbedRun(t: BidiType, n: nat)
      requires Valid() && (t.LRE? || t.RLE? || t.LRO? || t.RLO?)
      modifies this, stack
      ensures Valid() && Regs().Abs() == Repeat(old(Regs().Abs()), t, n)
      ensures isolateLevel == old(isolateLevel) && deepest == old(deepest)
    {
      hide Step;
      hide Registers.Abs;
      hide Registers.Valid;
      hide Registers.Pushed;
      hide NextLevel;
      var newOverride := if t.IsOverride() then LevelToDir(DirToLevel(t)) else ON;
      for i := 0 to n
        invariant Valid() && Regs().Abs() == Repeat(old(Regs().Abs()), t, i)
        invariant isolateLevel == old(isolateLevel) && deepest == old(deepest)
      {
        var newLevel := (level + DirToLevel(t) + 2) / 2 * 2 - DirToLevel(t);
        NewLevel(level, t.IsRtl());
        EmbedTracks(Regs(), base, deepest, t, newLevel);
        isolate := false;
        PushStatus(newLevel, newOverride);
      }
    }

    /** PDF, `n` times; the loop stops early once PDFs have no effect. */
    method EndEmbeddingRun(n: nat)
      requires Valid()
      modifies this, stack
      ensures Valid() && Regs().Abs() == Repeat(old(Regs().Abs()), PDF, n) && deepest == old(deepest)
    {
      hide Step;
      hide Registers.Abs;
      hide Registers.Valid;
      hide Registers.Popped;
      for i := 0 to n
        invariant Valid() && Regs().Abs() == Repeat(old(Regs().Abs()), PDF, i) && deepest == old(deepest)
      {
        EndEmbeddingTracks(Regs(), base, deepest);
        if isolateOverflow > 0 || (overPushed == 0 && stackSize > 0 && stack[stackSize - 1].isolate) {
          RepeatStuck(Regs().Abs(), PDF, n - i);
          RepeatAdd(old(Regs().Abs()), PDF, i, n - i);
          return;
        }
        PopStatus();
      }
    }

    /** LRI, RLI, FSI. */
    method Initiate(t: BidiType, fsiRtl: bool)
      requires Valid() && t.IsInitiator()
      modifies this, stack
      ensures Valid() && Regs().Abs() == Step(old(Regs().Abs()), t, fsiRtl)
      ensures deepest == Max(old(deepest), validIsolateCount)
    {
      hide Step;
      hide Registers.Abs;
      hide Registers.Valid;
      hide NextLevel;
      isolate := true;
      var newLevel := level + 2 - level % 2;
      if t.RLI? || (t.FSI? && fsiRtl) {
        newLevel := level + 1 + level % 2;
      }
      NewLevel(level, t.RLI? || (t.FSI? && fsiRtl));
      IsolateTracks(old(Regs()), base, deepest, t, fsiRtl, newLevel);
      if newLevel <= MAX_EXPLICIT_LEVEL && overPushed == 0 && isolateOverflow == 0 {
        validIsolateCount := validIsolateCount + 1;
        if isolateLevel < MAX_EXPLICIT_LEVEL - 1 {
          isolateLevel := isolateLevel + 1;
        }
        PushStatus(newLevel, ON);
        level := newLevel;
      } else {
        isolateOverflow := isolateOverflow + 1;
      }
      deepest := Max(deepest, validIsolateCount);
    }

    /** PDI; returns whether it closes an isolate. */
    method EndIsolate() returns (matched: bool)
      requires Valid()
      modifies this, stack
      ensures Valid() && Regs().Abs() == Step(old(Regs().Abs()), PDI, false) && deepest == old(deepest)
      ensures matched == (old(isolateOverflow) > 0 || old(validIsolateCount) > 0)
    {
      hide Step;
      hide Registers.Abs;
      hide Registers.Valid;
      hide DropEmbeddings;
      matched := true;
      OtherPdiTracks(Regs(), base, deepest);
      if isolateOverflow > 0 {
        isolateOverflow := isolateOverflow - 1;
      } else if validIsolateCount > 0 {
        while stackSize > 0 && !stack[stackSize - 1].isolate
          invariant Valid() && deepest == old(deepest)
          invariant isolateOverflow == 0 && validIsolateCount == old(validIsolateCount)
          invariant DropEmbeddings(Regs().Abs().stack) == DropEmbeddings(old(Regs().Abs().stack))
          decreases stackSize + overPushed
        {
          DropTracks(Regs(), base, deepest);
          PopStatus();
        }
        EndIsolateTracks(old(Regs()), Regs(), base, deepest);
        overPushed := 0;
        PopStatus();
        if isolateLevel > 0 {
          isolateLevel := isolateLevel - 1;
        }
        validIsolateCount := validIsolateCount - 1;
      } else {
        matched := false;
      }
    }
  }

  // ----- P2 and P3 -----

  /** The scan of P2: isolates are skipped with their content, an unmatched
      PDI is ignored; -1 stands for "no letter found". */
  ghost function FirstLetter(types: seq<BidiType>, depth: nat): int {
    if types == [] then -1
    else
      var t, rest := types[0], types[1..];
      if t.PDI? then FirstLetter(rest, if depth > 0 then depth - 1 else 0)
      else if t.IsInitiator() then FirstLetter(rest, depth + 1)
      else if depth == 0 && t.IsLetter() then DirToLevel(t)
      else FirstLetter(rest, depth)
  }

  /** A paragraph: a separator may only be its last character. */
  ghost predicate OneParagraph(types: seq<BidiType>) {
    forall i | 0 <= i < |types| - 1 :: !types[i].BS?
  }

  /** fribidi_get_par_direction: RTL, LTR or ON, from the characters. */
  method GetParDirection(types: seq<BidiType>) returns (dir: BidiType)
    requires OneParagraph(types)
    ensures dir == var l := FirstLetter(types, 0); if l < 0 then ON else LevelToDir(l)
  {
    var count := 0;
    assert types[0..] == types;
    for i := 0 to |types|
      invariant FirstLetter(types, 0) == FirstLetter(types[i..], count)
    {
      assert types[i..][1..] == types[i + 1..];
      if types[i].PDI? {
        if count > 0 {
          count := count - 1;
        }
      } else if types[i].IsIsolate() {
        count := count + 1;
      } else if types[i].BS? {
        assert types[i + 1..] == [];
        count := 0;
      } else if count == 0 && types[i].IsLetter() {
        return if types[i].IsRtl() then RTL else LTR;
      }
    }
    return ON;
  }

  /** Repeating a character that is no isolate control changes nothing. */
  lemma {:induction false} FirstLetterRun(types: seq<BidiType>, depth: nat, n: nat)
    requires 0 < n <= |types| && !types[0].IsIsolate() && forall i | 0 <= i < n :: types[i] == types[0]
    ensures FirstLetter(types, depth) == if depth == 0 && types[0].IsLetter() then DirToLevel(types[0])
            else FirstLetter(types[n..], depth)
  {
    if n > 1 && !(depth == 0 && types[0].IsLetter()) {
      assert types[1..][n - 1..] == types[n..];
      FirstLetterRun(types[1..], depth, n - 1);
    }
  }

  /** The scan moves over a run of the encoded text in one go. */
  lemma FirstLetterAt(runs: seq<Run>, k: nat, types: seq<BidiType>, brackets: seq<Bracket>, count: nat)
    requires |types| == |brackets| && Encodes(runs, types, brackets) && k < |runs|
    ensures var p, t := runs[k].pos, runs[k].kind;
            var next := if k + 1 < |runs| then runs[k + 1].pos else |types|;
            && p < next <= |types|
            && FirstLetter(types[p..], count) ==
                 if t.PDI? then FirstLetter(types[next..], if count > 0 then count - 1 else 0)
                 else if t.IsIsolate() then FirstLetter(types[next..], count + 1)
                 else if count == 0 && t.IsLetter() then DirToLevel(t)
                 else FirstLetter(types[next..], count)
  {
    hide DirToLevel;
    hide Apart;
    assert Uniform(runs[k], types, brackets);
    var rest, n := types[runs[k].pos..], runs[k].len;
    assert rest[n..] == types[runs[k].pos + n..];
    if !runs[k].kind.IsIsolate() {
      FirstLetterRun(rest, count, n);
    }
  }

  lemma TextStarts(runs: seq<Run>, types: seq<BidiType>, brackets: seq<Bracket>)
    requires |types| == |brackets| && Encodes(runs, types, brackets)
    ensures (if runs == [] then |types| else runs[0].pos) == 0
    ensures types[0..] == types && types[|types|..] == []
  {
  }

  lemma LevelIsNat(t: BidiType)
    ensures 0 <= DirToLevel(t) <= 1
  {
  }

  /** P2 and P3 on the run list, as fribidi_get_par_embedding_levels_ex does. */
  method FindBaseLevel(runs: seq<Run>, strong: bool, fallback: nat, ghost types: seq<BidiType>,
                       ghost brackets: seq<Bracket>)
    returns (baseLevel: nat, found: bool)
    requires |types| == |brackets| && Encodes(runs, types, brackets)
    ensures found <==> !strong && FirstLetter(types, 0) >= 0
    ensures baseLevel == if found then FirstLetter(types, 0) else fallback
  {
    hide DirToLevel;
    hide Encodes;
    baseLevel, found := fallback, false;
    if !strong {
      var count := 0;
      var k := 0;
      ghost var p := 0;
      TextStarts(runs, types, brackets);
      while k < |runs|
        invariant 0 <= k <= |runs| && p == (if k == |runs| then |types| else runs[k].pos) <= |types|
        invariant FirstLetter(types, 0) == FirstLetter(types[p..], count)
      {
        FirstLetterAt(runs, k, types, brackets, count);
        if runs[k].kind.PDI? {
          if count > 0 {
            count := count - 1;
          }
        } else if runs[k].kind.IsIsolate() {
          count := count + 1;
        } else if count == 0 && runs[k].kind.IsLetter() {
          LevelIsNat(runs[k].kind);
          return DirToLevel(runs[k].kind), true;
        }
        k := k + 1;
        p := if k == |runs| then |types| else runs[k].pos;
      }
    }
  }

  // ----- FSI -----

  /** The scan moves over a run in one go. */
  lemma {:induction false} ScanRun(types: seq<BidiType>, start: nat, p: nat, n: nat, t: BidiType)
    requires start <= p && p + n <= |types| && n > 0 && (forall q | p <= q < p + n :: types[q] == t)
    requires t.IsIsolate() ==> n == 1
    ensures ScanFrom(types, start, p + n) == ScanStep(ScanFrom(types, start, p), t)
  {
    if n > 1 {
      ScanRun(types, start, p, n - 1, t);
    }
  }

  /** FSI run `m`, seen before position `p`, against the stack of pending
      initiators: undecided ones sit on the stack at their nesting depth. */
  ghost predicate FsiPending(r: Run, m: nat, types: seq<BidiType>, p: nat, stack: seq<int>)
    requires r.pos < p <= |types|
  {
    match ScanFrom(types, r.pos + 1, p)
    case Found(l) => r.fsiBaseLevel == l
    case Closed => r.fsiBaseLevel == 0
    case Open(d) => r.fsiBaseLevel == 0 && d < |stack| && stack[|stack| - 1 - d] == m
  }

  ghost predicate FsiState(runs: seq<Run>, k: nat, types: seq<BidiType>, p: nat, stack: seq<int>) {
    && k <= |runs| && p <= |types|
    && (forall m | 0 <= m < k :: runs[m].pos < p)
    && (forall m | 0 <= m < k && runs[m].kind.FSI? :: FsiPending(runs[m], m, types, p, stack))
    && (forall j | 0 <= j < |stack| && stack[j] >= 0 ::
          && stack[j] < k && runs[stack[j]].kind.FSI?
          && ScanFrom(types, runs[stack[j]].pos + 1, p) == Open(|stack| - 1 - j))
  }

  /** How one run changes the stack and the run it decides, if any. */
  ghost function FsiStack(runs: seq<Run>, k: nat, stack: seq<int>): seq<int>
    requires k < |runs|
  {
    var t := runs[k].kind;
    if t.PDI? then (if stack == [] then [] else stack[..|stack| - 1])
    else if t.IsInitiator() then stack + [if t.FSI? then k as int else -1]
    else if t.IsLetter() && stack != [] && stack[|stack| - 1] >= 0 then stack[|stack| - 1 := -1]
    else stack
  }

  ghost function FsiRuns(runs: seq<Run>, k: nat, stack: seq<int>): seq<Run>
    requires k < |runs| && forall j | 0 <= j < |stack| :: stack[j] < |runs|
  {
    var t := runs[k].kind;
    if t.FSI? then runs[k := runs[k].(fsiBaseLevel := 0)]
    else if t.IsLetter() && stack != [] && stack[|stack| - 1] >= 0 then
      var m := stack[|stack| - 1];
      runs[m := runs[m].(fsiBaseLevel := DirToLevel(t))]
    else runs
  }

  /** Run `k` starts at `p` and is made of one type. */
  ghost predicate RunAt(runs: seq<Run>, k: nat, types: seq<BidiType>, p: nat) {
    && k < |runs| && runs[k].pos == p && runs[k].len > 0 && p + runs[k].len <= |types|
    && (forall q | p <= q < p + runs[k].len :: types[q] == runs[k].kind)
    && (runs[k].kind.IsIsolate() ==> runs[k].len == 1)
  }

  lemma FsiPendingStep(runs: seq<Run>, k: nat, types: seq<BidiType>, p: nat, stack: seq<int>, m: nat)
    requires FsiState(runs, k, types, p, stack) && RunAt(runs, k, types, p) && m < k && runs[m].kind.FSI?
    ensures FsiPending(FsiRuns(runs, k, stack)[m], m, types, p + runs[k].len, FsiStack(runs, k, stack))
  {
    hide ScanFrom;
    assert FsiPending(runs[m], m, types, p, stack);
    ScanRun(types, runs[m].pos + 1, p, runs[k].len, runs[k].kind);
  }

  lemma FsiEntryStep(runs: seq<Run>, k: nat, types: seq<BidiType>, p: nat, stack: seq<int>, j: nat)
    requires FsiState(runs, k, types, p, stack) && RunAt(runs, k, types, p)
    requires j < |FsiStack(runs, k, stack)| && 0 <= FsiStack(runs, k, stack)[j] < k
    ensures var m := FsiStack(runs, k, stack)[j];
            && j < |stack| && m == stack[j] && FsiRuns(runs, k, stack)[m].kind.FSI?
               && FsiRuns(runs, k, stack)[m].pos == runs[m].pos < p
            && ScanFrom(types, runs[m].pos + 1, p + runs[k].len) == Open(|FsiStack(runs, k, stack)| - 1 - j)
  {
    hide ScanFrom;
    hide FsiPending;
    var m := FsiStack(runs, k, stack)[j];
    ScanRun(types, runs[m].pos + 1, p, runs[k].len, runs[k].kind);
  }

  lemma FsiStateStep(runs: seq<Run>, k: nat, types: seq<BidiType>, p: nat, stack: seq<int>)
    requires FsiState(runs, k, types, p, stack) && RunAt(runs, k, types, p)
    ensures FsiState(FsiRuns(runs, k, stack), k + 1, types, p + runs[k].len, FsiStack(runs, k, stack))
  {
    var p', runs', stack' := p + runs[k].len, FsiRuns(runs, k, stack), FsiStack(runs, k, stack);
    forall m | 0 <= m < k && runs'[m].kind.FSI? ensures FsiPending(runs'[m], m, types, p', stack') {
      FsiPendingStep(runs, k, types, p, stack, m);
    }
    assert ScanFrom(types, p + 1, p + 1) == Open(0);
    forall j | 0 <= j < |stack'| && stack'[j] >= 0
      ensures stack'[j] < k + 1 && runs'[stack'[j]].kind.FSI?
      ensures ScanFrom(types, runs'[stack'[j]].pos + 1, p') == Open(|stack'| - 1 - j) {
      if stack'[j] < k {
        FsiEntryStep(runs, k, types, p, stack, j);
      }
    }
  }

  /** The FSI fields are the only ones this pass may change. */
  ghost predicate FsiFieldsOnly(a: seq<Run>, b: seq<Run>) {
    |a| == |b| && forall k | 0 <= k < |a| :: a[k].(fsiBaseLevel := b[k].fsiBaseLevel) == b[k]
  }

  ghost predicate FsiResolved(runs: seq<Run>, types: seq<BidiType>) {
    forall k | 0 <= k < |runs| && runs[k].kind.FSI? ::
          runs[k].pos < |types| && runs[k].fsiBaseLevel == FsiLevel(types, runs[k].pos)
  }

  /** The body of the pass. */
  method FsiOne(runs0: seq<Run>, k: nat, stack0: seq<int>) returns (runs: seq<Run>, stack: seq<int>)
    requires k < |runs0| && forall j | 0 <= j < |stack0| :: stack0[j] < |runs0|
    ensures runs == FsiRuns(runs0, k, stack0) && stack == FsiStack(runs0, k, stack0)
  {
    runs, stack := runs0, stack0;
    var t := runs[k].kind;
    if t.PDI? {
      if |stack| > 0 {
        stack := stack[..|stack| - 1];
      }
    } else if t.IsIsolate() {
      if t.FSI? {
        runs := runs[k := runs[k].(fsiBaseLevel := 0)];
        stack := stack + [k];
      } else {
        stack := stack + [-1];
      }
    } else if |stack| > 0 && t.IsLetter() {
      var pending := stack[|stack| - 1];
      if pending >= 0 {
        runs := runs[pending := runs[pending].(fsiBaseLevel := DirToLevel(t))];
        stack := stack[|stack| - 1 := -1];
      }
    }
  }

  lemma FsiFields(runs0: seq<Run>, runs: seq<Run>, k: nat, stack: seq<int>)
    requires FsiFieldsOnly(runs0, runs) && k < |runs| && forall j | 0 <= j < |stack| :: stack[j] < |runs|
    ensures FsiFieldsOnly(runs0, FsiRuns(runs, k, stack))
  {
  }

  lemma FsiRunAt(runs0: seq<Run>, runs: seq<Run>, k: nat, types: seq<BidiType>, brackets: seq<Bracket>)
    requires |types| == |brackets| && Encodes(runs0, types, brackets) && FsiFieldsOnly(runs0, runs) && k < |runs|
    ensures RunAt(runs, k, types, runs0[k].pos)
    ensures runs0[k].pos + runs[k].len == if k + 1 == |runs| then |types| else runs0[k + 1].pos
  {
    assert Uniform(runs0[k], types, brackets);
  }

  lemma FsiEnd(runs: seq<Run>, types: seq<BidiType>, stack: seq<int>)
    requires FsiState(runs, |runs|, types, |types|, stack)
    ensures FsiResolved(runs, types)
  {
    forall m | 0 <= m < |runs| && runs[m].kind.FSI?
      ensures runs[m].pos < |types| && runs[m].fsiBaseLevel == FsiLevel(types, runs[m].pos) {
      assert FsiPending(runs[m], m, types, |types|, stack);
    }
  }

  lemma EncodesStart(runs: seq<Run>, types: seq<BidiType>, brackets: seq<Bracket>)
    requires |types| == |brackets| && Encodes(runs, types, brackets)
    ensures 0 == if runs == [] then |types| else runs[0].pos
  {
  }

  /** X5c preprocessing: one pass with a stack of pending initiators gives
      every FSI the direction that a scan of its own would find. */
  method ResolveFsi(runs0: seq<Run>, ghost types: seq<BidiType>, ghost brackets: seq<Bracket>) returns (runs: seq<Run>)
    requires |types| == |brackets| && Encodes(runs0, types, brackets)
    ensures FsiFieldsOnly(runs0, runs) && FsiResolved(runs, types)
  {
    hide FsiRuns;
    hide FsiStack;
    hide FsiPending;
    hide RunAt;
    hide Encodes;
    runs := runs0;
    var stack: seq<int> := [];
    var k := 0;
    ghost var p := 0;
    EncodesStart(runs0, types, brackets);
    while k < |runs|
      invariant FsiFieldsOnly(runs0, runs)
      invariant 0 <= k <= |runs| && p == if k == |runs| then |types| else runs0[k].pos
      invariant FsiState(runs, k, types, p, stack)
    {
      FsiRunAt(runs0, runs, k, types, brackets);
      FsiStateStep(runs, k, types, p, stack);
      FsiFields(runs0, runs, k, stack);
      p := p + runs[k].len;
      runs, stack := FsiOne(runs, k, stack);
      k := k + 1;
    }
    FsiEnd(runs, types, stack);
  }
}
