/** The state that the explicit-level loop of fribidi_get_par_embedding_levels_ex
    carries from character to character, proved to track the standard's stack. */
module ExplicitState {
  import opened BidiTypes
  import opened ExplicitRules

  /** One slot of `status_stack`.  `isolate` belongs to the entry pushed on top
      of the saved one, not to the saved entry itself. */
  datatype Status = Status(override: BidiType, level: nat, isolate: bool, isolateLevel: nat)

  const STACK_SLOTS := 127

  const MAX_ISOLATE_LEVEL := 124

  /** The standard's stack: the saved entries below the current level and
      override. */
  ghost function Entries(saved: seq<Status>, level: nat, override: BidiType): (s: seq<Entry>)
    ensures |s| == |saved| + 1
    ensures s[|saved|] == Entry(level, override, saved != [] && saved[|saved| - 1].isolate)
  {
    if saved == [] then [Entry(level, override, false)]
    else
      var last := saved[|saved| - 1];
      Entries(saved[..|saved| - 1], last.level, last.override) + [Entry(level, override, last.isolate)]
  }

  /** Every saved isolate level counts the isolates open above and including
      the entry pushed with it. */
  ghost predicate CountsIsolates(saved: seq<Status>, open: nat) {
    saved != [] ==>
      var last := saved[|saved| - 1];
      && last.isolateLevel == open && (last.isolate ==> open > 0)
      && CountsIsolates(saved[..|saved| - 1], if last.isolate then open - 1 else open)
  }

  /** The loop's variables, the used part of the stack as a sequence. */
  datatype Registers = Registers(level: nat, override: BidiType, isolate: bool, isolateLevel: nat, saved: seq<Status>,
                                 overPushed: nat, firstInterval: nat, validIsolates: nat, isolateOverflow: nat)
  {
    /** The state of the standard these variables stand for. */
    ghost function Abs(): (s: XState)
      ensures s.stack != []
    {
      XState(Entries(saved, level, override), isolateOverflow, overPushed, validIsolates)
    }

    /** `deepest` is the largest number of isolates that were ever open. */
    ghost predicate Valid(base: nat, deepest: nat) {
      && Ok(Abs(), base) && firstInterval == 0 && |saved| <= MAX_EXPLICIT_LEVEL
      && isolateLevel <= MAX_ISOLATE_LEVEL
      && (forall k | 0 <= k < |saved| :: saved[k].isolateLevel <= MAX_ISOLATE_LEVEL)
      && validIsolates <= deepest
      && (deepest <= MAX_ISOLATE_LEVEL ==> isolateLevel == validIsolates && CountsIsolates(saved, isolateLevel))
    }

    /** PUSH_STATUS. */
    ghost function Pushed(newLevel: nat, newOverride: BidiType): Registers {
      if overPushed == 0 && isolateOverflow == 0 && newLevel <= MAX_EXPLICIT_LEVEL then
        this.(saved := saved + [Status(override, level, isolate, isolateLevel)], level := newLevel,
          override := newOverride,
              firstInterval := if level == MAX_EXPLICIT_LEVEL - 1 then overPushed else firstInterval)
      else if isolateOverflow == 0 then this.(overPushed := overPushed + 1)
      else this
    }

    /** POP_STATUS. */
    ghost function Popped(): Registers {
      if saved == [] then this
      else if overPushed > firstInterval then this.(overPushed := overPushed - 1)
      else
        var last := saved[|saved| - 1];
        this.(saved := saved[..|saved| - 1], level := last.level, override := last.override, isolate := last.isolate,
              isolateLevel := last.isolateLevel, firstInterval := if overPushed == firstInterval then 0
                else firstInterval)
    }
  }

  lemma EntriesPush(saved: seq<Status>, st: Status, newLevel: nat, newOverride: BidiType)
    ensures Entries(saved + [st], newLevel, newOverride) ==
              Entries(saved, st.level, st.override) + [Entry(newLevel, newOverride, st.isolate)]
  {
    assert (saved + [st])[..|saved|] == saved;
  }

  lemma CountsPush(saved: seq<Status>, open: nat, st: Status)
    requires CountsIsolates(saved, open) && st.isolateLevel == open + if st.isolate then 1 else 0
    ensures CountsIsolates(saved + [st], st.isolateLevel)
  {
    assert (saved + [st])[..|saved|] == saved;
  }

  /** Strictly increasing levels leave room for at most 125 saved entries. */
  lemma {:induction false} LevelsCount(s: XState, base: nat, i: nat)
    requires ExplicitRules.Ok(s, base) && i < |s.stack|
    ensures s.stack[i].level >= i
  {
    if i > 0 {
      LevelsCount(s, base, i - 1);
    }
  }

  /** LRE, RLE, LRO, RLO: the macro does what X2 to X5 ask. */
  lemma EmbedTracks(m: Registers, base: nat, deepest: nat, t: BidiType, newLevel: nat)
    requires m.Valid(base, deepest) && (t.LRE? || t.RLE? || t.LRO? || t.RLO?)
    requires newLevel == NextLevel(m.level, t.IsRtl())
    ensures |m.saved| <= MAX_EXPLICIT_LEVEL
    ensures var r := m.(isolate := false).Pushed(newLevel, OverrideOf(t));
            r.Valid(base, deepest) && r.Abs() == Step(m.Abs(), t, false) && r.isolateLevel == m.isolateLevel
  {
    hide Entries;
    hide Ok;
    hide CountsIsolates;
    var r := m.(isolate := false).Pushed(newLevel, OverrideOf(t));
    StepOk(m.Abs(), base, t, false);
    if r.saved != m.saved {
      var st := Status(m.override, m.level, false, m.isolateLevel);
      EntriesPush(m.saved, st, newLevel, OverrideOf(t));
      if deepest <= MAX_ISOLATE_LEVEL {
        CountsPush(m.saved, m.isolateLevel, st);
      }
      LevelsCount(r.Abs(), base, |r.saved|);
    }
  }

  lemma EntriesPop(saved: seq<Status>, level: nat, override: BidiType)
    requires saved != []
    ensures var last := saved[|saved| - 1]; var e := Entries(saved, level, override);
            Entries(saved[..|saved| - 1], last.level, last.override) == e[..|e| - 1]
  {
  }

  /** Taking a saved state back that was pushed by an embedding. */
  lemma PopTracks(m: Registers, base: nat, deepest: nat)
    requires m.Valid(base, deepest) && m.saved != [] && m.overPushed == 0 && !m.saved[|m.saved| - 1].isolate
    ensures m.Popped().Valid(base, deepest) && m.Popped().overPushed == 0
    ensures m.Popped().Abs() == m.Abs().(stack := m.Abs().stack[..|m.saved|])
  {
    hide Entries;
    EntriesPop(m.saved, m.level, m.override);
    OkPrefix(m.Abs(), base, |m.saved|, m.Popped().Abs());
  }

  /** The PDF branch for one character. */
  ghost function PdfOne(m: Registers): Registers {
    if m.isolateOverflow > 0 || (m.overPushed == 0 && m.saved != [] && m.saved[|m.saved| - 1].isolate) then m
    else m.Popped()
  }

  lemma OverflowIsDeep(m: Registers, base: nat, deepest: nat)
    requires m.Valid(base, deepest) && base <= 1 && m.overPushed > 0
    ensures m.saved != [] && m.Popped() == m.(overPushed := m.overPushed - 1) && m.Popped().Valid(base, deepest)
    ensures m.Popped().Abs() == m.Abs().(overflowEmbeddings := m.overPushed - 1)
  {
  }

  lemma EndEmbeddingTracks(m: Registers, base: nat, deepest: nat)
    requires m.Valid(base, deepest) && base <= 1
    ensures PdfOne(m).Valid(base, deepest) && PdfOne(m).Abs() == Step(m.Abs(), PDF, false)
    ensures PdfOne(m).isolateLevel <= MAX_ISOLATE_LEVEL
  {
    hide Entries;
    hide ExplicitRules.Ok;
    if m.isolateOverflow == 0 {
      if m.overPushed > 0 {
        OverflowIsDeep(m, base, deepest);
      } else if m.saved != [] && !m.saved[|m.saved| - 1].isolate {
        PopTracks(m, base, deepest);
      }
    }
  }

  // ----- Isolates -----

  /** The isolate initiator branch. */
  ghost function StartIsolate(m: Registers, newLevel: nat): Registers {
    if newLevel <= MAX_EXPLICIT_LEVEL && m.overPushed == 0 && m.isolateOverflow == 0 then
      m.(isolate := true, validIsolates := m.validIsolates + 1,
         isolateLevel := if m.isolateLevel < MAX_ISOLATE_LEVEL then m.isolateLevel + 1
           else m.isolateLevel).Pushed(newLevel, ON)
    else m.(isolate := true, isolateOverflow := m.isolateOverflow + 1)
  }

  lemma IsolateTracks(m: Registers, base: nat, deepest: nat, t: BidiType, fsiRtl: bool, newLevel: nat)
    requires m.Valid(base, deepest) && t.IsInitiator()
    requires newLevel == NextLevel(m.level, t.RLI? || (t.FSI? && fsiRtl))
    ensures |m.saved| <= MAX_EXPLICIT_LEVEL
    ensures StartIsolate(m, newLevel).Valid(base, Max(deepest, StartIsolate(m, newLevel).validIsolates))
    ensures StartIsolate(m, newLevel).Abs() == Step(m.Abs(), t, fsiRtl)
  {
    hide Entries;
    hide ExplicitRules.Ok;
    hide NextLevel;
    var r := StartIsolate(m, newLevel);
    StepOk(m.Abs(), base, t, fsiRtl);
    if r.saved != m.saved {
      var st := Status(m.override, m.level, true, r.isolateLevel);
      EntriesPush(m.saved, st, newLevel, ON);
      if Max(deepest, r.validIsolates) <= MAX_ISOLATE_LEVEL {
        CountsPush(m.saved, m.isolateLevel, st);
      }
      LevelsCount(r.Abs(), base, |r.saved|);
    }
  }

  /** One turn of the loop that takes back the embeddings inside an isolate. */
  lemma DropTracks(m: Registers, base: nat, deepest: nat)
    requires m.Valid(base, deepest) && base <= 1 && m.saved != [] && !m.saved[|m.saved| - 1].isolate
    ensures m.Popped().Valid(base, deepest)
    ensures DropEmbeddings(m.Popped().Abs().stack) == DropEmbeddings(m.Abs().stack)
    ensures |m.Popped().saved| + m.Popped().overPushed < |m.saved| + m.overPushed
    ensures m.Popped().validIsolates == m.validIsolates && m.Popped().isolateOverflow == m.isolateOverflow
  {
    hide Entries;
    hide ExplicitRules.Ok;
    if m.overPushed > 0 {
      OverflowIsDeep(m, base, deepest);
    } else {
      PopTracks(m, base, deepest);
    }
  }

  /** The end of the branch for a PDI that closes a valid isolate. */
  ghost function CloseIsolate(m: Registers): Registers {
    var r := m.(overPushed := 0).Popped();
    r.(isolateLevel := if r.isolateLevel > 0 then r.isolateLevel - 1 else 0,
       validIsolates := if r.validIsolates > 0 then r.validIsolates - 1 else 0)
  }

  lemma CloseIsolateAbs(m0: Registers, m: Registers, base: nat, deepest: nat)
    requires m0.Valid(base, deepest) && m.Valid(base, deepest)
    requires m0.isolateOverflow == 0 && m0.validIsolates > 0
    requires m.isolateOverflow == 0 && m.validIsolates == m0.validIsolates
    requires DropEmbeddings(m.Abs().stack) == DropEmbeddings(m0.Abs().stack)
    requires m.saved != [] ==> m.saved[|m.saved| - 1].isolate
    ensures m.saved != [] && CloseIsolate(m).Abs() == Step(m0.Abs(), PDI, false)
  {
    hide Entries;
    hide Isolates;
    DropKeeps(m0.Abs().stack);
    assert |DropEmbeddings(m0.Abs().stack)| > 1;
    assert DropEmbeddings(m.Abs().stack) == m.Abs().stack;
    EntriesPop(m.saved, m.level, m.override);
  }

  lemma EndIsolateTracks(m0: Registers, m: Registers, base: nat, deepest: nat)
    requires m0.Valid(base, deepest) && m.Valid(base, deepest)
    requires m0.isolateOverflow == 0 && m0.validIsolates > 0
    requires m.isolateOverflow == 0 && m.validIsolates == m0.validIsolates
    requires DropEmbeddings(m.Abs().stack) == DropEmbeddings(m0.Abs().stack)
    requires m.saved != [] ==> m.saved[|m.saved| - 1].isolate
    ensures CloseIsolate(m).Valid(base, deepest) && CloseIsolate(m).Abs() == Step(m0.Abs(), PDI, false)
  {
    hide Entries;
    hide DropEmbeddings;
    hide ExplicitRules.Ok;
    CloseIsolateAbs(m0, m, base, deepest);
    StepOk(m0.Abs(), base, PDI, false);
  }

  /** A PDI that closes an overflow isolate, or none. */
  lemma OtherPdiTracks(m: Registers, base: nat, deepest: nat)
    requires m.Valid(base, deepest)
    ensures m.isolateOverflow > 0 ==>
              var r := m.(isolateOverflow := m.isolateOverflow - 1);
                  r.Valid(base, deepest) && r.Abs() == Step(m.Abs(), PDI, false)
    ensures m.isolateOverflow == 0 && m.validIsolates == 0 ==> m.Abs() == Step(m.Abs(), PDI, false)
  {
    hide ExplicitRules.Ok;
    StepOk(m.Abs(), base, PDI, false);
  }
}
