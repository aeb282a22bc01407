/** Rules X1 to X8 of UAX #9 (section 3.3.2) as the standard words them: a stack
    of entries and three counters, driven one character at a time. */
module ExplicitRules {
  import opened BidiTypes

  /** An entry of the directional status stack; `override` is LTR, RTL or ON. */
  datatype Entry = Entry(level: nat, override: BidiType, isolate: bool)

  datatype XState = XState(stack: seq<Entry>, overflowIsolates: nat, overflowEmbeddings: nat, validIsolates: nat)

  /** X1. */
  function Initial(base: nat): XState { XState([Entry(base, ON, false)], 0, 0, 0) }

  function Top(s: XState): Entry
    requires s.stack != []
  {
    s.stack[|s.stack| - 1]
  }

  /** The least level above `level` of the wanted direction. */
  function NextLevel(level: nat, rtl: bool): (n: nat)
    ensures level < n <= level + 2 && LevelIsRtl(n) == rtl
    ensures forall m | level < m < n :: LevelIsRtl(m) != rtl
  {
    if LevelIsRtl(level + 1) == rtl then level + 1 else level + 2
  }

  function OverrideOf(t: BidiType): BidiType {
    if t.LRO? then LTR else if t.RLO? then RTL else ON
  }

  /** X2 to X5. */
  function Embed(s: XState, t: BidiType): XState
    requires s.stack != []
  {
    var level := NextLevel(Top(s).level, t.IsRtl());
    if level <= MAX_EXPLICIT_LEVEL && s.overflowIsolates == 0 && s.overflowEmbeddings == 0 then
      s.(stack := s.stack + [Entry(level, OverrideOf(t), false)])
    else if s.overflowIsolates == 0 then s.(overflowEmbeddings := s.overflowEmbeddings + 1)
    else s
  }

  /** X5a to X5c; `rtl` tells the direction of the isolate. */
  function Isolate(s: XState, rtl: bool): XState
    requires s.stack != []
  {
    var level := NextLevel(Top(s).level, rtl);
    if level <= MAX_EXPLICIT_LEVEL && s.overflowIsolates == 0 && s.overflowEmbeddings == 0 then
      s.(stack := s.stack + [Entry(level, ON, true)], validIsolates := s.validIsolates + 1)
    else s.(overflowIsolates := s.overflowIsolates + 1)
  }

  /** Pop entries while the directional isolate status of the last one is false. */
  function DropEmbeddings(stack: seq<Entry>): (r: seq<Entry>)
    requires stack != []
    ensures r != [] && r <= stack
    ensures |r| > 1 ==> r[|r| - 1].isolate
  {
    if |stack| > 1 && !stack[|stack| - 1].isolate then DropEmbeddings(stack[..|stack| - 1]) else stack
  }

  /** X6a. */
  function EndIsolate(s: XState): XState
    requires s.stack != []
  {
    if s.overflowIsolates > 0 then s.(overflowIsolates := s.overflowIsolates - 1)
    else if s.validIsolates == 0 then s
    else
      var kept := DropEmbeddings(s.stack);
      s.(overflowEmbeddings := 0, validIsolates := s.validIsolates - 1,
         stack := if |kept| > 1 then kept[..|kept| - 1] else kept)
  }

  /** X7. */
  function EndEmbedding(s: XState): XState
    requires s.stack != []
  {
    if s.overflowIsolates > 0 then s
    else if s.overflowEmbeddings > 0 then s.(overflowEmbeddings := s.overflowEmbeddings - 1)
    else if !Top(s).isolate && |s.stack| >= 2 then s.(stack := s.stack[..|s.stack| - 1])
    else s
  }

  /** One character; `fsiRtl` is the direction found for it if it is an FSI. */
  function Step(s: XState, t: BidiType, fsiRtl: bool): (r: XState)
    requires s.stack != []
    ensures r.stack != []
  {
    match t
    case LRE | RLE | LRO | RLO => Embed(s, t)
    case PDF => EndEmbedding(s)
    case LRI => Isolate(s, false)
    case RLI => Isolate(s, true)
    case FSI => Isolate(s, fsiRtl)
    case PDI => EndIsolate(s)
    case _ => s
  }

  // ----- FSI: rules P2 and P3 between an FSI and its matching PDI -----

  datatype Scan = Open(depth: nat) | Closed | Found(level: nat)

  function ScanStep(st: Scan, t: BidiType): Scan {
    match st
    case Open(d) =>
      if t.PDI? then (if d == 0 then Closed else Open(d - 1))
      else if t.IsInitiator() then Open(d + 1)
      else if d == 0 && t.IsLetter() then Found(DirToLevel(t))
      else st
    case _ => st
  }

  /** The scan over types[start..end]. */
  function ScanFrom(types: seq<BidiType>, start: nat, end: nat): Scan
    requires start <= end <= |types|
    decreases end
  {
    if start == end then Open(0) else ScanStep(ScanFrom(types, start, end - 1), types[end - 1])
  }

  /** The direction of an FSI at `i`: that of the first letter before its
      matching PDI, outside nested isolates; left-to-right if there is none. */
  function FsiLevel(types: seq<BidiType>, i: nat): (l: nat)
    requires i < |types|
  {
    match ScanFrom(types, i + 1, |types|)
    case Found(l) => l
    case _ => 0
  }

  // ----- The whole paragraph -----

  /** The state before character `i`. */
  function Before(types: seq<BidiType>, base: nat, i: nat): (s: XState)
    requires i <= |types|
    ensures s.stack != []
    decreases i
  {
    if i == 0 then Initial(base)
    else Step(Before(types, base, i - 1), types[i - 1], FsiLevel(types, i - 1) == 1)
  }

  function Overridden(e: Entry, t: BidiType): BidiType {
    if e.override == ON then t else e.override
  }

  /** What X1 to X9 make of a character. */
  datatype XChar = Removed | Kept(level: nat, kind: BidiType, isolates: nat)

  /** The level is the standard's.  So is the type, except that a matched PDI
      stays a PDI and an unmatched one becomes ON, whatever the override; and a
      paragraph separator waits at level 0 for rule L1. */
  function Result(types: seq<BidiType>, base: nat, i: nat): XChar
    requires i < |types|
  {
    var t, s, after := types[i], Before(types, base, i), Before(types, base, i + 1);
    if t.IsExplicitOrBn() then Removed
    else if t.BS? then Kept(0, BS, s.validIsolates)
    else if t.PDI? then
      Kept(Top(after).level, if s.overflowIsolates > 0 || s.validIsolates > 0 then PDI else ON, after.validIsolates)
    else Kept(Top(s).level, Overridden(Top(s), t), s.validIsolates)
  }

  // ----- What every reachable state keeps -----

  function Isolates(stack: seq<Entry>): nat {
    if stack == [] then 0 else Isolates(stack[..|stack| - 1]) + if stack[|stack| - 1].isolate then 1 else 0
  }

  ghost predicate Ok(s: XState, base: nat) {
    && s.stack != [] && s.stack[0] == Entry(base, ON, false)
    && (forall i | 0 < i < |s.stack| :: s.stack[i - 1].level < s.stack[i].level)
    && (forall i | 0 <= i < |s.stack| :: base <= s.stack[i].level <= MAX_EXPLICIT_LEVEL)
    && s.validIsolates == Isolates(s.stack)
    && (s.overflowEmbeddings > 0 ==> Top(s).level >= MAX_EXPLICIT_LEVEL - 1)
  }

  lemma {:induction false} DropKeeps(stack: seq<Entry>)
    requires stack != [] && !stack[0].isolate
    ensures Isolates(DropEmbeddings(stack)) == Isolates(stack)
    ensures Isolates(stack) > 0 ==> |DropEmbeddings(stack)| > 1
    ensures DropEmbeddings(stack)[0] == stack[0]
  {
    if |stack| > 1 && !stack[|stack| - 1].isolate {
      DropKeeps(stack[..|stack| - 1]);
    } else if |stack| == 1 {
      assert stack[..0] == [];
    }
  }

  lemma OkPrefix(s: XState, base: nat, n: nat, r: XState)
    requires Ok(s, base) && 0 < n <= |s.stack|
    requires r.stack == s.stack[..n] && r.validIsolates == Isolates(s.stack[..n]) && r.overflowEmbeddings == 0
    ensures Ok(r, base)
  {
  }

  lemma OkPush(s: XState, base: nat, e: Entry, r: XState)
    requires Ok(s, base) && Top(s).level < e.level <= MAX_EXPLICIT_LEVEL
    requires r.stack == s.stack + [e] && r.overflowEmbeddings == 0
    requires r.validIsolates == s.validIsolates + if e.isolate then 1 else 0
    ensures Ok(r, base)
  {
    assert r.stack[..|s.stack|] == s.stack;
  }

  lemma EndIsolateOk(s: XState, base: nat)
    requires Ok(s, base)
    ensures Ok(EndIsolate(s), base)
  {
    if s.overflowIsolates == 0 && s.validIsolates > 0 {
      hide DropEmbeddings;
      DropKeeps(s.stack);
      var kept := DropEmbeddings(s.stack);
      assert kept[..|kept| - 1] == s.stack[..|kept| - 1];
      OkPrefix(s, base, |kept| - 1, EndIsolate(s));
    }
  }

  lemma StepOk(s: XState, base: nat, t: BidiType, fsiRtl: bool)
    requires Ok(s, base)
    ensures Ok(Step(s, t, fsiRtl), base)
  {
    hide NextLevel;
    hide EndIsolate;
    var r := Step(s, t, fsiRtl);
    if t.PDI? {
      EndIsolateOk(s, base);
    } else if |r.stack| > |s.stack| {
      OkPush(s, base, r.stack[|s.stack|], r);
    } else if |r.stack| < |s.stack| {
      OkPrefix(s, base, |s.stack| - 1, r);
    }
  }

  /** Every state on the way through a paragraph is well-formed: levels
      strictly increase from the base level and never exceed 125. */
  lemma {:induction false} BeforeOk(types: seq<BidiType>, base: nat, i: nat)
    requires i <= |types| && base <= 1
    ensures Ok(Before(types, base, i), base)
    decreases i
  {
    if i == 0 {
      assert Initial(base).stack[..0] == [];
    } else {
      BeforeOk(types, base, i - 1);
      StepOk(Before(types, base, i - 1), base, types[i - 1], FsiLevel(types, i - 1) == 1);
    }
  }
}
