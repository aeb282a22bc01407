/** The X1 to X9 loop of fribidi_get_par_embedding_levels_ex over the run list:
    levels and types are set in place and removed codes move to a list of their
    own.  Every character gets what the standard's rules give it. */
module ExplicitPhase {
  import opened BidiTypes
  import opened Runs
  import opened ExplicitRules
  import opened ExplicitState
  import opened ExplicitLevels

  /** No more than 124 valid isolates are ever open at once. */
  ghost predicate Shallow(types: seq<BidiType>, base: nat) {
    forall i | 0 <= i <= |types| :: Before(types, base, i).validIsolates <= MAX_ISOLATE_LEVEL
  }

  /** Run `m` is run `r` with the level, type and isolate level that every one
      of its characters has by the standard. */
  ghost predicate Placed(r: Run, m: Run, types: seq<BidiType>, base: nat) {
    && m == r.(level := m.level, kind := m.kind, isolateLevel := m.isolateLevel)
    && m.isolateLevel <= MAX_ISOLATE_LEVEL && r.pos + r.len <= |types|
    && (forall p | r.pos <= p < r.pos + r.len ::
          var x := Result(types, base, p);
          x.Kept? && m.level == x.level && m.kind == x.kind && (Shallow(types, base) ==> m.isolateLevel == x.isolates))
  }

  /** Run `m` is a removed code. */
  ghost predicate Shelved(r: Run, m: Run) {
    m == r.(level := -1, isolateLevel := m.isolateLevel)
  }

  /** The runs that X9 keeps, and those it removes. */
  ghost function Survivors(runs: seq<Run>): seq<Run> {
    if runs == [] then []
    else var n := |runs| - 1; Survivors(runs[..n]) + if runs[n].kind.IsExplicitOrBn() then [] else [runs[n]]
  }

  ghost function Codes(runs: seq<Run>): seq<Run> {
    if runs == [] then []
    else var n := |runs| - 1; Codes(runs[..n]) + if runs[n].kind.IsExplicitOrBn() then [runs[n]] else []
  }

  ghost predicate AllPlaced(runs: seq<Run>, done: seq<Run>, types: seq<BidiType>, base: nat) {
    |done| == |runs| && forall k | 0 <= k < |runs| :: Placed(runs[k], done[k], types, base)
  }

  ghost predicate AllShelved(runs: seq<Run>, codes: seq<Run>) {
    |codes| == |runs| && forall k | 0 <= k < |runs| :: Shelved(runs[k], codes[k])
  }

  // ----- One run -----

  /** Characters without effect on the stack share the state before the run. */
  lemma {:induction false} QuietRun(types: seq<BidiType>, base: nat, p: nat, n: nat, t: BidiType)
    requires p + n <= |types| && !t.IsExplicit() && !t.IsIsolate() && forall q | p <= q < p + n :: types[q] == t
    ensures Before(types, base, p + n) == Before(types, base, p)
  {
    hide FsiLevel;
    hide Embed;
    hide Isolate;
    hide EndIsolate;
    hide EndEmbedding;
    if n > 0 {
      QuietRun(types, base, p, n - 1, t);
    }
  }

  lemma QuietResults(types: seq<BidiType>, base: nat, r: Run)
    requires r.pos + r.len <= |types| && !r.kind.IsExplicitOrBn() && !r.kind.IsIsolate()
    requires forall q | r.pos <= q < r.pos + r.len :: types[q] == r.kind
    ensures Before(types, base, r.pos + r.len) == Before(types, base, r.pos)
    ensures forall q | r.pos <= q < r.pos + r.len ::
              var s := Before(types, base, r.pos);
              Result(types, base, q) == if r.kind.BS? then Kept(0, BS, s.validIsolates)
                                        else Kept(Top(s).level, Overridden(Top(s), r.kind), s.validIsolates)
  {
    hide Before;
    QuietRun(types, base, r.pos, r.len, r.kind);
    forall q | r.pos <= q < r.pos + r.len
      ensures var s := Before(types, base, r.pos);
              Result(types, base, q) == if r.kind.BS? then Kept(0, BS, s.validIsolates)
                                        else Kept(Top(s).level, Overridden(Top(s), r.kind), s.validIsolates) {
      QuietRun(types, base, r.pos, q - r.pos, r.kind);
    }
  }

  /** The machine has read the characters before `p`. */
  ghost predicate ReadTo(m: Machine, types: seq<BidiType>, base: nat, p: nat)
    reads m, m.stack
  {
    && m.Valid() && m.base == base && p <= |types|
    && m.Regs().Abs() == Before(types, base, p)
    && (Shallow(types, base) ==> m.deepest <= MAX_ISOLATE_LEVEL)
  }

  lemma TopOfRegisters(m: Registers, base: nat, deepest: nat)
    requires m.Valid(base, deepest)
    ensures Top(m.Abs()).level == m.level && Top(m.Abs()).override == m.override
    ensures m.Abs().validIsolates == m.validIsolates && m.Abs().overflowIsolates == m.isolateOverflow
    ensures m.isolateLevel <= MAX_ISOLATE_LEVEL && (deepest <= MAX_ISOLATE_LEVEL ==> m.isolateLevel == m.validIsolates)
  {
  }

  /** The branch for codes that X9 removes. */
  method RemoveRun(machine: Machine, r: Run, types: seq<BidiType>, ghost base: nat) returns (m: Run)
    requires ReadTo(machine, types, base, r.pos) && r.kind.IsExplicitOrBn()
    requires r.pos + r.len <= |types| && forall q | r.pos <= q < r.pos + r.len :: types[q] == r.kind
    modifies machine, machine.stack
    ensures ReadTo(machine, types, base, r.pos + r.len) && Shelved(r, m)
  {
    hide Registers.Abs;
    hide Registers.Valid;
    hide Shallow;
    hide Before;
    m := r.(level := -1, isolateLevel := machine.isolateLevel);
    BeforeRun(types, base, r.pos, r.len, r.kind);
    if r.kind.IsStrong() {
      machine.EmbedRun(r.kind, r.len);
    } else if r.kind.PDF? {
      machine.EndEmbeddingRun(r.len);
    } else {
      RepeatStuck(Before(types, base, r.pos), BN, r.len);
    }
  }

  lemma BeforeNext(types: seq<BidiType>, base: nat, p: nat)
    requires p < |types|
    ensures Before(types, base, p + 1) == Step(Before(types, base, p), types[p], FsiLevel(types, p) == 1)
  {
  }

  /** The branch for PDI; such a run has a single character. */
  method PdiRun(machine: Machine, r: Run, types: seq<BidiType>, ghost base: nat) returns (m: Run)
    requires ReadTo(machine, types, base, r.pos) && r.kind.PDI? && r.len == 1 && r.pos < |types| && types[r.pos] == PDI
    modifies machine, machine.stack
    ensures ReadTo(machine, types, base, r.pos + 1) && Placed(r, m, types, base)
  {
    hide Registers.Abs;
    hide Registers.Valid;
    hide Shallow;
    hide Before;
    m := r.(isolateLevel := machine.isolateLevel);
    TopOfRegisters(machine.Regs(), base, machine.deepest);
    BeforeNext(types, base, r.pos);
    OnlyFsiCares(Before(types, base, r.pos), PDI, FsiLevel(types, r.pos) == 1);
    var matched := machine.EndIsolate();
    TopOfRegisters(machine.Regs(), base, machine.deepest);
    m := m.(level := machine.level);
    if !matched {
      m := m.(kind := ON);
    } else {
      m := m.(isolateLevel := machine.isolateLevel);
    }
  }

  lemma DirectionOnlyForFsi(s: XState, t: BidiType, a: bool, b: bool)
    requires s.stack != [] && (t.FSI? ==> a == b)
    ensures Step(s, t, a) == Step(s, t, b)
  {
  }

  /** The branch for LRI, RLI and FSI. */
  method InitiatorRun(machine: Machine, r: Run, types: seq<BidiType>, ghost base: nat) returns (m: Run)
    requires ReadTo(machine, types, base, r.pos) && r.kind.IsInitiator() && r.len == 1 && r.pos < |types|
             && types[r.pos] == r.kind
    requires r.kind.FSI? ==> r.fsiBaseLevel == FsiLevel(types, r.pos)
    modifies machine, machine.stack
    ensures ReadTo(machine, types, base, r.pos + 1) && Placed(r, m, types, base)
  {
    hide Registers.Abs;
    hide Registers.Valid;
    hide Before;
    TopOfRegisters(machine.Regs(), base, machine.deepest);
    BeforeNext(types, base, r.pos);
    m := r.(level := machine.level, isolateLevel := machine.isolateLevel);
    if machine.override != ON {
      m := m.(kind := machine.override);
    }
    DirectionOnlyForFsi(Before(types, base, r.pos), r.kind, FsiLevel(types, r.pos) == 1, r.fsiBaseLevel == 1);
    machine.Initiate(r.kind, r.fsiBaseLevel == 1);
    TopOfRegisters(machine.Regs(), base, machine.deepest);
    assert Before(types, base, r.pos + 1).validIsolates == machine.validIsolateCount;
  }

  /** The last branch: X6. */
  method PlainRun(machine: Machine, r: Run, types: seq<BidiType>, ghost base: nat) returns (m: Run)
    requires ReadTo(machine, types, base, r.pos) && !r.kind.IsExplicitOrBn() && !r.kind.IsIsolate()
    requires r.pos + r.len <= |types| && forall q | r.pos <= q < r.pos + r.len :: types[q] == r.kind
    requires r.level == 0
    ensures ReadTo(machine, types, base, r.pos + r.len) && Placed(r, m, types, base)
  {
    hide Registers.Abs;
    hide Registers.Valid;
    hide Shallow;
    hide Before;
    TopOfRegisters(machine.Regs(), base, machine.deepest);
    QuietResults(types, base, r);
    m := r.(isolateLevel := machine.isolateLevel);
    if !r.kind.BS? {
      m := m.(level := machine.level);
      if machine.override != ON {
        m := m.(kind := machine.override);
      }
    }
  }

  // ----- The loop -----

  lemma SurvivorsNext(runs: seq<Run>, n: nat)
    requires n < |runs|
    ensures Survivors(runs[..n + 1]) == Survivors(runs[..n]) + if runs[n].kind.IsExplicitOrBn() then [] else [runs[n]]
    ensures Codes(runs[..n + 1]) == Codes(runs[..n]) + if runs[n].kind.IsExplicitOrBn() then [runs[n]] else []
  {
    assert runs[..n + 1][..n] == runs[..n];
  }

  /** After `n` of the original runs: what stands before and after the cursor. */
  ghost predicate Progress(runs: seq<Run>, n: nat, list: seq<Run>, k: nat, codes: seq<Run>, types: seq<BidiType>,
                           base: nat) {
    && n <= |runs| && k <= |list| && list[k..] == runs[n..]
    && AllPlaced(Survivors(runs[..n]), list[..k], types, base)
    && AllShelved(Codes(runs[..n]), codes)
  }

  lemma ProgressKeep(runs: seq<Run>, n: nat, list: seq<Run>, k: nat, codes: seq<Run>, types: seq<BidiType>, base: nat,
                     m: Run)
    requires Progress(runs, n, list, k, codes, types, base) && n < |runs|
    requires !runs[n].kind.IsExplicitOrBn() && Placed(runs[n], m, types, base)
    ensures k < |list| && Progress(runs, n + 1, list[k := m], k + 1, codes, types, base)
  {
    hide Placed;
    hide Survivors;
    hide Codes;
    SurvivorsNext(runs, n);
    assert list[k..][1..] == list[k + 1..] && runs[n..][1..] == runs[n + 1..];
    assert list[k := m][..k + 1] == list[..k] + [m] && list[k := m][k + 1..] == list[k + 1..];
  }

  lemma ProgressRemove(runs: seq<Run>, n: nat, list: seq<Run>, k: nat, codes: seq<Run>, types: seq<BidiType>, base: nat,
                       m: Run)
    requires Progress(runs, n, list, k, codes, types, base) && n < |runs|
    requires runs[n].kind.IsExplicitOrBn() && Shelved(runs[n], m)
    ensures k < |list| && Progress(runs, n + 1, list[..k] + list[k + 1..], k, codes + [m], types, base)
  {
    hide Placed;
    hide Shelved;
    hide Survivors;
    hide Codes;
    SurvivorsNext(runs, n);
    assert list[k..][1..] == list[k + 1..] && runs[n..][1..] == runs[n + 1..];
    var rest := list[..k] + list[k + 1..];
    assert rest[..k] == list[..k] && rest[k..] == list[k + 1..];
  }

  ghost predicate RunReady(r: Run, types: seq<BidiType>) {
    && r.len > 0 && r.level == 0 && r.pos + r.len <= |types|
    && (forall p | r.pos <= p < r.pos + r.len :: types[p] == r.kind)
    && (r.kind.IsIsolate() ==> r.len == 1)
    && (r.kind.FSI? ==> r.fsiBaseLevel == FsiLevel(types, r.pos))
  }

  /** What the loop is given: runs as encoded, FSI directions resolved. */
  ghost predicate Ready(runs: seq<Run>, types: seq<BidiType>) {
    && Tiled(runs, |types|) && FsiResolved(runs, types) && OneParagraph(types)
    && (forall k | 0 <= k < |runs| :: RunReady(runs[k], types))
  }

  /** One turn of the loop at run `r`; `keep` tells whether the run stays. */
  method ResolveRun(machine: Machine, r: Run, types: seq<BidiType>, ghost base: nat) returns (m: Run, keep: bool)
    requires ReadTo(machine, types, base, r.pos) && RunReady(r, types)
    modifies machine, machine.stack
    ensures ReadTo(machine, types, base, r.pos + r.len)
    ensures keep == !r.kind.IsExplicitOrBn() && if keep then Placed(r, m, types, base) else Shelved(r, m)
  {
    hide ReadTo;
    hide Placed;
    hide Shelved;
    keep := true;
    if r.kind.IsExplicitOrBn() {
      m := RemoveRun(machine, r, types, base);
      keep := false;
    } else if r.kind.PDI? {
      m := PdiRun(machine, r, types, base);
    } else if r.kind.IsIsolate() {
      m := InitiatorRun(machine, r, types, base);
    } else {
      m := PlainRun(machine, r, types, base);
    }
  }

  lemma AtCursor(runs: seq<Run>, n: nat, list: seq<Run>, k: nat, codes: seq<Run>, types: seq<BidiType>, base: nat)
    requires Progress(runs, n, list, k, codes, types, base)
    ensures n <= |runs| && k <= |list| && (n < |runs| <==> k < |list|)
    ensures n < |runs| ==> list[k] == runs[n]
  {
    assert list[k..] == runs[n..];
    if n < |runs| {
      assert list[k..][0] == runs[n..][0];
    }
  }

  /** One turn of the loop: run `k` stays, or moves to the list of codes. */
  method Advance(machine: Machine, list0: seq<Run>, codes0: seq<Run>, k0: nat, types: seq<BidiType>,
                 ghost runs: seq<Run>, ghost n: nat, ghost base: nat)
    returns (list: seq<Run>, codes: seq<Run>, k: nat, keep: bool)
    requires Progress(runs, n, list0, k0, codes0, types, base) && n < |runs| && k0 < |list0| && RunReady(runs[n], types)
    requires ReadTo(machine, types, base, runs[n].pos)
    modifies machine, machine.stack
    ensures Progress(runs, n + 1, list, k, codes, types, base)
    ensures ReadTo(machine, types, base, runs[n].pos + runs[n].len)
    ensures keep == !runs[n].kind.IsExplicitOrBn()
  {
    hide ReadTo;
    hide RunReady;
    hide Placed;
    hide Shelved;
    hide Progress;
    list, codes, k := list0, codes0, k0;
    AtCursor(runs, n, list, k, codes, types, base);
    var m;
    m, keep := ResolveRun(machine, list[k], types, base);
    if keep {
      ProgressKeep(runs, n, list, k, codes, types, base, m);
      list := list[k := m];
      k := k + 1;
    } else {
      ProgressRemove(runs, n, list, k, codes, types, base, m);
      list := list[..k] + list[k + 1..];
      codes := codes + [m];
    }
  }

  lemma AllRead(runs: seq<Run>, list: seq<Run>, k: nat, codes: seq<Run>, types: seq<BidiType>, base: nat)
    requires Progress(runs, |runs|, list, k, codes, types, base)
    ensures AllPlaced(Survivors(runs), list, types, base) && AllShelved(Codes(runs), codes)
  {
    AtCursor(runs, |runs|, list, k, codes, types, base);
    assert list[..k] == list && runs[..|runs|] == runs;
  }

  lemma StartReading(machine: Machine, types: seq<BidiType>, base: nat, runs: seq<Run>)
    requires machine.Valid() && machine.base == base && machine.deepest == 0 && machine.Regs().Abs() == Initial(base)
    requires Tiled(runs, |types|)
    ensures ReadTo(machine, types, base, if 0 < |runs| then runs[0].pos else |types|)
    ensures Progress(runs, 0, runs, 0, [], types, base)
  {
    assert runs[..0] == [] && runs[0..] == runs;
  }

  lemma NextStart(runs: seq<Run>, types: seq<BidiType>, n: nat)
    requires Tiled(runs, |types|) && n < |runs|
    ensures runs[n].pos + runs[n].len == if n + 1 < |runs| then runs[n + 1].pos else |types|
  {
  }

  lemma SeparatorIsLast(runs: seq<Run>, types: seq<BidiType>, n: nat)
    requires Ready(runs, types) && n < |runs| && runs[n].kind.BS?
    ensures n + 1 == |runs|
  {
    NextStart(runs, types, n);
    forall j | 0 <= j < |runs| ensures runs[j].pos < |types| {
      assert RunReady(runs[j], types);
    }
    assert RunReady(runs[n], types);
    assert types[runs[n].pos].BS?;
    assert runs[n].pos == |types| - 1;
  }

  /** The explicit-level phase.  The loop leaves at a paragraph separator, which
      in one paragraph is the last run. */
  method ResolveExplicit(runs: seq<Run>, types: seq<BidiType>, base: nat) returns (list: seq<Run>, codes: seq<Run>)
    requires base <= 1 && Ready(runs, types)
    ensures AllPlaced(Survivors(runs), list, types, base) && AllShelved(Codes(runs), codes)
  {
    hide ReadTo;
    hide RunReady;
    hide Progress;
    hide AllPlaced;
    hide AllShelved;
    hide OneParagraph;
    list, codes := runs, [];
    var machine := new Machine(base);
    StartReading(machine, types, base, runs);
    var k: nat := 0;
    ghost var n: nat := 0;
    while k < |list|
      invariant n <= |runs| && Progress(runs, n, list, k, codes, types, base)
      invariant ReadTo(machine, types, base, if n < |runs| then runs[n].pos else |types|)
      invariant fresh(machine) && fresh(machine.stack)
      decreases |runs| - n
    {
      AtCursor(runs, n, list, k, codes, types, base);
      NextStart(runs, types, n);
      var separator, keep := list[k].kind.BS?, false;
      list, codes, k, keep := Advance(machine, list, codes, k, types, runs, n, base);
      n := n + 1;
      if keep && separator {
        SeparatorIsLast(runs, types, n - 1);
        break;
      }
    }
    AtCursor(runs, n, list, k, codes, types, base);
    AllRead(runs, list, k, codes, types, base);
  }
}
