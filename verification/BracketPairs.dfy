/** BD16 of UAX #9: bracket pairs, once as the standard finds them in each
    isolating run sequence, once as the library finds them in one sweep over
    the run list. */
module BracketPairs {
  import opened BidiTypes
  import opened Runs
  import opened Chains
  import opened NextRunCache
  import opened IsolateLinks
  import opened Nesting

  // ----- Isolating run sequences -----

  /** The isolating run sequence of run `k`, up to and including it. */
  ghost function SequenceTo(runs: seq<Run>, k: nat): (s: seq<nat>)
    requires k < |runs|
    ensures s != [] && s[|s| - 1] == k
    ensures forall i | 0 <= i < |s| :: s[i] < |runs|
  {
    if Continues(runs, k) then SequenceTo(runs, Prev(runs, k)) + [k] else [k]
  }

  // ----- BD16 as the standard words it -----

  /** The stack of opening brackets, whether the search has stopped for the
      rest of the sequence, and the pair completed by the last run, if any. */
  datatype Search = Search(stack: seq<nat>, stopped: bool, found: int)

  predicate IsBracket(r: Run) { r.bracket != NoBracket && r.kind.ON? }

  /** The topmost stack element that a closing bracket matches, or -1. */
  ghost function Match(runs: seq<Run>, stack: seq<nat>, id: nat): (m: int)
    ensures -1 <= m < |stack|
    ensures m >= 0 && stack[m] < |runs| ==> runs[stack[m]].bracket != NoBracket && runs[stack[m]].bracket.id == id
  {
    if stack == [] then -1
    else
      var n := |stack| - 1;
      if stack[n] < |runs| && runs[stack[n]].bracket != NoBracket && runs[stack[n]].bracket.id == id then n
      else Match(runs, stack[..n], id)
  }

  ghost function Bd16Step(runs: seq<Run>, st: Search, k: nat): Search
    requires k < |runs|
  {
    if st.stopped || !IsBracket(runs[k]) then st.(found := -1)
    else if runs[k].bracket.open then
      if |st.stack| == MAX_NESTED_BRACKET_PAIRS then Search(st.stack, true, -1)
      else Search(st.stack + [k], false, -1)
    else
      var m := Match(runs, st.stack, runs[k].bracket.id);
      if m < 0 then st.(found := -1) else Search(st.stack[..m], false, st.stack[m])
  }

  /** BD16 over one isolating run sequence. */
  ghost function Bd16(runs: seq<Run>, s: seq<nat>): Search
    requires forall i | 0 <= i < |s| :: s[i] < |runs|
  {
    if s == [] then Search([], false, -1)
    else Bd16Step(runs, Bd16(runs, s[..|s| - 1]), s[|s| - 1])
  }

  /** The state of BD16 just after run `k` in its own sequence. */
  ghost function SearchAt(runs: seq<Run>, k: nat): Search
    requires k < |runs|
  {
    Bd16(runs, SequenceTo(runs, k))
  }

  lemma SearchNext(runs: seq<Run>, k: nat)
    requires k < |runs|
    ensures SearchAt(runs, k) == Bd16Step(runs, if Continues(runs, k) then SearchAt(runs, Prev(runs, k))
            else Search([], false, -1), k)
  {
    hide PrevFrom;
    hide Bd16Step;
    var s := SequenceTo(runs, k);
    assert Bd16(runs, s) == Bd16Step(runs, Bd16(runs, s[..|s| - 1]), k);
    if Continues(runs, k) {
      assert s[..|s| - 1] == SequenceTo(runs, Prev(runs, k));
    } else {
      assert s == [k];
      assert s[..|s| - 1] == [];
    }
  }

  /** The brackets `o` and `c` are a pair. */
  ghost predicate Paired(runs: seq<Run>, o: nat, c: nat) {
    c < |runs| && SearchAt(runs, c).found == o
  }

  // ----- The library's sweep -----

  /** One pair stack; a negative size marks the sequence as stopped. */
  datatype PairStack = PairStack(slots: seq<nat>, size: int)

  ghost predicate StackOk(t: PairStack) {
    |t.slots| == MAX_NESTED_BRACKET_PAIRS && -1 <= t.size <= MAX_NESTED_BRACKET_PAIRS
  }

  /** The stack stands for a state of BD16. */
  ghost predicate Represents(t: PairStack, st: Search) {
    && StackOk(t) && (t.size < 0 <==> st.stopped)
    && (t.size >= 0 ==> t.slots[..t.size] == st.stack)
  }

  /** The search for a matching opening bracket, from the top of the stack. */
  method FindOpen(runs: seq<Run>, t: PairStack, id: nat) returns (idx: int)
    requires StackOk(t) && forall i | 0 <= i < t.size :: t.slots[i] < |runs| && runs[t.slots[i]].bracket != NoBracket
    ensures t.size >= 0 ==> idx == Match(runs, t.slots[..t.size], id)
    ensures t.size < 0 ==> idx < 0
  {
    idx := t.size - 1;
    while idx >= 0
      invariant -2 <= idx < t.size || idx == t.size - 1
      invariant t.size >= 0 ==> -1 <= idx && Match(runs, t.slots[..t.size], id) == Match(runs, t.slots[..idx + 1], id)
    {
      assert t.slots[..idx + 1][..idx] == t.slots[..idx];
      if runs[t.slots[idx]].bracket.id == id {
        return;
      }
      idx := idx - 1;
    }
  }

  /** One turn of the sweep for the pair stack of its isolate level. */
  method PairStep(runs: seq<Run>, k: nat, prev: int, t0: PairStack, ghost before: Search)
    returns (t: PairStack, open: int)
    requires k < |runs| && StackOk(t0) && prev == Prev(runs, k)
    requires Continues(runs, k) ==> before == SearchAt(runs, Prev(runs, k)) && Represents(t0, before)
    requires Continues(runs, k) ==> forall i | 0 <= i < |before.stack| ::
               before.stack[i] < |runs| && runs[before.stack[i]].bracket != NoBracket
    ensures Represents(t, SearchAt(runs, k)) && open == SearchAt(runs, k).found
  {
    hide SearchAt;
    hide Match;
    hide Prev;
    SearchNext(runs, k);
    t, open := t0, -1;
    if prev < 0 || runs[prev].level != runs[k].level {
      t := t.(size := 0);
    }
    ghost var st := if Continues(runs, k) then before else Search([], false, -1);
    assert Represents(t, st);
    if runs[k].bracket != NoBracket && runs[k].kind.ON? {
      if runs[k].bracket.open {
        if t.size == MAX_NESTED_BRACKET_PAIRS {
          t := t.(size := -1);
        } else if t.size >= 0 {
          ghost var was := t;
          t := PairStack(t.slots[t.size := k], t.size + 1);
          assert t.slots[..t.size] == was.slots[..was.size] + [k];
        }
      } else {
        var idx := FindOpen(runs, t, runs[k].bracket.id);
        if idx >= 0 {
          open := t.slots[idx];
          assert t.slots[..t.size][..idx] == t.slots[..idx];
          t := t.(size := idx);
        }
      }
    }
  }

  // ----- What the search keeps -----

  /** The stack holds opening brackets, in order of position, before `k`. */
  ghost predicate OpenBrackets(runs: seq<Run>, stack: seq<nat>, k: nat) {
    && k <= |runs|
    && (forall i | 0 <= i < |stack| :: stack[i] < k && IsBracket(runs[stack[i]]) && runs[stack[i]].bracket.open)
    && (forall i, j | 0 <= i < j < |stack| :: stack[i] < stack[j])
  }

  lemma {:induction false} SearchStack(runs: seq<Run>, k: nat)
    requires k < |runs|
    ensures OpenBrackets(runs, SearchAt(runs, k).stack, k + 1)
    ensures |SearchAt(runs, k).stack| <= MAX_NESTED_BRACKET_PAIRS
    ensures SearchAt(runs, k).found >= 0 ==>
              var o := SearchAt(runs, k).found;
              && o < k && Continues(runs, k) && IsBracket(runs[o]) && runs[o].bracket.open && IsBracket(runs[k])
                 && !runs[k].bracket.open
              && runs[o].bracket.id == runs[k].bracket.id
              && o in SearchAt(runs, Prev(runs, k)).stack
    decreases k
  {
    hide SearchAt;
    hide Match;
    hide PrevFrom;
    SearchNext(runs, k);
    if Continues(runs, k) {
      SearchStack(runs, Prev(runs, k));
    }
  }

  // ----- What a pair encloses -----

  /** EN and AN count as R; -1 for a run that is not strong. */
  function StrongDir(r: Run): int {
    if r.kind.IsNumber() || r.kind.RTL? then 1 else if r.kind.IsStrong() then DirToLevel(r.kind) else -1
  }

  /** The level a strong run would resolve to. */
  function ResolvedLevel(r: Run): int {
    if StrongDir(r) == (if LevelIsRtl(r.level) then 1 else 0) then r.level else r.level + 1
  }

  /** The position of the last strong run before `k` that resolves to level `x`. */
  ghost function LastResolved(runs: seq<Run>, k: nat, x: int): int
    requires k <= |runs|
  {
    if k == 0 then -1
    else if StrongDir(runs[k - 1]) >= 0 && ResolvedLevel(runs[k - 1]) == x then runs[k - 1].pos
    else LastResolved(runs, k - 1, x)
  }

  /** The position of the last strong run before `k` on isolate level `l`. */
  ghost function LastOnLevel(runs: seq<Run>, k: nat, l: nat): int
    requires k <= |runs|
  {
    if k == 0 then -1
    else if StrongDir(runs[k - 1]) >= 0 && runs[k - 1].isolateLevel == l then runs[k - 1].pos
    else LastOnLevel(runs, k - 1, l)
  }

  /** FriBidiPairingNode. */
  datatype Pairing = Pairing(open: nat, close: nat, embeddingStrong: bool, isolateStrong: bool)

  ghost function PairingAt(runs: seq<Run>, o: nat, c: nat): Pairing
    requires o < c < |runs|
  {
    Pairing(o, c, LastResolved(runs, c, runs[o].level) > runs[o].pos,
      LastOnLevel(runs, c, runs[o].isolateLevel) > runs[o].pos)
  }

  ghost function PairEndingAt(runs: seq<Run>, c: nat): seq<Pairing>
    requires c < |runs|
  {
    SearchStack(runs, c);
    var o := SearchAt(runs, c).found;
    if o >= 0 then [PairingAt(runs, o, c)] else []
  }

  /** The pairs completed before run `k`, by closing bracket. */
  ghost function PairsBefore(runs: seq<Run>, k: nat): (ps: seq<Pairing>)
    requires k <= |runs|
  {
    if k == 0 then [] else PairsBefore(runs, k - 1) + PairEndingAt(runs, k - 1)
  }

  // ----- The sweep -----

  const LEVEL_SLOTS := 127

  ghost predicate TableOk(runs: seq<Run>, k: nat, t: PairStack, l: nat)
    requires k <= |runs|
  {
    StackOk(t) && var v := Latest(runs, k, l); v >= 0 ==> Represents(t, SearchAt(runs, v))
  }

  ghost predicate Tables(runs: seq<Run>, k: nat, tables: seq<PairStack>) {
    k <= |runs| && |tables| == ISOLATE_SLOTS && forall l | 0 <= l < ISOLATE_SLOTS :: TableOk(runs, k, tables[l], l)
  }

  ghost predicate Flags(runs: seq<Run>, k: nat, byLevel: seq<int>, byIsolate: seq<int>) {
    && k <= |runs| && |byLevel| == LEVEL_SLOTS && |byIsolate| == ISOLATE_SLOTS
    && (forall x | 0 <= x < LEVEL_SLOTS :: byLevel[x] == LastResolved(runs, k, x))
    && (forall l | 0 <= l < ISOLATE_SLOTS :: byIsolate[l] == LastOnLevel(runs, k, l))
  }

  lemma RepresentsOk(t: PairStack, st: Search)
    requires Represents(t, st)
    ensures StackOk(t)
  {
  }

  lemma TablesStep(runs: seq<Run>, k: nat, tables: seq<PairStack>, t: PairStack)
    requires Tables(runs, k, tables) && k < |runs| && runs[k].isolateLevel < ISOLATE_SLOTS
             && Represents(t, SearchAt(runs, k))
    ensures Tables(runs, k + 1, tables[runs[k].isolateLevel := t])
  {
    hide SearchAt;
    hide Represents;
    var tables' := tables[runs[k].isolateLevel := t];
    RepresentsOk(t, SearchAt(runs, k));
    forall l | 0 <= l < ISOLATE_SLOTS ensures TableOk(runs, k + 1, tables'[l], l) {
      assert TableOk(runs, k, tables[l], l);
      if l == runs[k].isolateLevel {
        LatestIs(runs, k + 1, l, k);
      } else {
        LatestNext(runs, k, l);
      }
    }
  }

  /** The table of a run that carries on a sequence stands for that sequence. */
  lemma TableOfSequence(runs: seq<Run>, k: nat, tables: seq<PairStack>)
    requires Tables(runs, k, tables) && k < |runs| && runs[k].isolateLevel < ISOLATE_SLOTS
    ensures StackOk(tables[runs[k].isolateLevel])
    ensures Continues(runs, k) ==> Represents(tables[runs[k].isolateLevel], SearchAt(runs, Prev(runs, k)))
  {
    hide SearchAt;
    hide Represents;
    assert TableOk(runs, k, tables[runs[k].isolateLevel], runs[k].isolateLevel);
    if Continues(runs, k) {
      LatestIs(runs, k, runs[k].isolateLevel, Prev(runs, k));
    }
  }

  lemma FlagsStep(runs: seq<Run>, k: nat, byLevel: seq<int>, byIsolate: seq<int>)
    requires Flags(runs, k, byLevel, byIsolate) && k < |runs| && LevelsFit(runs)
    ensures StrongDir(runs[k]) >= 0 ==>
              Flags(runs, k + 1, byLevel[ResolvedLevel(runs[k]) := runs[k].pos],
                byIsolate[runs[k].isolateLevel := runs[k].pos])
    ensures StrongDir(runs[k]) < 0 ==> Flags(runs, k + 1, byLevel, byIsolate)
  {
  }

  lemma SweepStart(runs: seq<Run>, tables: seq<PairStack>, byLevel: seq<int>, byIsolate: seq<int>)
    requires |tables| == ISOLATE_SLOTS && (forall l | 0 <= l < ISOLATE_SLOTS :: StackOk(tables[l]))
    requires |byLevel| == LEVEL_SLOTS && |byIsolate| == ISOLATE_SLOTS
    requires (forall x | 0 <= x < LEVEL_SLOTS :: byLevel[x] == -1)
             && (forall l | 0 <= l < ISOLATE_SLOTS :: byIsolate[l] == -1)
    ensures Tables(runs, 0, tables) && Flags(runs, 0, byLevel, byIsolate)
  {
  }

  lemma PairsNext(runs: seq<Run>, k: nat)
    requires k < |runs|
    ensures SearchAt(runs, k).found < k && (SearchAt(runs, k).found >= 0 ==> StrongDir(runs[k]) < 0)
    ensures PairsBefore(runs, k + 1) ==
              PairsBefore(runs, k) + var o := SearchAt(runs, k).found; if o >= 0 then [PairingAt(runs, o, k)] else []
    ensures Continues(runs, k) ==> OpenBrackets(runs, SearchAt(runs, Prev(runs, k)).stack, k)
  {
    hide PrevFrom;
    hide SearchAt;
    SearchStack(runs, k);
    SearchNext(runs, k);
    if Continues(runs, k) {
      SearchStack(runs, Prev(runs, k));
    }
  }

  lemma FlagsRead(runs: seq<Run>, k: nat, byLevel: seq<int>, byIsolate: seq<int>, o: nat)
    requires Flags(runs, k + 1, byLevel, byIsolate) && k < |runs| && o < k && LevelsFit(runs) && StrongDir(runs[k]) < 0
    ensures runs[o].level < LEVEL_SLOTS && runs[o].level >= 0 && runs[o].isolateLevel < ISOLATE_SLOTS
    ensures byLevel[runs[o].level] == LastResolved(runs, k, runs[o].level)
    ensures byIsolate[runs[o].isolateLevel] == LastOnLevel(runs, k, runs[o].isolateLevel)
  {
  }

  lemma NoPairs(runs: seq<Run>)
    ensures PairsBefore(runs, 0) == []
  {
  }

  lemma LevelAndIsolate(runs: seq<Run>, k: nat)
    requires LevelsFit(runs) && k < |runs|
    ensures runs[k].isolateLevel < ISOLATE_SLOTS && 0 <= ResolvedLevel(runs[k]) < LEVEL_SLOTS
  {
  }

  /** The sweep that builds the list of pairs with what each encloses. */
  method CollectPairs(runs: seq<Run>, links: Links) returns (pairs: seq<Pairing>)
    requires LevelsFit(runs) && Agree(runs, links)
    ensures pairs == PairsBefore(runs, |runs|)
  {
    hide SearchAt;
    hide LevelsFit;
    hide Tables;
    hide Flags;
    hide PairsBefore;
    hide Represents;
    hide Prev;
    var tables := new PairStack[ISOLATE_SLOTS](i => PairStack(seq(MAX_NESTED_BRACKET_PAIRS, j => 0), 0));
    var byLevel := new int[LEVEL_SLOTS](i => -1);
    var byIsolate := new int[ISOLATE_SLOTS](i => -1);
    SweepStart(runs, tables[..], byLevel[..], byIsolate[..]);
    pairs := [];
    NoPairs(runs);
    for k := 0 to |runs|
      invariant Tables(runs, k, tables[..]) && Flags(runs, k, byLevel[..], byIsolate[..])
      invariant pairs == PairsBefore(runs, k)
    {
      LevelAndIsolate(runs, k);
      var iso := runs[k].isolateLevel;
      TableOfSequence(runs, k, tables[..]);
      FlagsStep(runs, k, byLevel[..], byIsolate[..]);
      PairsNext(runs, k);
      if StrongDir(runs[k]) >= 0 {
        byLevel[ResolvedLevel(runs[k])] := runs[k].pos;
        byIsolate[iso] := runs[k].pos;
      }
      var t, open := PairStep(runs, k, links.prev[k], tables[iso],
                               if Continues(runs, k) then SearchAt(runs, Prev(runs, k)) else Search([], false, -1));
      TablesStep(runs, k, tables[..], t);
      tables[iso] := t;
      if open >= 0 {
        FlagsRead(runs, k, byLevel[..], byIsolate[..], open);
        pairs := pairs + [Pairing(open, k, byLevel[runs[open].level] > runs[open].pos,
          byIsolate[runs[open].isolateLevel] > runs[open].pos)];
      }
    }
  }
}
