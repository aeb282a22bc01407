/** The N0 phase of fribidi_get_par_embedding_levels_ex: flags instead of
    rescans, and one sweep for the preceding strong types.  It assigns what the
    rule assigns pair by pair. */
module BracketPhase {
  import opened BidiTypes
  import opened Runs
  import opened Chains
  import opened NextRunCache
  import opened IsolateLinks
  import opened Nesting
  import opened BracketPairs
  import opened BracketStructure
  import opened BracketRules

  // ----- Sorting (qsort with pairing_node_compare) -----

  ghost predicate Sorted(ps: seq<Pairing>) {
    forall i, j | 0 <= i < j < |ps| :: ps[i].open < ps[j].open
  }

  ghost predicate AllPaired(runs: seq<Run>, ps: seq<Pairing>) {
    forall i | 0 <= i < |ps| :: ps[i].open < ps[i].close < |runs| && Paired(runs, ps[i].open, ps[i].close)
                               && ps[i] == PairingAt(runs, ps[i].open, ps[i].close)
  }

  ghost predicate Distinct(ps: seq<Pairing>) {
    forall i, j | 0 <= i < j < |ps| :: ps[i].open != ps[j].open
  }

  lemma {:induction false} PairsAre(runs: seq<Run>, k: nat)
    requires k <= |runs|
    ensures AllPaired(runs, PairsBefore(runs, k)) && Distinct(PairsBefore(runs, k))
    ensures forall i | 0 <= i < |PairsBefore(runs, k)| :: PairsBefore(runs, k)[i].close < k
  {
    hide SearchAt;
    hide PrevFrom;
    if k > 0 {
      PairsAre(runs, k - 1);
      SearchStack(runs, k - 1);
      var ps, o := PairsBefore(runs, k - 1), SearchAt(runs, k - 1).found;
      if o >= 0 {
        forall i | 0 <= i < |ps| ensures ps[i].open != o {
          if ps[i].open == o {
            OpenOnce(runs, o, ps[i].close, k - 1);
          }
        }
      }
    }
  }

  function Insert(p: Pairing, ps: seq<Pairing>): seq<Pairing> {
    if ps == [] || p.open < ps[0].open then [p] + ps else [ps[0]] + Insert(p, ps[1..])
  }

  function Sort(ps: seq<Pairing>): seq<Pairing> {
    if ps == [] then [] else Insert(ps[0], Sort(ps[1..]))
  }

  lemma {:induction false} InsertMembers(p: Pairing, ps: seq<Pairing>)
    ensures multiset(Insert(p, ps)) == multiset(ps) + multiset{p}
  {
    if ps != [] && p.open >= ps[0].open {
      InsertMembers(p, ps[1..]);
      assert ps == [ps[0]] + ps[1..];
    }
  }

  lemma {:induction false} SortMembers(ps: seq<Pairing>)
    ensures multiset(Sort(ps)) == multiset(ps)
  {
    if ps != [] {
      SortMembers(ps[1..]);
      InsertMembers(ps[0], Sort(ps[1..]));
      assert ps == [ps[0]] + ps[1..];
    }
  }

  /** All opening positions of the list are beyond `x`. */
  ghost predicate Beyond(ps: seq<Pairing>, x: int) {
    forall i | 0 <= i < |ps| :: ps[i].open > x
  }

  lemma {:induction false} InsertSorts(p: Pairing, ps: seq<Pairing>, x: int)
    requires Sorted(ps) && (forall i | 0 <= i < |ps| :: ps[i].open != p.open)
    requires Beyond(ps, x) && p.open > x
    ensures Sorted(Insert(p, ps)) && Beyond(Insert(p, ps), x)
  {
    if ps != [] && p.open > ps[0].open {
      InsertSorts(p, ps[1..], ps[0].open);
    }
  }

  lemma {:induction false} SortSorts(ps: seq<Pairing>)
    requires Distinct(ps)
    ensures Sorted(Sort(ps))
  {
    if ps != [] {
      var rest := Sort(ps[1..]);
      SortSorts(ps[1..]);
      SortMembers(ps[1..]);
      forall i | 0 <= i < |rest| ensures rest[i].open != ps[0].open {
        assert rest[i] in multiset(rest);
        assert rest[i] in ps[1..];
      }
      InsertSorts(ps[0], rest, -1);
    }
  }

  lemma SameMembers(runs: seq<Run>, a: seq<Pairing>, b: seq<Pairing>)
    requires multiset(a) == multiset(b) && AllPaired(runs, a)
    ensures AllPaired(runs, b)
  {
    forall i | 0 <= i < |b| ensures b[i].open < b[i].close < |runs| && Paired(runs, b[i].open, b[i].close)
                                    && b[i] == PairingAt(runs, b[i].open, b[i].close) {
      assert b[i] in multiset(b);
      assert b[i] in a;
    }
  }

  // ----- The sweep for preceding strong types -----

  ghost predicate SweepEntry(runs: seq<Run>, s: nat, x: int, l: nat, base: nat)
    requires s <= |runs|
  {
    var v := Latest(runs, s, l);
    if v < 0 then x == -1 else x >= 0 && Parity(x) == Context(runs, v, base)
  }

  /** The entry of each isolate level has the direction in force at the last
      run passed on that level. */
  ghost predicate SweepOk(runs: seq<Run>, s: nat, table: seq<int>, base: nat) {
    && s <= |runs| && |table| == ISOLATE_SLOTS
    && forall l | 0 <= l < ISOLATE_SLOTS :: SweepEntry(runs, s, table[l], l, base)
  }

  /** The level the sweep records at run `s`. */
  function SweepLevel(runs: seq<Run>, s: nat, p: int, kept: int): int
    requires s < |runs| && p < |runs|
  {
    var x := if p < 0 then runs[s].level
             else if runs[p].level != runs[s].level then Max(runs[s].level, runs[p].level) else kept;
    if StrongDir(runs[s]) >= 0 then ResolvedLevel(runs[s]) else x
  }

  /** Where a sequence starts, the chain tells the level before it. */
  lemma StartLevel(runs: seq<Run>, base: nat, k: nat)
    requires Nested(runs, base) && k < |runs| && !Continues(runs, k) && !runs[k].kind.BS?
    ensures SosDir(runs, k, base) == Parity(if Prev(runs, k) < 0 then runs[k].level
            else Max(runs[k].level, runs[Prev(runs, k)].level))
  {
    hide PrevFrom;
    assert NestedAt(runs, k, base);
    if k > 0 && Prev(runs, k) < 0 {
      if runs[k - 1].isolateLevel >= runs[k].isolateLevel {
        NoSkip(runs, base, runs[k].isolateLevel, k - 1);
      }
      assert Inner(runs, k - 1, k);
    }
  }

  lemma SweepStep(runs: seq<Run>, base: nat, s: nat, table: seq<int>)
    requires Nested(runs, base) && LevelsFit(runs) && SweepOk(runs, s, table, base) && s < |runs| && !runs[s].kind.BS?
    ensures runs[s].isolateLevel < ISOLATE_SLOTS
    ensures SweepOk(runs, s + 1, table[runs[s].isolateLevel := SweepLevel(runs, s, Prev(runs, s),
            table[runs[s].isolateLevel])], base)
  {
    hide Nested;
    hide PrevFrom;
    var l := runs[s].isolateLevel;
    var x := SweepLevel(runs, s, Prev(runs, s), table[l]);
    assert SweepEntry(runs, s, table[l], l, base);
    if Continues(runs, s) {
      LatestIs(runs, s, l, Prev(runs, s));
    } else {
      StartLevel(runs, base, s);
    }
    assert x >= 0 && Parity(x) == Context(runs, s, base);
    var table' := table[l := x];
    forall h | 0 <= h < ISOLATE_SLOTS ensures SweepEntry(runs, s + 1, table'[h], h, base) {
      assert SweepEntry(runs, s, table[h], h, base);
      if h == l {
        LatestIs(runs, s + 1, l, s);
      } else {
        LatestNext(runs, s, h);
      }
    }
  }

  // ----- What assigning a pair leaves alone -----

  lemma {:induction false} LatestShape(a: seq<Run>, b: seq<Run>, k: nat, l: nat)
    requires SameShape(a, b) && k <= |a|
    ensures Latest(a, k, l) == Latest(b, k, l)
  {
    if k > 0 {
      LatestShape(a, b, k - 1, l);
    }
  }

  lemma {:induction false} EnclosesSame(a: seq<Run>, b: seq<Run>, o: nat, m: nat, dir: int)
    requires SameShape(a, b) && m < |a| && forall i | o < i <= m :: a[i].kind == b[i].kind
    ensures Encloses(a, o, m, dir) == Encloses(b, o, m, dir)
    decreases m
  {
    hide PrevFrom;
    ContinuesSame(a, b, m);
    if m > o && Continues(a, m) {
      EnclosesSame(a, b, o, Prev(a, m), dir);
    }
  }

  lemma {:induction false} ContextSame(a: seq<Run>, b: seq<Run>, k: nat, base: nat)
    requires SameShape(a, b) && k < |a| && forall i | 0 <= i <= k :: a[i].kind == b[i].kind
    ensures Context(a, k, base) == Context(b, k, base)
    decreases k
  {
    hide PrevFrom;
    ContinuesSame(a, b, k);
    if Continues(a, k) {
      ContextSame(a, b, Prev(a, k), base);
    }
  }

  /** The sweep table survives the assignment of a pair that opens at or after
      the cursor, or just before it with the direction it already has. */
  lemma SweepKept(a: seq<Run>, s: nat, table: seq<int>, base: nat, o: nat, c: nat, dir: int)
    requires SweepOk(a, s, table, base) && o < c < |a| && s <= o + 1 && 0 <= dir <= 1
    requires s == o + 1 ==> Context(a, o, base) == dir
    ensures SweepOk(SetPair(a, o, c, dir), s, table, base)
  {
    hide PrevFrom;
    var b := SetPair(a, o, c, dir);
    forall l | 0 <= l < ISOLATE_SLOTS ensures SweepEntry(b, s, table[l], l, base) {
      assert SweepEntry(a, s, table[l], l, base);
      LatestShape(a, b, s, l);
      var v := Latest(a, s, l);
      if 0 <= v && v != o {
        ContextSame(a, b, v, base);
      }
    }
  }

  // ----- The loop over the pairs -----

  /** Bracket pairs become letters; nothing else changes. */
  ghost predicate OnlyLetters(a: seq<Run>, b: seq<Run>) {
    SameShape(a, b) && SamePlaces(a, b) && forall i | 0 <= i < |a| :: b[i] == a[i] || b[i].kind.LTR? || b[i].kind.RTL?
  }

  /** After `n` pairs: exactly their brackets may have changed. */
  ghost predicate Assigned(runs0: seq<Run>, runs: seq<Run>, ps: seq<Pairing>, n: nat, base: nat) {
    && n <= |ps| && SameShape(runs0, runs) && AllPaired(runs0, ps) && Sorted(ps) && PairsFit(ps[..n], |runs0|)
    && runs == N0(runs0, ps[..n], base)
    && (forall m | 0 <= m < |runs0| && (forall i | 0 <= i < n :: ps[i].open != m && ps[i].close != m) ::
         runs[m] == runs0[m])
    && OnlyLetters(runs0, runs)
  }

  /** A bracket does not both close one pair and open another. */
  lemma OpenNotClose(runs: seq<Run>, o1: nat, c1: nat, o2: nat, c2: nat)
    requires Paired(runs, o1, c1) && Paired(runs, o2, c2)
    ensures c1 != o2
  {
    hide SearchAt;
    PairReaches(runs, o1, c1);
    PairReaches(runs, o2, c2);
  }

  /** Earlier pairs have not touched what this pair encloses. */
  lemma Untouched(runs0: seq<Run>, runs: seq<Run>, ps: seq<Pairing>, n: nat, base: nat, m: nat)
    requires Assigned(runs0, runs, ps, n, base) && n < |ps| && ps[n].open <= m < ps[n].close
    ensures runs[m] == runs0[m]
  {
    hide N0;
    hide Paired;
    forall i | 0 <= i < n ensures ps[i].open != m && ps[i].close != m {
      NestedOrDisjoint(runs0, ps[i].open, ps[i].close, ps[n].open, ps[n].close);
      OpenNotClose(runs0, ps[i].open, ps[i].close, ps[n].open, ps[n].close);
    }
  }

  lemma {:induction false} ContextRange(runs: seq<Run>, k: nat, base: nat)
    requires k < |runs|
    ensures 0 <= Context(runs, k, base) <= 1
    decreases k
  {
    hide PrevFrom;
    if Continues(runs, k) {
      ContextRange(runs, Prev(runs, k), base);
    }
  }

  /** What the recorded flags decide is what N0 decides on the current list. */
  lemma FlagsDecide(runs0: seq<Run>, runs: seq<Run>, ps: seq<Pairing>, n: nat, base: nat)
    requires Nested(runs0, base) && PosIncreasing(runs0) && Assigned(runs0, runs, ps, n, base) && n < |ps|
    ensures var p := ps[n]; var e := Parity(runs[p.open].level);
            && p.open < p.close < |runs| && runs[p.open] == runs0[p.open] && runs0[p.open].kind.ON?
               && StrongDir(runs[p.open]) < 0
            && N0Pair(runs, p.open, p.close, base) ==
                 if p.embeddingStrong then SetPair(runs, p.open, p.close, e)
                 else if p.isolateStrong then SetPair(runs, p.open, p.close, Context(runs, p.open, base))
                 else runs
  {
    hide Nested;
    hide PosIncreasing;
    hide N0;
    hide SearchAt;
    hide PrevFrom;
    hide Reaches;
    var p := ps[n];
    var e, m := Parity(runs0[p.open].level), Prev(runs0, p.close);
    FlagsMean(runs0, base, p.open, p.close);
    PairReaches(runs0, p.open, p.close);
    ContinuesSame(runs0, runs, p.close);
    forall i | p.open <= i < p.close ensures runs[i] == runs0[i] {
      Untouched(runs0, runs, ps, n, base, i);
    }
    EnclosesSame(runs0, runs, p.open, m, e);
    EnclosesSame(runs0, runs, p.open, m, 1 - e);
    ContextRange(runs, p.open, base);
  }

  lemma AssignedStart(runs0: seq<Run>, ps: seq<Pairing>, base: nat)
    requires AllPaired(runs0, ps) && Sorted(ps)
    ensures Assigned(runs0, runs0, ps, 0, base)
  {
    assert ps[..0] == [];
  }

  lemma AssignedStep(runs0: seq<Run>, runs: seq<Run>, ps: seq<Pairing>, n: nat, base: nat, next: seq<Run>)
    requires Assigned(runs0, runs, ps, n, base) && n < |ps| && ps[n].open < ps[n].close < |runs|
    requires next == N0Pair(runs, ps[n].open, ps[n].close, base)
    requires next == runs || exists dir :: next == SetPair(runs, ps[n].open, ps[n].close, dir)
    requires runs[ps[n].open].kind.ON? && runs0[ps[n].open].kind.ON? && runs0[ps[n].close].kind.ON?
    ensures Assigned(runs0, next, ps, n + 1, base)
  {
    hide N0Pair;
    hide Paired;
    hide AllPaired;
    hide Sorted;
    assert ps[..n + 1][..n] == ps[..n];
    assert PairsFit(ps[..n + 1], |runs0|);
    forall m | 0 <= m < |runs0| && (forall i | 0 <= i < n + 1 :: ps[i].open != m && ps[i].close != m)
      ensures next[m] == runs0[m] {
      assert ps[n].open != m && ps[n].close != m;
    }
  }

  lemma ClosersAreNeutral(runs: seq<Run>, ps: seq<Pairing>, n: nat)
    requires AllPaired(runs, ps) && n < |ps|
    ensures ps[n].close < |runs| && runs[ps[n].close].kind.ON?
  {
    hide SearchAt;
    PairReaches(runs, ps[n].open, ps[n].close);
  }

  /** The inner sweep: record every run up to and including run `o`. */
  method SweepTo(runs: seq<Run>, links: Links, table: array<int>, s0: nat, o: nat, ghost base: nat) returns (s: nat)
    requires Agree(runs, links) && Nested(runs, base) && LevelsFit(runs) && s0 <= o + 1 < |runs|
             && table.Length == ISOLATE_SLOTS
    requires SweepOk(runs, s0, table[..], base)
    modifies table
    ensures s == o + 1 && SweepOk(runs, s, table[..], base)
  {
    hide Prev;
    hide SweepOk;
    hide LevelsFit;
    hide SweepLevel;
    s := s0;
    while s != o + 1
      invariant s0 <= s <= o + 1
      invariant SweepOk(runs, s, table[..], base)
      decreases o + 1 - s
    {
      NotSeparator(runs, s, base);
      SweepStep(runs, base, s, table[..]);
      table[runs[s].isolateLevel] := SweepLevel(runs, s, links.prev[s], table[runs[s].isolateLevel]);
      s := s + 1;
    }
  }

  /** What the sweep has recorded at run `o` is the direction before it. */
  lemma SweepReads(runs: seq<Run>, o: nat, table: seq<int>, base: nat)
    requires o < |runs| && LevelsFit(runs) && SweepOk(runs, o + 1, table, base)
    ensures runs[o].isolateLevel < ISOLATE_SLOTS && table[runs[o].isolateLevel] >= 0
    ensures Parity(table[runs[o].isolateLevel]) == Context(runs, o, base)
  {
    LatestIs(runs, o + 1, runs[o].isolateLevel, o);
    assert SweepEntry(runs, o + 1, table[runs[o].isolateLevel], runs[o].isolateLevel, base);
  }

  lemma ShapeFits(a: seq<Run>, b: seq<Run>, base: nat)
    requires SameShape(a, b) && Nested(a, base) && LevelsFit(a) && SamePlaces(a, b)
    ensures Nested(b, base) && LevelsFit(b)
  {
    hide Nested;
    NestedSame(a, b, base);
  }

  lemma SetPairShape(runs0: seq<Run>, runs: seq<Run>, ps: seq<Pairing>, n: nat, base: nat)
    requires Assigned(runs0, runs, ps, n, base)
    ensures SameShape(runs0, runs) && SamePlaces(runs0, runs)
  {
  }

  lemma AssignedPairs(runs0: seq<Run>, runs: seq<Run>, ps: seq<Pairing>, n: nat, base: nat)
    requires Assigned(runs0, runs, ps, n, base)
    ensures AllPaired(runs0, ps)
  {
  }

  /** One pair. */
  method AssignPair(runs0: seq<Run>, runs: seq<Run>, links: Links, table: array<int>, s0: nat, ps: seq<Pairing>, n: nat,
                    ghost base: nat)
    returns (next: seq<Run>, s: nat)
    requires Nested(runs0, base) && PosIncreasing(runs0) && LevelsFit(runs0)
    requires Assigned(runs0, runs, ps, n, base) && n < |ps| && s0 <= ps[n].open && table.Length == ISOLATE_SLOTS
    requires SweepOk(runs, s0, table[..], base) && Agree(runs, links)
    modifies table
    ensures Agree(next, links) && Assigned(runs0, next, ps, n + 1, base) && s <= ps[n].open + 1
            && SweepOk(next, s, table[..], base)
  {
    hide Agree;
    hide Prev;
    hide Assigned;
    hide Nested;
    hide SweepOk;
    hide LevelsFit;
    hide PosIncreasing;
    hide N0Pair;
    hide Context;
    next, s := runs, s0;
    var p := ps[n];
    FlagsDecide(runs0, runs, ps, n, base);
    SetPairShape(runs0, runs, ps, n, base);
    ShapeFits(runs0, runs, base);
    AssignedPairs(runs0, runs, ps, n, base);
    ClosersAreNeutral(runs0, ps, n);
    var embedding := Parity(runs[p.open].level);
    if p.embeddingStrong {
      next := SetPair(runs, p.open, p.close, embedding);
      SweepKept(runs, s, table[..], base, p.open, p.close, embedding);
    } else if p.isolateStrong {
      s := SweepTo(runs, links, table, s, p.open, base);
      SweepReads(runs, p.open, table[..], base);
      var level, own := table[runs[p.open].isolateLevel], runs[p.open].level;
      var prec := if level >= 0 then level else own;
      next := SetPair(runs, p.open, p.close, Parity(prec));
      SweepKept(runs, s, table[..], base, p.open, p.close, Parity(prec));
    }
    AssignedStep(runs0, runs, ps, n, base, next);
    AgreeSame(runs, next, links);
  }

  lemma SweepEmpty(runs: seq<Run>, table: seq<int>, base: nat)
    requires |table| == ISOLATE_SLOTS && forall l | 0 <= l < ISOLATE_SLOTS :: table[l] == -1
    ensures SweepOk(runs, 0, table, base)
  {
  }

  /** The list of pairs that N0 works through. */
  ghost function SortedPairs(runs: seq<Run>): (ps: seq<Pairing>)
    ensures PairsFit(ps, |runs|)
  {
    PairsAre(runs, |runs|);
    SortMembers(PairsBefore(runs, |runs|));
    SameMembers(runs, PairsBefore(runs, |runs|), Sort(PairsBefore(runs, |runs|)));
    Sort(PairsBefore(runs, |runs|))
  }

  lemma SortedAre(runs: seq<Run>)
    ensures SortedPairs(runs) == Sort(PairsBefore(runs, |runs|))
    ensures AllPaired(runs, SortedPairs(runs)) && Sorted(SortedPairs(runs))
  {
    hide Sort;
    hide PairsBefore;
    hide AllPaired;
    var ps := PairsBefore(runs, |runs|);
    PairsAre(runs, |runs|);
    SortMembers(ps);
    SortSorts(ps);
    SameMembers(runs, ps, Sort(ps));
  }

  lemma NextOpen(ps: seq<Pairing>, n: nat)
    requires Sorted(ps) && n < |ps|
    ensures n + 1 < |ps| ==> ps[n].open < ps[n + 1].open
  {
  }

  lemma AssignedEnd(runs0: seq<Run>, runs: seq<Run>, ps: seq<Pairing>, base: nat)
    requires Assigned(runs0, runs, ps, |ps|, base)
    ensures PairsFit(ps, |runs0|) && runs == N0(runs0, ps, base) && OnlyLetters(runs0, runs)
  {
    assert ps[..|ps|] == ps;
  }

  /** The N0 phase gives every bracket the type that rule N0 gives it. */
  method ResolveBrackets(runs0: seq<Run>, links: Links, ghost base: nat) returns (runs: seq<Run>)
    requires Agree(runs0, links) && Nested(runs0, base) && PosIncreasing(runs0) && LevelsFit(runs0)
    ensures runs == N0(runs0, SortedPairs(runs0), base)
    ensures OnlyLetters(runs0, runs) && Agree(runs, links)
  {
    hide Agree;
    hide Assigned;
    hide Nested;
    hide SweepOk;
    hide LevelsFit;
    hide PosIncreasing;
    hide N0;
    hide Sorted;
    hide AllPaired;
    hide Sort;
    hide PairsBefore;
    var ps := CollectPairs(runs0, links);
    SortedAre(runs0);
    ps := Sort(ps);
    runs := runs0;
    var s: nat := 0;
    var table := new int[ISOLATE_SLOTS](i => -1);
    SweepEmpty(runs, table[..], base);
    AssignedStart(runs0, ps, base);
    for n := 0 to |ps|
      invariant Assigned(runs0, runs, ps, n, base) && SweepOk(runs, s, table[..], base) && Agree(runs, links)
      invariant n < |ps| ==> s <= ps[n].open
    {
      runs, s := AssignPair(runs0, runs, links, table, s, ps, n, base);
      NextOpen(ps, n);
    }
    AssignedEnd(runs0, runs, ps, base);
  }
}
