/** Rule N0 of UAX #9: every bracket pair in turn, each one looking afresh at
    what it encloses and at what precedes it. */
module BracketRules {
  import opened BidiTypes
  import opened Runs
  import opened Chains
  import opened NextRunCache
  import opened Nesting
  import opened BracketPairs
  import opened BracketStructure

  /** A run of the sequence after `o`, up to `m`, has strong direction `dir`. */
  ghost predicate Encloses(runs: seq<Run>, o: nat, m: nat, dir: int)
    requires m < |runs|
  {
    m > o && (StrongDir(runs[m]) == dir || (Continues(runs, m) && Encloses(runs, o, Prev(runs, m), dir)))
  }

  function Parity(level: int): int { if LevelIsRtl(level) then 1 else 0 }

  /** X10: the direction before an isolating run sequence that starts at `k`. */
  ghost function SosDir(runs: seq<Run>, k: nat, base: nat): int
    requires k < |runs|
  {
    Parity(Max(runs[k].level, if k == 0 then base else runs[k - 1].level))
  }

  /** The direction of the last strong run of the sequence up to `k`, or of its
      start. */
  ghost function Context(runs: seq<Run>, k: nat, base: nat): int
    requires k < |runs|
  {
    if StrongDir(runs[k]) >= 0 then StrongDir(runs[k])
    else if Continues(runs, k) then Context(runs, Prev(runs, k), base)
    else SosDir(runs, k, base)
  }

  function DirType(dir: int): BidiType { if dir == 1 then RTL else LTR }

  function SetPair(runs: seq<Run>, o: nat, c: nat, dir: int): (r: seq<Run>)
    requires o < |runs| && c < |runs|
    ensures |r| == |runs|
  {
    runs[o := runs[o].(kind := DirType(dir))][c := runs[c].(kind := DirType(dir))]
  }

  /** N0 b to d for one pair. */
  ghost function N0Pair(runs: seq<Run>, o: nat, c: nat, base: nat): (r: seq<Run>)
    requires o < c < |runs|
    ensures |r| == |runs|
  {
    var e, m := Parity(runs[o].level), Prev(runs, c);
    if m < 0 then runs
    else if Encloses(runs, o, m, e) then SetPair(runs, o, c, e)
    else if Encloses(runs, o, m, 1 - e) then SetPair(runs, o, c, if Context(runs, o, base) == 1 - e then 1 - e else e)
    else runs
  }

  ghost predicate PairsFit(ps: seq<Pairing>, n: nat) {
    forall i | 0 <= i < |ps| :: ps[i].open < ps[i].close < n
  }

  /** N0: the pairs one after the other, in order of their opening brackets. */
  ghost function N0(runs: seq<Run>, ps: seq<Pairing>, base: nat): (r: seq<Run>)
    requires PairsFit(ps, |runs|)
    ensures |r| == |runs|
  {
    if ps == [] then runs
    else var p := ps[|ps| - 1]; N0Pair(N0(runs, ps[..|ps| - 1], base), p.open, p.close, base)
  }

  // ----- The remembered positions tell what a pair encloses -----

  lemma {:induction false} LastResolvedAbove(runs: seq<Run>, k: nat, x: int, o: nat)
    requires PosIncreasing(runs) && k <= o + 1 <= |runs|
    ensures LastResolved(runs, k, x) <= runs[o].pos
  {
    if k > 0 {
      LastResolvedAbove(runs, k - 1, x, o);
    }
  }

  lemma {:induction false} LastResolvedFinds(runs: seq<Run>, k: nat, x: int, o: nat)
    requires PosIncreasing(runs) && o < k <= |runs|
    ensures LastResolved(runs, k, x) > runs[o].pos <==>
              exists m | o < m < k :: StrongDir(runs[m]) >= 0 && ResolvedLevel(runs[m]) == x
  {
    if k - 1 > o {
      LastResolvedFinds(runs, k - 1, x, o);
    } else {
      LastResolvedAbove(runs, k, x, o);
    }
  }

  lemma {:induction false} LastOnLevelAbove(runs: seq<Run>, k: nat, l: nat, o: nat)
    requires PosIncreasing(runs) && k <= o + 1 <= |runs|
    ensures LastOnLevel(runs, k, l) <= runs[o].pos
  {
    if k > 0 {
      LastOnLevelAbove(runs, k - 1, l, o);
    }
  }

  lemma {:induction false} LastOnLevelFinds(runs: seq<Run>, k: nat, l: nat, o: nat)
    requires PosIncreasing(runs) && o < k <= |runs|
    ensures LastOnLevel(runs, k, l) > runs[o].pos <==>
              exists m | o < m < k :: StrongDir(runs[m]) >= 0 && runs[m].isolateLevel == l
  {
    if k - 1 > o {
      LastOnLevelFinds(runs, k - 1, l, o);
    } else {
      LastOnLevelAbove(runs, k, l, o);
    }
  }

  lemma {:induction false} EnclosesFinds(runs: seq<Run>, o: nat, n: nat, dir: int)
    requires n < |runs| && Reaches(runs, n, o) && dir >= 0
    ensures Encloses(runs, o, n, dir) <==>
              exists m | o < m <= n :: runs[m].isolateLevel == runs[o].isolateLevel && StrongDir(runs[m]) == dir
    decreases n
  {
    hide PrevFrom;
    ReachesBack(runs, n, o);
    Between(runs, o, n, n);
    if n > o {
      var p := Prev(runs, n);
      EnclosesFinds(runs, o, p, dir);
      ReachesBack(runs, p, o);
      if exists m | o < m <= n :: runs[m].isolateLevel == runs[o].isolateLevel && StrongDir(runs[m]) == dir {
        var m :| o < m <= n && runs[m].isolateLevel == runs[o].isolateLevel && StrongDir(runs[m]) == dir;
        assert m <= p || m == n;
      }
    }
  }

  lemma {:induction false} LowersNot(runs: seq<Run>, o: nat, c: nat, m: nat)
    requires c < |runs| && Reaches(runs, c, o) && o <= m <= c
    ensures PrevFrom(runs, runs[o].isolateLevel, m) >= o
    decreases m
  {
    Between(runs, o, m, c);
    if m > o && runs[m].isolateLevel > runs[o].isolateLevel {
      LowersNot(runs, o, c, m - 1);
    }
  }

  /** A run between the brackets of a pair is in the pair's own sequence or at a
      higher level. */
  lemma Enclosed(runs: seq<Run>, base: nat, o: nat, c: nat, m: nat)
    requires Nested(runs, base) && Paired(runs, o, c) && o < m < c
    ensures runs[m].isolateLevel == runs[o].isolateLevel ==> runs[m].level == runs[o].level
    ensures runs[m].isolateLevel != runs[o].isolateLevel ==> runs[m].level > runs[o].level
  {
    hide SearchAt;
    hide Nested;
    PairReaches(runs, o, c);
    Between(runs, o, m, c);
    if runs[m].isolateLevel == runs[o].isolateLevel {
      Between(runs, m, m, c);
    } else {
      var i := PrevFrom(runs, runs[o].isolateLevel, m);
      LowersNot(runs, o, c, m);
      assert o <= i < m;
      Between(runs, o, i, c);
      Between(runs, i, i, c);
      NotSeparator(runs, m, base);
      InnerHigher(runs, i, m, base);
    }
  }

  /** The two flags recorded with a pair say what a rescan would find. */
  lemma FlagsMean(runs: seq<Run>, base: nat, o: nat, c: nat)
    requires Nested(runs, base) && PosIncreasing(runs) && Paired(runs, o, c)
    ensures o < c && Prev(runs, c) >= 0
    ensures var e, m := Parity(runs[o].level), Prev(runs, c);
            && PairingAt(runs, o, c).embeddingStrong == Encloses(runs, o, m, e)
            && PairingAt(runs, o, c).isolateStrong == (Encloses(runs, o, m, e) || Encloses(runs, o, m, 1 - e))
  {
    hide SearchAt;
    hide Nested;
    hide PosIncreasing;
    hide PrevFrom;
    PairReaches(runs, o, c);
    var e, n := Parity(runs[o].level), Prev(runs, c);
    EnclosesFinds(runs, o, n, e);
    EnclosesFinds(runs, o, n, 1 - e);
    LastResolvedFinds(runs, c, runs[o].level, o);
    LastOnLevelFinds(runs, c, runs[o].isolateLevel, o);
    ReachesBack(runs, n, o);
    Between(runs, o, c, c);
    forall m | o < m < c
      ensures runs[m].isolateLevel == runs[o].isolateLevel ==> m <= n && runs[m].level == runs[o].level
      ensures runs[m].isolateLevel != runs[o].isolateLevel ==> ResolvedLevel(runs[m]) > runs[o].level {
      Enclosed(runs, base, o, c, m);
    }
  }
}
