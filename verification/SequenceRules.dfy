/** Rules N0, N1 and N2 told by positions: what stands inside a pair of brackets,
    before it, and on the two sides of a stretch of neutrals, all within one
    isolating run sequence. */
module SequenceRules {
  import opened BidiTypes
  import opened Runs
  import opened Chains
  import opened NextRunCache
  import opened Nesting
  import opened Compaction
  import opened BracketPairs
  import opened BracketStructure
  import opened BracketRules
  import opened BracketPhase
  import opened Neutrals

  /** The direction of a run that is not neutral: numbers count as R. */
  function SideOf(r: Run): BidiType { if r.kind.LTR? then LTR else RTL }

  /** X10: the direction before the sequence that starts at run `s`. */
  function StartDir(runs: seq<Run>, s: nat, base: nat): BidiType
    requires s < |runs|
  {
    LevelToDir(Max(runs[s].level, if s == 0 then base else runs[s - 1].level))
  }

  // ----- What stands before -----

  /** Run `a` is the last run of the sequence up to `k` that is not neutral. */
  ghost predicate PrecedingAt(runs: seq<Run>, k: nat, a: nat)
    requires k < |runs|
  {
    && a <= k && Reaches(runs, k, a) && !runs[a].kind.IsNeutral()
    && forall m: nat | a < m <= k && Reaches(runs, k, m) :: runs[m].kind.IsNeutral()
  }

  /** The sequence starts at run `s` and is neutral up to `k`. */
  ghost predicate StartsAt(runs: seq<Run>, k: nat, s: nat)
    requires k < |runs|
  {
    && s <= k && Reaches(runs, k, s) && !Continues(runs, s)
    && forall m: nat | m <= k && Reaches(runs, k, m) :: runs[m].kind.IsNeutral()
  }

  /** `d` is the direction of the nearest run before `k`, or `k` itself, that is
      not neutral, or of the start of the sequence if there is none. */
  ghost predicate Preceding(runs: seq<Run>, k: nat, d: BidiType, base: nat)
    requires k < |runs|
  {
    || (exists a: nat :: PrecedingAt(runs, k, a) && d == SideOf(runs[a]))
    || (exists s: nat :: StartsAt(runs, k, s) && d == StartDir(runs, s, base))
  }

  lemma PrecedingBack(runs: seq<Run>, k: nat, d: BidiType, base: nat)
    requires k < |runs| && runs[k].kind.IsNeutral() && Continues(runs, k) && Preceding(runs, Prev(runs, k), d, base)
    ensures Preceding(runs, k, d, base)
  {
    hide PrevFrom;
    var p := Prev(runs, k);
    forall m: nat | m < k && Reaches(runs, k, m) ensures m <= p && Reaches(runs, p, m) {
      ReachesBack(runs, p, m);
    }
    if a: nat :| PrecedingAt(runs, p, a) && d == SideOf(runs[a]) {
      assert PrecedingAt(runs, k, a);
    } else {
      var s: nat :| StartsAt(runs, p, s) && d == StartDir(runs, s, base);
      assert StartsAt(runs, k, s);
    }
  }

  lemma SettledSides(r: Run)
    requires SettledKind(r.kind)
    ensures StrongDir(r) < 0 <==> r.kind.IsNeutral()
    ensures StrongDir(r) >= 0 ==> DirType(StrongDir(r)) == SideOf(r) && StrongDir(r) <= 1
  {
  }

  lemma StartIs(runs: seq<Run>, k: nat, base: nat)
    requires k < |runs|
    ensures DirType(SosDir(runs, k, base)) == StartDir(runs, k, base) && 0 <= SosDir(runs, k, base) <= 1
  {
  }

  lemma HerePreceding(runs: seq<Run>, k: nat, base: nat)
    requires k < |runs|
    ensures !runs[k].kind.IsNeutral() ==> Preceding(runs, k, SideOf(runs[k]), base)
    ensures runs[k].kind.IsNeutral() && !Continues(runs, k) ==> Preceding(runs, k, StartDir(runs, k, base), base)
  {
    hide PrevFrom;
    assert Reaches(runs, k, k);
    if !runs[k].kind.IsNeutral() {
      assert PrecedingAt(runs, k, k);
    } else if !Continues(runs, k) {
      assert StartsAt(runs, k, k);
    }
  }

  lemma {:induction false} ContextMeans(runs: seq<Run>, k: nat, base: nat)
    requires Settled(runs) && k < |runs|
    ensures Preceding(runs, k, DirType(Context(runs, k, base)), base) && 0 <= Context(runs, k, base) <= 1
    decreases k
  {
    hide Preceding;
    hide PrevFrom;
    hide SosDir;
    SettledSides(runs[k]);
    HerePreceding(runs, k, base);
    StartIs(runs, k, base);
    if runs[k].kind.IsNeutral() && Continues(runs, k) {
      ContextMeans(runs, Prev(runs, k), base);
      PrecedingBack(runs, k, DirType(Context(runs, k, base)), base);
    }
  }

  lemma PrecedingSame(runs: seq<Run>, k: nat, a: nat, b: nat)
    requires k < |runs| && PrecedingAt(runs, k, a) && PrecedingAt(runs, k, b)
    ensures a == b
  {
    hide Reaches;
  }

  lemma PrecedingNotNone(runs: seq<Run>, k: nat, a: nat)
    requires k < |runs| && PrecedingAt(runs, k, a)
    ensures forall s: nat :: !StartsAt(runs, k, s)
  {
    hide Reaches;
  }

  lemma PrecedingNone(runs: seq<Run>, k: nat, s: nat)
    requires k < |runs| && StartsAt(runs, k, s)
    ensures forall a: nat :: !PrecedingAt(runs, k, a)
  {
    hide Reaches;
  }

  lemma {:induction false} StartOnce(runs: seq<Run>, k: nat, s: nat, t: nat)
    requires k < |runs| && Reaches(runs, k, s) && Reaches(runs, k, t)
    requires s < |runs| && t < |runs| && !Continues(runs, s) && !Continues(runs, t)
    ensures s == t
    decreases k
  {
    hide PrevFrom;
    if k != s && k != t {
      StartOnce(runs, Prev(runs, k), s, t);
    }
  }

  lemma PrecedingEndSame(runs: seq<Run>, k: nat, s: nat, t: nat)
    requires k < |runs| && StartsAt(runs, k, s) && StartsAt(runs, k, t)
    ensures s == t
  {
    hide Reaches;
    StartOnce(runs, k, s, t);
  }

  /** There is only one such direction. */
  lemma PrecedingOnce(runs: seq<Run>, k: nat, d: BidiType, e: BidiType, base: nat)
    requires k < |runs| && Preceding(runs, k, d, base) && Preceding(runs, k, e, base)
    ensures d == e
  {
    hide Reaches;
    hide Continues;
    hide StartDir;
    if a: nat :| PrecedingAt(runs, k, a) && d == SideOf(runs[a]) {
      PrecedingNotNone(runs, k, a);
      var b: nat :| PrecedingAt(runs, k, b) && e == SideOf(runs[b]);
      PrecedingSame(runs, k, a, b);
    } else {
      var s: nat :| StartsAt(runs, k, s) && d == StartDir(runs, s, base);
      PrecedingNone(runs, k, s);
      var t: nat :| StartsAt(runs, k, t) && e == StartDir(runs, t, base);
      PrecedingEndSame(runs, k, s, t);
    }
  }

  // ----- N0 -----

  /** The pair from `o` to `c` encloses a run of direction `d`. */
  ghost predicate Holds(runs: seq<Run>, o: nat, c: nat, d: BidiType)
    requires c < |runs|
  {
    exists m: nat :: o < m < c && Reaches(runs, c, m) && !runs[m].kind.IsNeutral() && SideOf(runs[m]) == d
  }

  lemma {:induction false} EnclosesMeans(runs: seq<Run>, o: nat, m: nat, dir: int)
    requires m < |runs| && 0 <= dir
    ensures Encloses(runs, o, m, dir) <==>
            exists x: nat :: o < x <= m && Reaches(runs, m, x) && StrongDir(runs[x]) == dir
    decreases m
  {
    hide PrevFrom;
    assert Reaches(runs, m, m);
    if m > o && Continues(runs, m) {
      var p := Prev(runs, m);
      EnclosesMeans(runs, o, p, dir);
      if Encloses(runs, o, p, dir) {
        var x: nat :| o < x <= p && Reaches(runs, p, x) && StrongDir(runs[x]) == dir;
        assert Reaches(runs, m, x);
      }
      if x: nat :| o < x < m && Reaches(runs, m, x) && StrongDir(runs[x]) == dir {
        ReachesBack(runs, p, x);
        assert Reaches(runs, p, x);
      }
    }
  }

  lemma HoldsMeans(runs: seq<Run>, o: nat, c: nat, dir: int)
    requires Settled(runs) && c < |runs| && Continues(runs, c) && 0 <= dir <= 1
    ensures Encloses(runs, o, Prev(runs, c), dir) <==> Holds(runs, o, c, DirType(dir))
  {
    hide PrevFrom;
    var p := Prev(runs, c);
    EnclosesMeans(runs, o, p, dir);
    if Encloses(runs, o, p, dir) {
      var x: nat :| o < x <= p && Reaches(runs, p, x) && StrongDir(runs[x]) == dir;
      SettledSides(runs[x]);
      assert Reaches(runs, c, x);
    }
    if Holds(runs, o, c, DirType(dir)) {
      var m: nat :| o < m < c && Reaches(runs, c, m) && !runs[m].kind.IsNeutral() && SideOf(runs[m]) == DirType(dir);
      ReachesBack(runs, p, m);
      SettledSides(runs[m]);
      assert Reaches(runs, p, m);
    }
  }

  function Both(runs: seq<Run>, o: nat, c: nat, d: BidiType): seq<Run>
    requires o < c < |runs|
  {
    runs[o := runs[o].(kind := d)][c := runs[c].(kind := d)]
  }

  /** N0 for one pair.  b: a strong type of the embedding direction inside gives
      both brackets that direction.  c: otherwise one of the other direction inside
      gives them that direction if it also precedes the pair, and the embedding
      direction if not.  d: otherwise they stay.  Nothing else changes. */
  ghost predicate PairRule(runs: seq<Run>, r: seq<Run>, o: nat, c: nat, base: nat)
    requires o < c < |runs|
  {
    var e := LevelToDir(runs[o].level);
    var other := if e == LTR then RTL else LTR;
    if Holds(runs, o, c, e) then r == Both(runs, o, c, e)
    else if Holds(runs, o, c, other) then r == Both(runs, o, c, if Preceding(runs, o, other, base) then other else e)
    else r == runs
  }

  lemma PairMeans(runs: seq<Run>, o: nat, c: nat, base: nat)
    requires Settled(runs) && o < c < |runs| && Continues(runs, c)
    ensures PairRule(runs, N0Pair(runs, o, c, base), o, c, base)
  {
    hide PrevFrom;
    hide Encloses;
    hide Context;
    hide Holds;
    hide Preceding;
    var e := Parity(runs[o].level);
    HoldsMeans(runs, o, c, e);
    HoldsMeans(runs, o, c, 1 - e);
    ContextMeans(runs, o, base);
    if Preceding(runs, o, DirType(1 - e), base) {
      PrecedingOnce(runs, o, DirType(Context(runs, o, base)), DirType(1 - e), base);
    }
  }

  ghost predicate PairsTo(runs: seq<Run>, n: nat, base: nat)
    requires n < |SortedPairs(runs)|
  {
    var ps := SortedPairs(runs);
    PairRule(N0(runs, ps[..n], base), N0(runs, ps[..n + 1], base), ps[n].open, ps[n].close, base)
  }

  /** Each pair in turn, in order of the opening brackets, follows the rule on the
      list that the pairs before it have left. */
  ghost predicate PairByPair(runs: seq<Run>, base: nat) {
    var ps := SortedPairs(runs);
    forall n | 0 <= n < |ps| :: PairsTo(runs, n, base)
  }

  lemma PairKeeps(runs: seq<Run>, o: nat, c: nat, base: nat)
    requires Settled(runs) && o < c < |runs|
    ensures SameShape(runs, N0Pair(runs, o, c, base)) && Settled(N0Pair(runs, o, c, base))
  {
    hide Encloses;
    hide Context;
  }

  lemma {:induction false} N0Keeps(runs: seq<Run>, ps: seq<Pairing>, base: nat)
    requires Settled(runs) && PairsFit(ps, |runs|)
    ensures SameShape(runs, N0(runs, ps, base)) && Settled(N0(runs, ps, base))
  {
    hide N0Pair;
    if ps != [] {
      var n := |ps| - 1;
      N0Keeps(runs, ps[..n], base);
      PairKeeps(N0(runs, ps[..n], base), ps[n].open, ps[n].close, base);
    }
  }

  lemma PairsFollow(runs: seq<Run>, base: nat)
    requires Settled(runs)
    ensures PairByPair(runs, base)
  {
    hide PairRule;
    hide N0Pair;
    hide Settled;
    hide SortedPairs;
    hide PrevFrom;
    hide SearchAt;
    hide Sort;
    hide PairsBefore;
    hide Sorted;
    var ps := SortedPairs(runs);
    SortedAre(runs);
    forall n | 0 <= n < |ps| ensures PairsTo(runs, n, base) {
      var r := N0(runs, ps[..n], base);
      N0Keeps(runs, ps[..n], base);
      PairReaches(runs, ps[n].open, ps[n].close);
      ContinuesSame(runs, r, ps[n].close);
      PairMeans(r, ps[n].open, ps[n].close, base);
      assert ps[..n + 1][..n] == ps[..n];
    }
  }

  // ----- N1 and N2 -----

  /** Run `b` is the first run of the sequence from `k` on that is not neutral. */
  ghost predicate FollowingAt(runs: seq<Run>, k: nat, b: nat)
    requires k < |runs|
  {
    && k <= b < |runs| && Reaches(runs, b, k) && !runs[b].kind.IsNeutral()
    && forall m: nat | k <= m < b && Reaches(runs, m, k) :: runs[m].kind.IsNeutral()
  }

  /** The sequence ends at run `e` and is neutral from `k` on. */
  ghost predicate EndsAt(runs: seq<Run>, k: nat, e: nat)
    requires k < |runs|
  {
    && k <= e < |runs| && Reaches(runs, e, k) && !Resumes(runs, e)
    && forall m: nat | k <= m < |runs| && Reaches(runs, m, k) :: runs[m].kind.IsNeutral()
  }

  /** X10: the direction after the sequence that ends at run `e`; after an isolate
      initiator without a match the base level stands for the level after. */
  function EndDir(runs: seq<Run>, e: nat, base: nat): BidiType
    requires e < |runs|
  {
    var after := if e + 1 < |runs| && runs[e + 1].isolateLevel <= runs[e].isolateLevel then runs[e + 1].level else base;
    LevelToDir(Max(runs[e].level, after))
  }

  ghost predicate Following(runs: seq<Run>, k: nat, d: BidiType, base: nat)
    requires k < |runs|
  {
    || (exists b: nat :: FollowingAt(runs, k, b) && d == SideOf(runs[b]))
    || (exists e: nat :: EndsAt(runs, k, e) && d == EndDir(runs, e, base))
  }

  /** The chain from `k` on goes through the run after `k`. */
  lemma {:induction false} ReachesNext(runs: seq<Run>, m: nat, k: nat)
    requires k < m < |runs| && Reaches(runs, m, k)
    ensures Resumes(runs, k) && Reaches(runs, m, Next(runs, k))
    decreases m
  {
    hide PrevFrom;
    hide NextFrom;
    var p := Prev(runs, m);
    if p == k {
      NextOfPrev(runs, m);
      assert Reaches(runs, m, m);
    } else {
      ReachesBack(runs, p, k);
      ReachesNext(runs, p, k);
    }
  }

  lemma {:induction false} NextReaches(runs: seq<Run>, m: nat, k: nat)
    requires m < |runs| && k < |runs| && Resumes(runs, k) && Reaches(runs, m, Next(runs, k))
    ensures Reaches(runs, m, k)
    decreases m
  {
    hide PrevFrom;
    hide NextFrom;
    PrevOfNextRun(runs, k);
    if m == Next(runs, k) {
      assert Reaches(runs, k, k);
    } else {
      NextReaches(runs, Prev(runs, m), k);
    }
  }

  lemma FollowingOn(runs: seq<Run>, k: nat, d: BidiType, base: nat)
    requires k < |runs| && runs[k].kind.IsNeutral() && Resumes(runs, k) && Following(runs, Next(runs, k), d, base)
    ensures Following(runs, k, d, base)
  {
    hide PrevFrom;
    hide NextFrom;
    var n := Next(runs, k);
    forall m: nat | k < m < |runs| && Reaches(runs, m, k) ensures n <= m && Reaches(runs, m, n) {
      ReachesNext(runs, m, k);
      ReachesBack(runs, m, n);
    }
    if b: nat :| FollowingAt(runs, n, b) && d == SideOf(runs[b]) {
      NextReaches(runs, b, k);
      assert FollowingAt(runs, k, b);
    } else {
      var e: nat :| EndsAt(runs, n, e) && d == EndDir(runs, e, base);
      NextReaches(runs, e, k);
      assert EndsAt(runs, k, e);
    }
  }

  lemma HereFollowing(runs: seq<Run>, k: nat, base: nat)
    requires k < |runs|
    ensures !runs[k].kind.IsNeutral() ==> Following(runs, k, SideOf(runs[k]), base)
    ensures runs[k].kind.IsNeutral() && !Resumes(runs, k) ==> Following(runs, k, EndDir(runs, k, base), base)
  {
    hide PrevFrom;
    hide NextFrom;
    assert Reaches(runs, k, k);
    if !runs[k].kind.IsNeutral() {
      assert FollowingAt(runs, k, k);
    } else if !Resumes(runs, k) {
      forall m: nat | k < m < |runs| && Reaches(runs, m, k) ensures false {
        ReachesNext(runs, m, k);
      }
      assert EndsAt(runs, k, k);
    }
  }

  lemma FollowingSame(runs: seq<Run>, k: nat, a: nat, b: nat)
    requires k < |runs| && FollowingAt(runs, k, a) && FollowingAt(runs, k, b)
    ensures a == b
  {
    hide Reaches;
  }

  lemma FollowingNotNone(runs: seq<Run>, k: nat, a: nat)
    requires k < |runs| && FollowingAt(runs, k, a)
    ensures forall s: nat :: !EndsAt(runs, k, s)
  {
    hide Reaches;
  }

  lemma FollowingNone(runs: seq<Run>, k: nat, s: nat)
    requires k < |runs| && EndsAt(runs, k, s)
    ensures forall a: nat :: !FollowingAt(runs, k, a)
  {
    hide Reaches;
  }

  lemma {:induction false} EndOnce(runs: seq<Run>, k: nat, s: nat, t: nat)
    requires k < |runs| && s < |runs| && t < |runs| && Reaches(runs, s, k) && Reaches(runs, t, k)
    requires !Resumes(runs, s) && !Resumes(runs, t)
    ensures s == t
    decreases |runs| - k
  {
    hide PrevFrom;
    hide NextFrom;
    ReachesBack(runs, s, k);
    ReachesBack(runs, t, k);
    if k < s {
      ReachesNext(runs, s, k);
      if k < t {
        ReachesNext(runs, t, k);
        EndOnce(runs, Next(runs, k), s, t);
      }
    } else if k < t {
      ReachesNext(runs, t, k);
    }
  }

  lemma FollowingEndSame(runs: seq<Run>, k: nat, s: nat, t: nat)
    requires k < |runs| && EndsAt(runs, k, s) && EndsAt(runs, k, t)
    ensures s == t
  {
    hide Reaches;
    EndOnce(runs, k, s, t);
  }

  /** There is only one such direction. */
  lemma FollowingOnce(runs: seq<Run>, k: nat, d: BidiType, e: BidiType, base: nat)
    requires k < |runs| && Following(runs, k, d, base) && Following(runs, k, e, base)
    ensures d == e
  {
    hide Reaches;
    hide Resumes;
    hide EndDir;
    if a: nat :| FollowingAt(runs, k, a) && d == SideOf(runs[a]) {
      FollowingNotNone(runs, k, a);
      var b: nat :| FollowingAt(runs, k, b) && e == SideOf(runs[b]);
      FollowingSame(runs, k, a, b);
    } else {
      var s: nat :| EndsAt(runs, k, s) && d == EndDir(runs, s, base);
      FollowingNone(runs, k, s);
      var t: nat :| EndsAt(runs, k, t) && e == EndDir(runs, t, base);
      FollowingEndSame(runs, k, s, t);
    }
  }

  lemma EndIs(runs: seq<Run>, k: nat, base: nat)
    requires k < |runs|
    ensures DirType(EosDir(runs, k, base)) == EndDir(runs, k, base) && 0 <= EosDir(runs, k, base) <= 1
  {
  }

  lemma {:induction false} RightMeans(runs: seq<Run>, k: nat, base: nat)
    requires Settled(runs) && k < |runs| && runs[k].kind.IsNeutral()
    ensures Following(runs, k, DirType(RightDir(runs, k, base)), base)
    decreases |runs| - k
  {
    hide Following;
    hide PrevFrom;
    hide NextFrom;
    hide EosDir;
    HereFollowing(runs, k, base);
    EndIs(runs, k, base);
    if Resumes(runs, k) {
      var n := Next(runs, k);
      SettledSides(runs[n]);
      HereFollowing(runs, n, base);
      if runs[n].kind.IsNeutral() {
        RightMeans(runs, n, base);
      }
      FollowingOn(runs, k, DirType(RightDir(runs, k, base)), base);
    }
  }

  lemma {:induction false} LeftMeans(runs: seq<Run>, k: nat, base: nat)
    requires Settled(runs) && k < |runs| && runs[k].kind.IsNeutral()
    ensures Preceding(runs, k, DirType(LeftDir(runs, k, base)), base)
    decreases k
  {
    hide Preceding;
    hide PrevFrom;
    hide SosDir;
    HerePreceding(runs, k, base);
    StartIs(runs, k, base);
    if Continues(runs, k) {
      var p := Prev(runs, k);
      SettledSides(runs[p]);
      HerePreceding(runs, p, base);
      if runs[p].kind.IsNeutral() {
        LeftMeans(runs, p, base);
      }
      PrecedingBack(runs, k, DirType(LeftDir(runs, k, base)), base);
    }
  }

  /** N1 and N2 for a neutral run: the direction of the nearest runs that are not
      neutral on its two sides within its sequence, or of the ends of the sequence,
      if they agree, and the embedding direction if not. */
  ghost predicate NeutralRule(runs: seq<Run>, kind: BidiType, k: nat, base: nat)
    requires k < |runs|
  {
    exists left, right ::
      && Preceding(runs, k, left, base) && Following(runs, k, right, base)
      && kind == if left == right then left else LevelToDir(runs[k].level)
  }

  lemma ResolvedMeans(runs: seq<Run>, k: nat, base: nat)
    requires Settled(runs) && k < |runs| && runs[k].kind.IsNeutral()
    ensures NeutralRule(runs, Resolved(runs, k, base), k, base)
  {
    hide Preceding;
    hide Following;
    hide LeftDir;
    hide RightDir;
    LeftMeans(runs, k, base);
    RightMeans(runs, k, base);
    LeftRange(runs, k, base);
    RightRange(runs, k, base);
    var left, right := DirType(LeftDir(runs, k, base)), DirType(RightDir(runs, k, base));
    assert Preceding(runs, k, left, base) && Following(runs, k, right, base);
  }

  /** Every neutral run but a separator ends as N1 and N2 say, and every other run
      as it was. */
  ghost predicate NeutralsFollow(bare: seq<Run>, neutral: seq<Run>, base: nat) {
    && SameShape(bare, neutral)
    && (forall k | 0 <= k < |bare| && !bare[k].kind.IsNeutral() :: neutral[k].kind == bare[k].kind)
    && (forall k | 0 <= k < |bare| && bare[k].kind.IsNeutral() && !bare[k].kind.BS? ::
          NeutralRule(bare, neutral[k].kind, k, base))
  }

  lemma NeutralsMean(bare: seq<Run>, base: nat)
    requires Nested(bare, base) && LevelsFit(bare) && AboveBase(bare, base) && Compacted(bare) && Settled(bare)
    ensures NeutralsFollow(bare, NeutralsFrom(bare, 0), base)
  {
    hide Nested;
    hide LevelsFit;
    hide AboveBase;
    hide Compacted;
    hide Settled;
    hide NeutralRule;
    hide LeftDir;
    hide RightDir;
    hide NeutralsFrom;
    StartN(bare, base);
    hide StateN;
    NeutralsResolve(bare, bare, 0, base);
    forall k | 0 <= k < |bare| && bare[k].kind.IsNeutral() && !bare[k].kind.BS?
      ensures NeutralRule(bare, NeutralsFrom(bare, 0)[k].kind, k, base) {
      ResolvedMeans(bare, k, base);
    }
  }
}
