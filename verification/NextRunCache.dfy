/** get_next_run_cached: the forward search of a sweep, one remembered answer
    per isolate level. */
module NextRunCache {
  import opened BidiTypes
  import opened Runs
  import opened Chains

  const CACHE_SLOTS := 127

  /** NULL in the table; -1 stands for the static sentinel. */
  const EMPTY := -2

  /** The last run before `k` on isolate level `l`, or -1. */
  ghost function Latest(runs: seq<Run>, k: nat, l: nat): (r: int)
    requires k <= |runs|
    ensures -1 <= r < k
    ensures r >= 0 ==> runs[r].isolateLevel == l && forall m | r < m < k :: runs[m].isolateLevel != l
    ensures r == -1 ==> forall m | 0 <= m < k :: runs[m].isolateLevel != l
  {
    if k == 0 then -1 else if runs[k - 1].isolateLevel == l then k - 1 else Latest(runs, k - 1, l)
  }

  lemma LatestNext(runs: seq<Run>, k: nat, l: nat)
    requires k < |runs| && runs[k].isolateLevel != l
    ensures Latest(runs, k + 1, l) == Latest(runs, k, l)
  {
  }

  /** The answer for the last run visited on level `l`. */
  ghost function Remembered(runs: seq<Run>, k: nat, l: nat): int
    requires k <= |runs|
  {
    if Latest(runs, k, l) == -1 then EMPTY else NextSkippingPdi(runs, Latest(runs, k, l))
  }

  ghost predicate CacheOk(runs: seq<Run>, k: nat, cache: seq<int>) {
    k <= |runs| && |cache| == CACHE_SLOTS && forall l | 0 <= l < CACHE_SLOTS :: cache[l] == Remembered(runs, k, l)
  }

  /** get_next_run_cached. */
  function CachedNext(runs: seq<Run>, k: nat, cache: seq<int>): int
    requires k < |runs| && runs[k].isolateLevel < |cache|
  {
    if runs[k].kind.PDI? && Prev(runs, k) != -1 && cache[runs[k].isolateLevel] != EMPTY then cache[runs[k].isolateLevel]
    else NextSkippingPdi(runs, k)
  }

  lemma {:induction false} FromPrev(runs: seq<Run>, iso: nat, j: nat, k: nat)
    requires j <= k < |runs| && runs[k].isolateLevel == iso && forall m | j <= m < k :: runs[m].isolateLevel > iso
    ensures NextFrom(runs, iso, j) == k
    decreases k - j
  {
    if j < k {
      FromPrev(runs, iso, j + 1, k);
    }
  }

  /** The two chain links are inverse to each other. */
  lemma NextOfPrev(runs: seq<Run>, k: nat)
    requires k < |runs| && Prev(runs, k) >= 0
    ensures Next(runs, Prev(runs, k)) == k
  {
    FromPrev(runs, runs[k].isolateLevel, Prev(runs, k) + 1, k);
  }

  lemma {:induction false} LatestIs(runs: seq<Run>, k: nat, l: nat, v: nat)
    requires v < k <= |runs| && runs[v].isolateLevel == l && forall m | v < m < k :: runs[m].isolateLevel != l
    ensures Latest(runs, k, l) == v
    decreases k
  {
    if v < k - 1 {
      LatestIs(runs, k - 1, l, v);
    }
  }

  lemma RememberedNext(runs: seq<Run>, k: nat, l: nat)
    requires k < |runs|
    ensures Remembered(runs, k + 1, l) ==
              if runs[k].isolateLevel == l then NextSkippingPdi(runs, k) else Remembered(runs, k, l)
  {
  }

  lemma SkipPdi(runs: seq<Run>, p: nat)
    requires p < |runs| && Next(runs, p) != -1 && runs[Next(runs, p)].kind.PDI?
    ensures NextSkippingPdi(runs, p) == NextSkippingPdi(runs, Next(runs, p))
  {
  }

  /** What is remembered for the chain predecessor of a PDI run is the answer. */
  lemma RememberedForPdi(runs: seq<Run>, k: nat)
    requires k < |runs| && runs[k].kind.PDI? && Prev(runs, k) != -1
    ensures Remembered(runs, k, runs[k].isolateLevel) == NextSkippingPdi(runs, k)
  {
    hide PrevFrom;
    hide NextFrom;
    hide NextSkippingPdi;
    hide Latest;
    var p := Prev(runs, k);
    NextOfPrev(runs, k);
    SkipPdi(runs, p);
    LatestIs(runs, k, runs[k].isolateLevel, p);
  }

  /** The cached search returns what a search of its own would, and leaves the
      table right for the next run. */
  lemma CachedSearch(runs: seq<Run>, k: nat, cache: seq<int>)
    requires CacheOk(runs, k, cache) && k < |runs| && runs[k].isolateLevel < CACHE_SLOTS
    ensures CachedNext(runs, k, cache) == NextSkippingPdi(runs, k)
    ensures CacheOk(runs, k + 1, cache[runs[k].isolateLevel := CachedNext(runs, k, cache)])
  {
    hide Prev;
    hide NextSkippingPdi;
    hide Remembered;
    if runs[k].kind.PDI? && Prev(runs, k) != -1 {
      RememberedForPdi(runs, k);
    }
    var cache' := cache[runs[k].isolateLevel := CachedNext(runs, k, cache)];
    forall l | 0 <= l < CACHE_SLOTS ensures cache'[l] == Remembered(runs, k + 1, l) {
      RememberedNext(runs, k, l);
    }
  }

  lemma {:induction false} NextSame(a: seq<Run>, b: seq<Run>, iso: nat, j: nat)
    requires |a| == |b| && j <= |a| && forall m | 0 <= m < |a| :: a[m].isolateLevel == b[m].isolateLevel
    ensures NextFrom(a, iso, j) == NextFrom(b, iso, j)
    decreases |a| - j
  {
    if j < |a| && a[j].isolateLevel > iso {
      NextSame(a, b, iso, j + 1);
    }
  }

  /** The search looks at types ahead only. */
  lemma {:induction false} SearchSame(a: seq<Run>, b: seq<Run>, v: nat, m: nat)
    requires |a| == |b| && v < |a| && forall i | 0 <= i < |a| :: a[i].isolateLevel == b[i].isolateLevel
    requires forall i | m <= i < |a| :: a[i].kind == b[i].kind
    requires Next(a, v) == -1 || Next(a, v) >= m
    ensures NextSkippingPdi(a, v) == NextSkippingPdi(b, v)
    decreases |a| - v
  {
    NextSame(a, b, a[v].isolateLevel, v + 1);
    var n := Next(a, v);
    if n != -1 && a[n].kind.PDI? {
      SearchSame(a, b, n, m);
    }
  }

  lemma {:induction false} LatestSame(a: seq<Run>, b: seq<Run>, k: nat, l: nat)
    requires |a| == |b| && k <= |a| && forall i | 0 <= i < |a| :: a[i].isolateLevel == b[i].isolateLevel
    ensures Latest(a, k, l) == Latest(b, k, l)
  {
    if k > 0 {
      LatestSame(a, b, k - 1, l);
    }
  }

  /** Changing the types of visited runs does not spoil the table. */
  lemma CacheKept(a: seq<Run>, b: seq<Run>, k: nat, cache: seq<int>)
    requires CacheOk(a, k, cache) && |a| == |b|
    requires forall i | 0 <= i < |a| :: a[i].isolateLevel == b[i].isolateLevel
    requires forall i | k <= i < |a| :: a[i].kind == b[i].kind
    ensures CacheOk(b, k, cache)
  {
    hide PrevFrom;
    hide NextFrom;
    hide NextSkippingPdi;
    forall l | 0 <= l < CACHE_SLOTS ensures cache[l] == Remembered(b, k, l) {
      LatestSame(a, b, k, l);
      var v := Latest(a, k, l);
      if v >= 0 {
        assert Next(a, v) == -1 || Next(a, v) >= k;
        SearchSame(a, b, v, k);
      }
    }
  }

  lemma CacheStart(runs: seq<Run>, cache: seq<int>)
    requires |cache| == CACHE_SLOTS && forall l | 0 <= l < CACHE_SLOTS :: cache[l] == EMPTY
    ensures CacheOk(runs, 0, cache)
  {
  }

  lemma KindStep(runs0: seq<Run>, runs: seq<Run>, k: nat, kind: BidiType, cache: seq<int>)
    requires SameShape(runs0, runs) && k < |runs| && CacheOk(runs, k + 1, cache)
    ensures SameShape(runs0, SetKind(runs, k, kind)) && CacheOk(SetKind(runs, k, kind), k + 1, cache)
  {
    hide CacheOk;
    CacheKept(runs, SetKind(runs, k, kind), k + 1, cache);
  }

  // ----- The cost of a sweep -----

  /** The PDI runs that the search from `k` passes over. */
  ghost function Walk(runs: seq<Run>, k: nat): set<nat>
    requires k < |runs|
    decreases |runs| - k
  {
    var n := Next(runs, k);
    if n == -1 || !runs[n].kind.PDI? then {} else {n as nat} + Walk(runs, n)
  }

  lemma {:induction false} PrevOfNext(runs: seq<Run>, iso: nat, j: nat, k: nat)
    requires j <= k < |runs| && runs[j].isolateLevel == iso && runs[k].isolateLevel >= iso
    requires forall m | j < m <= k :: runs[m].isolateLevel > iso
    ensures PrevFrom(runs, iso, k) == j
    decreases k
  {
    if j < k {
      PrevOfNext(runs, iso, j, k - 1);
    }
  }

  /** A run on the walk from `k` is a later PDI run whose chain predecessor is
      `k` itself or also on the walk. */
  lemma {:induction false} WalkBack(runs: seq<Run>, k: nat, m: nat)
    requires k < |runs| && m in Walk(runs, k)
    ensures k < m < |runs| && runs[m].kind.PDI? && Prev(runs, m) >= 0
    ensures Prev(runs, m) == k || Prev(runs, m) in Walk(runs, k)
    decreases |runs| - k
  {
    hide PrevFrom;
    hide NextFrom;
    var n := Next(runs, k);
    if m == n {
      PrevOfNext(runs, runs[k].isolateLevel, k, n - 1);
    } else {
      WalkBack(runs, n, m);
    }
  }

  /** Every PDI run is passed over at most once in a sweep: walks that start at
      different runs do not meet, because a search is only made afresh from a
      run that is not itself a PDI with a predecessor. */
  lemma {:induction false} WalksApart(runs: seq<Run>, v: nat, k: nat, m: nat)
    requires v < k < |runs| && !(runs[k].kind.PDI? && Prev(runs, k) != -1)
    ensures !(m in Walk(runs, v) && m in Walk(runs, k))
    decreases m
  {
    if m in Walk(runs, v) && m in Walk(runs, k) {
      WalkBack(runs, v, m);
      WalkBack(runs, k, m);
      var p := Prev(runs, m);
      if p == k {
        WalkBack(runs, v, k);
      } else if p == v {
        WalkBack(runs, k, v);
      } else {
        WalksApart(runs, v, k, p);
      }
    }
  }

  /** Whether get_next_run_cached searches at run `k`. */
  predicate Afresh(runs: seq<Run>, k: nat)
    requires k < |runs|
  {
    !(runs[k].kind.PDI? && Prev(runs, k) != -1)
  }

  /** The table is never empty where it could save a search. */
  lemma SearchesAfresh(runs: seq<Run>, k: nat, cache: seq<int>)
    requires CacheOk(runs, k, cache) && k < |runs| && runs[k].isolateLevel < CACHE_SLOTS
    ensures Afresh(runs, k) <==> !(runs[k].kind.PDI? && Prev(runs, k) != -1 && cache[runs[k].isolateLevel] != EMPTY)
  {
    hide Prev;
    hide NextSkippingPdi;
    hide Remembered;
    if !Afresh(runs, k) {
      RememberedForPdi(runs, k);
    }
  }

  /** The PDI runs that the searches from the first `n` runs pass over. */
  ghost function Walked(runs: seq<Run>, n: nat): set<nat>
    requires n <= |runs|
  {
    if n == 0 then {} else Walked(runs, n - 1) + if Afresh(runs, n - 1) then Walk(runs, n - 1) else {}
  }

  /** How many steps these searches take beyond their first ones. */
  ghost function Steps(runs: seq<Run>, n: nat): nat
    requires n <= |runs|
  {
    if n == 0 then 0 else Steps(runs, n - 1) + if Afresh(runs, n - 1) then |Walk(runs, n - 1)| else 0
  }

  lemma {:induction false} WalkedFrom(runs: seq<Run>, n: nat, m: nat) returns (v: nat)
    requires n <= |runs| && m in Walked(runs, n)
    ensures v < n && Afresh(runs, v) && m in Walk(runs, v)
  {
    if Afresh(runs, n - 1) && m in Walk(runs, n - 1) {
      v := n - 1;
    } else {
      v := WalkedFrom(runs, n - 1, m);
    }
  }

  /** No step is counted twice. */
  lemma {:induction false} StepsAre(runs: seq<Run>, n: nat)
    requires n <= |runs|
    ensures Steps(runs, n) == |Walked(runs, n)|
  {
    hide Walk;
    if n > 0 {
      StepsAre(runs, n - 1);
      if Afresh(runs, n - 1) {
        var was, walk := Walked(runs, n - 1), Walk(runs, n - 1);
        forall m | m in was ensures m !in walk {
          var v := WalkedFrom(runs, n - 1, m);
          WalksApart(runs, v, n - 1, m);
        }
        assert was !! walk;
      }
    }
  }

  lemma {:induction false} Smaller(s: set<nat>, n: nat)
    requires forall m | m in s :: m < n
    ensures |s| <= n
  {
    if n > 0 {
      Smaller(s - {n - 1}, n - 1);
    } else {
      assert s == {};
    }
  }

  /** The searches of a whole sweep take no more steps than there are runs, so
      that a sweep is linear. */
  lemma SweepLinear(runs: seq<Run>)
    ensures Steps(runs, |runs|) <= |runs|
  {
    hide Walk;
    hide Steps;
    hide Walked;
    StepsAre(runs, |runs|);
    forall m | m in Walked(runs, |runs|) ensures m < |runs| {
      var v := WalkedFrom(runs, |runs|, m);
      WalkBack(runs, v, m);
    }
    Smaller(Walked(runs, |runs|), |runs|);
  }
}
