/** The isolate links of the run list: `prev_isolate` and `next_isolate` are
    stored, built once after the explicit phase and patched at every merge.
    They always are what the isolate levels say (Chains). */
module IsolateLinks {
  import opened BidiTypes
  import opened Runs
  import opened Chains
  import opened NextRunCache

  /** The two links of every run; -1 is NULL.  Runs are known by their index, so
      when a run goes the indices behind it go down. */
  datatype Links = Links(prev: seq<int>, next: seq<int>)

  ghost predicate Agree(runs: seq<Run>, l: Links) {
    && |l.prev| == |l.next| == |runs|
    && (forall k | 0 <= k < |runs| :: l.prev[k] == Prev(runs, k))
    && (forall k | 0 <= k < |runs| :: l.next[k] == Next(runs, k))
  }

  // ----- Building the links -----

  /** The table knows, for every isolate level, the last run of the sequences
      still open at run `k`. */
  ghost predicate TableAt(runs: seq<Run>, k: nat, table: seq<int>) {
    && k <= |runs| && |table| == STRONG_SLOTS
    && forall l | 0 <= l < STRONG_SLOTS :: table[l] == PrevFrom(runs, l, k - 1)
  }

  /** The links of the runs before run `k`, none of which leads beyond it yet. */
  ghost predicate LinkedTo(runs: seq<Run>, k: nat, l: Links) {
    && k <= |runs| && |l.prev| == |l.next| == |runs|
    && (forall i | 0 <= i < k :: l.prev[i] == Prev(runs, i))
    && (forall i | 0 <= i < k :: l.next[i] == if 0 <= Next(runs, i) < k then Next(runs, i) else -1)
    && (forall i | k <= i < |runs| :: l.prev[i] == -1 && l.next[i] == -1)
  }

  /** Going down to a lower level closes the sequences on the levels above it;
      going up or on closes none. */
  ghost predicate Zeroed(runs: seq<Run>, k: nat, table: seq<int>, before: seq<int>) {
    && k < |runs| && |table| == |before|
    && forall l | 0 <= l < |table| :: table[l] == if l > runs[k].isolateLevel then -1 else before[l]
  }

  lemma NothingAbove(runs: seq<Run>, k: nat, table: seq<int>, l: nat)
    requires TableAt(runs, k, table) && l < STRONG_SLOTS && l > if k == 0 then 0 else runs[k - 1].isolateLevel
    ensures table[l] == -1
  {
  }

  /** The table when run `k` has been entered in it. */
  lemma TableNext(runs: seq<Run>, k: nat, before: seq<int>, table: seq<int>)
    requires TableAt(runs, k, before) && k < |runs| && runs[k].isolateLevel < STRONG_SLOTS
             && Zeroed(runs, k, table, before)
    ensures table[runs[k].isolateLevel] == Prev(runs, k)
    ensures TableAt(runs, k + 1, table[runs[k].isolateLevel := k])
  {
    forall l | 0 <= l < STRONG_SLOTS ensures table[runs[k].isolateLevel := k][l] == PrevFrom(runs, l, k) {
      hide Prev;
    }
  }

  /** The new links at run `k`. */
  lemma LinksNext(runs: seq<Run>, k: nat, l: Links)
    requires LinkedTo(runs, k, l) && k < |runs|
    ensures var p := Prev(runs, k);
            LinkedTo(runs, k + 1, if p >= 0 then Links(l.prev[k := p], l.next[p := k]) else l)
  {
    hide PrevFrom;
    hide NextFrom;
    var p := Prev(runs, k);
    if p >= 0 {
      NextOfPrev(runs, k);
    }
    forall i | 0 <= i < k && Next(runs, i) == k ensures p == i {
      PrevOfNext(runs, runs[i].isolateLevel, i, k - 1);
    }
  }

  lemma LevelFits(runs: seq<Run>, k: nat)
    requires IsolatesFit(runs) && k < |runs|
    ensures runs[k].isolateLevel < STRONG_SLOTS
  {
  }

  lemma NoLinks(runs: seq<Run>, l: Links, table: seq<int>)
    requires |l.prev| == |l.next| == |runs| && forall k | 0 <= k < |runs| :: l.prev[k] == -1 && l.next[k] == -1
    requires |table| == STRONG_SLOTS && forall i | 0 <= i < |table| :: table[i] == -1
    ensures TableAt(runs, 0, table) && LinkedTo(runs, 0, l)
  {
  }

  lemma ClosedAbove(runs: seq<Run>, k: nat, was: seq<int>, table: seq<int>, before: nat)
    requires TableAt(runs, k, was) && k < |runs| && |table| == |was|
             && before == if k == 0 then 0 else runs[k - 1].isolateLevel
    requires forall h | 0 <= h < |was| :: table[h] == if runs[k].isolateLevel < h <= before then -1 else was[h]
    ensures Zeroed(runs, k, table, was)
  {
    forall h | 0 <= h < |was| && h > before ensures was[h] == -1 {
      NothingAbove(runs, k, was, h);
    }
  }

  lemma AllLinked(runs: seq<Run>, l: Links)
    requires LinkedTo(runs, |runs|, l)
    ensures Agree(runs, l)
  {
    hide NextFrom;
    hide PrevFrom;
  }

  /** The loop after the explicit phase that builds the links. */
  method BuildLinks(runs: seq<Run>) returns (l: Links)
    requires IsolatesFit(runs)
    ensures Agree(runs, l)
  {
    hide TableAt;
    hide LinkedTo;
    hide Zeroed;
    hide Prev;
    l := Links(seq(|runs|, i => -1), seq(|runs|, i => -1));
    var table := new int[STRONG_SLOTS](i => -1);
    var before := 0;
    NoLinks(runs, l, table[..]);
    for k := 0 to |runs|
      invariant |l.prev| == |l.next| == |runs| && TableAt(runs, k, table[..]) && LinkedTo(runs, k, l)
      invariant before == (if k == 0 then 0 else runs[k - 1].isolateLevel) && before < STRONG_SLOTS
    {
      LevelFits(runs, k);
      var iso := runs[k].isolateLevel;
      ghost var was := table[..];
      if iso < before {
        for i := iso + 1 to before + 1
          invariant table.Length == |was|
          invariant forall h | 0 <= h < |was| :: table[h] == if iso < h < i then -1 else was[h]
        {
          table[i] := -1;
        }
      }
      ClosedAbove(runs, k, was, table[..], before);
      TableNext(runs, k, was, table[..]);
      LinksNext(runs, k, l);
      before := iso;
      if table[iso] != -1 {
        l := Links(l.prev, l.next[table[iso] := k]);
        l := Links(l.prev[k := table[iso]], l.next);
      }
      table[iso] := k;
    }
    AllLinked(runs, l);
  }

  // ----- Chains after a merge -----

  /** Where run `j` is found once run `k` has joined the run before it. */
  function Lower(k: nat, j: int): int { if j < k then j else j - 1 }

  ghost predicate Mergeable(runs: seq<Run>, k: nat) {
    0 < k < |runs| && runs[k - 1].level == runs[k].level && runs[k - 1].isolateLevel == runs[k].isolateLevel
  }

  lemma MergedAt(runs: seq<Run>, k: nat, j: int)
    requires Mergeable(runs, k) && 0 <= j < |runs|
    ensures var r := MergeWithPrev(runs, k)[Lower(k, j)];
            && r.level == runs[j].level && r.isolateLevel == runs[j].isolateLevel
            && (j != k ==> r.kind == runs[j].kind && r.pos == runs[j].pos && r.bracket == runs[j].bracket)
  {
  }

  lemma {:induction false} PrevMerged(runs: seq<Run>, k: nat, iso: nat, j: int)
    requires Mergeable(runs, k) && -1 <= j < |runs| - 1
    ensures PrevFrom(MergeWithPrev(runs, k), iso, j) == Lower(k, PrevFrom(runs, iso, if j < k - 1 then j else j + 1))
    decreases j + 1
  {
    hide MergeWithPrev;
    if j >= 0 {
      MergedAt(runs, k, if j < k - 1 then j else j + 1);
      PrevMerged(runs, k, iso, j - 1);
    }
  }

  lemma {:induction false} NextMerged(runs: seq<Run>, k: nat, iso: nat, j: nat)
    requires Mergeable(runs, k) && j < |runs|
    ensures NextFrom(MergeWithPrev(runs, k), iso, j) == Lower(k, NextFrom(runs, iso, if j < k then j else j + 1))
    decreases |runs| - j
  {
    hide MergeWithPrev;
    if j + 1 < |runs| {
      MergedAt(runs, k, if j < k then j else j + 1);
      NextMerged(runs, k, iso, j + 1);
    }
  }

  /** The chain links of the merged list are those of the list: the joined run
      is left backwards from its first part and forwards from its second. */
  lemma MergeChain(runs: seq<Run>, k: nat, i: nat)
    requires Mergeable(runs, k) && i < |runs| - 1
    ensures Prev(MergeWithPrev(runs, k), i) == Lower(k, Prev(runs, if i < k then i else i + 1))
    ensures Next(MergeWithPrev(runs, k), i) == Lower(k, Next(runs, if i < k - 1 then i else i + 1))
  {
    hide PrevFrom;
    hide NextFrom;
    hide MergeWithPrev;
    var r := MergeWithPrev(runs, k);
    MergedAt(runs, k, if i < k then i else i + 1);
    PrevMerged(runs, k, r[i].isolateLevel, i - 1);
    NextMerged(runs, k, r[i].isolateLevel, i + 1);
  }

  // ----- Merging patches the links -----

  /** A link with run `k` gone. */
  function Dropped(l: seq<int>, k: nat): (r: seq<int>)
    requires k < |l|
    ensures |r| == |l| - 1 && forall i | 0 <= i < |r| :: r[i] == Lower(k, l[if i < k then i else i + 1])
  {
    seq(|l| - 1, i requires 0 <= i < |l| - 1 => Lower(k, l[if i < k then i else i + 1]))
  }

  lemma PrevMergeable(runs: seq<Run>, k: nat)
    requires Mergeable(runs, k)
    ensures Prev(runs, k) == k - 1
  {
  }

  /** What the assignments leave in the links of the runs that stay. */
  ghost predicate Patched(runs: seq<Run>, l: Links, p: Links, k: nat) {
    && k < |runs| == |l.prev| == |l.next| == |p.prev| == |p.next|
    && (forall i | 0 <= i < |runs| && i != k :: p.prev[i] == if i == l.next[k] then l.prev[k] else l.prev[i])
    && (forall i | 0 <= i < |runs| && i != k :: p.next[i] == if i == k - 1 then l.next[k] else l.next[i])
  }

  /** Two runs are linked both ways or not at all. */
  lemma PrevOfNextAt(runs: seq<Run>, k: nat, i: nat)
    requires k < |runs| && i < |runs|
    ensures i == Next(runs, k) <==> Prev(runs, i) == k
  {
    hide PrevFrom;
    hide NextFrom;
    if Prev(runs, i) == k {
      NextOfPrev(runs, i);
    }
    if i == Next(runs, k) {
      PrevOfNext(runs, runs[k].isolateLevel, k, i - 1);
    }
  }

  lemma PatchedAgrees(runs: seq<Run>, l: Links, p: Links, k: nat)
    requires Agree(runs, l) && Mergeable(runs, k) && Patched(runs, l, p, k)
    ensures Agree(MergeWithPrev(runs, k), Links(Dropped(p.prev, k), Dropped(p.next, k)))
  {
    hide Prev;
    hide Next;
    hide MergeWithPrev;
    var r, q := MergeWithPrev(runs, k), Links(Dropped(p.prev, k), Dropped(p.next, k));
    PrevMergeable(runs, k);
    forall i | 0 <= i < |r| ensures q.prev[i] == Prev(r, i) && q.next[i] == Next(r, i) {
      var o := if i < k then i else i + 1;
      MergeChain(runs, k, i);
      PrevOfNextAt(runs, k, o);
    }
  }

  /** merge_with_prev: run `k` joins the run before it, and up to four links are
      set.  The middle case of the first statement never arises. */
  method MergeRuns(runs: seq<Run>, l: Links, k: nat) returns (r: seq<Run>, links: Links)
    requires Agree(runs, l) && Mergeable(runs, k)
    ensures r == MergeWithPrev(runs, k) && Agree(r, links)
  {
    hide Prev;
    hide Next;
    var prev, next := l.prev, l.next;
    PrevMergeable(runs, k);
    if next[k] != -1 {
      prev := prev[next[k] := prev[k]];
    } else if k + 1 < |runs| && prev[k + 1] == k {
      prev := prev[k + 1 := prev[k]];
    }
    if prev[k] != -1 {
      next := next[prev[k] := next[k]];
    }
    next := next[k - 1 := next[k]];
    if k + 1 < |runs| {
      PrevOfNextAt(runs, k, k + 1);
    }
    PatchedAgrees(runs, l, Links(prev, next), k);
    r := MergeWithPrev(runs, k);
    links := Links(Dropped(prev, k), Dropped(next, k));
  }

  // ----- Following the links -----

  lemma OnNext(runs: seq<Run>, k: nat)
    requires k < |runs|
    ensures Next(runs, k) >= 0 ==> runs[Next(runs, k)].isolateLevel == runs[k].isolateLevel
  {
  }

  lemma OnLevel(runs: seq<Run>, k: nat)
    requires k < |runs|
    ensures Next(runs, k) >= 0 ==> runs[Next(runs, k)].isolateLevel == runs[k].isolateLevel
    ensures Prev(runs, k) >= 0 ==> runs[Prev(runs, k)].isolateLevel == runs[k].isolateLevel
  {
  }

  /** get_adjacent_run, forward or backward; -1 is the static sentinel. */
  method GetAdjacentRun(runs: seq<Run>, l: Links, k: nat, forward: bool) returns (j: int)
    requires Agree(runs, l) && k < |runs|
    ensures -1 <= j < |runs| && j == if forward then NextSkippingPdi(runs, k) else Prev(runs, k)
  {
    hide Prev;
    hide Next;
    ghost var at: nat := k;
    j := if forward then l.next[k] else l.prev[k];
    OnNext(runs, k);
    while j != -1 && (runs[j].isolateLevel > runs[k].isolateLevel || (forward && runs[j].kind.PDI?))
      invariant -1 <= j < |runs| && at < |runs|
      invariant forward && j != -1 ==> runs[j].isolateLevel == runs[k].isolateLevel
      invariant if forward then j == Next(runs, at) && NextSkippingPdi(runs, at) == NextSkippingPdi(runs, k)
                else j == Prev(runs, k)
      decreases if j == -1 then 0 else if forward then |runs| - j else j + 1
    {
      if forward {
        SkipPdi(runs, at);
        OnNext(runs, j);
      }
      at := j;
      j := if forward then l.next[j] else l.prev[j];
      OnLevel(runs, k);
    }
  }

  lemma SlotCount(runs: seq<Run>, k: nat, cache: seq<int>)
    requires CacheOk(runs, k, cache)
    ensures |cache| == CACHE_SLOTS
  {
  }

  /** get_next_run_cached. */
  method GetNextRunCached(runs: seq<Run>, l: Links, k: nat, nextRun: array<int>) returns (j: int)
    requires Agree(runs, l) && k < |runs| && CacheOk(runs, k, nextRun[..]) && runs[k].isolateLevel < CACHE_SLOTS
    modifies nextRun
    ensures -1 <= j < |runs| && j == NextSkippingPdi(runs, k) && CacheOk(runs, k + 1, nextRun[..])
  {
    hide CacheOk;
    hide Prev;
    hide NextSkippingPdi;
    CachedSearch(runs, k, nextRun[..]);
    SlotCount(runs, k, nextRun[..]);
    ghost var was := nextRun[..];
    j := EMPTY;
    if runs[k].kind.PDI? && l.prev[k] != -1 {
      j := nextRun[runs[k].isolateLevel];
    }
    if j == EMPTY {
      j := GetAdjacentRun(runs, l, k, true);
    }
    nextRun[runs[k].isolateLevel] := j;
    assert nextRun[..] == was[runs[k].isolateLevel := j];
  }

  lemma {:induction false} PrevLevels(a: seq<Run>, b: seq<Run>, iso: nat, j: int)
    requires |a| == |b| && -1 <= j < |a| && forall i | 0 <= i < |a| :: a[i].isolateLevel == b[i].isolateLevel
    ensures PrevFrom(a, iso, j) == PrevFrom(b, iso, j)
    decreases j + 1
  {
    if j >= 0 {
      PrevLevels(a, b, iso, j - 1);
    }
  }

  /** Links depend on isolate levels alone. */
  lemma AgreeSame(a: seq<Run>, b: seq<Run>, l: Links)
    requires Agree(a, l) && |a| == |b| && forall i | 0 <= i < |a| :: a[i].isolateLevel == b[i].isolateLevel
    ensures Agree(b, l)
  {
    hide PrevFrom;
    hide NextFrom;
    forall k | 0 <= k < |a| ensures Prev(a, k) == Prev(b, k) && Next(a, k) == Next(b, k) {
      PrevLevels(a, b, a[k].isolateLevel, k - 1);
      NextSame(a, b, a[k].isolateLevel, k + 1);
    }
  }
}
