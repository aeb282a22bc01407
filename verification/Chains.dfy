/** Isolate chains: which run continues which across nested isolates, read off
    the isolate levels.  The stored links `prev_isolate` and `next_isolate` are
    kept equal to this by IsolateLinks. */
module Chains {
  import opened BidiTypes
  import opened Runs

  /** The nearest earlier run of the same isolate level with only higher isolate
      levels in between; -1 if a lower level or the start of the list is met
      first.  The search stands at run `j`. */
  function PrevFrom(runs: seq<Run>, iso: nat, j: int): (r: int)
    requires -1 <= j < |runs|
    ensures -1 <= r <= j
    ensures r >= 0 ==> runs[r].isolateLevel == iso && forall m | r < m <= j :: runs[m].isolateLevel > iso
    decreases j + 1
  {
    if j == -1 || runs[j].isolateLevel < iso then -1
    else if runs[j].isolateLevel == iso then j
    else PrevFrom(runs, iso, j - 1)
  }

  function NextFrom(runs: seq<Run>, iso: nat, j: nat): (r: int)
    requires j <= |runs|
    ensures r == -1 || j <= r < |runs|
    ensures r >= 0 ==> runs[r].isolateLevel == iso && forall m | j <= m < r :: runs[m].isolateLevel > iso
    decreases |runs| - j
  {
    if j == |runs| || runs[j].isolateLevel < iso then -1
    else if runs[j].isolateLevel == iso then j
    else NextFrom(runs, iso, j + 1)
  }

  /** No link: on the way out there is a lower level, or nothing at all. */
  lemma {:induction false} PrevNone(runs: seq<Run>, iso: nat, j: int)
    requires -1 <= j < |runs|
    ensures PrevFrom(runs, iso, j) == -1 <==>
              || (forall m | 0 <= m <= j :: runs[m].isolateLevel > iso)
              || exists m | 0 <= m <= j ::
                   runs[m].isolateLevel < iso && forall h | m < h <= j :: runs[h].isolateLevel > iso
    decreases j + 1
  {
    if j >= 0 && runs[j].isolateLevel > iso {
      PrevNone(runs, iso, j - 1);
    }
  }

  lemma {:induction false} NextNone(runs: seq<Run>, iso: nat, j: nat)
    requires j <= |runs|
    ensures NextFrom(runs, iso, j) == -1 <==>
              || (forall m | j <= m < |runs| :: runs[m].isolateLevel > iso)
              || exists m | j <= m < |runs| ::
                   runs[m].isolateLevel < iso && forall h | j <= h < m :: runs[h].isolateLevel > iso
    decreases |runs| - j
  {
    if j < |runs| && runs[j].isolateLevel > iso {
      NextNone(runs, iso, j + 1);
    }
  }

  /** `prev_isolate` and `next_isolate` of run `k`; -1 for NULL. */
  function Prev(runs: seq<Run>, k: nat): (r: int)
    requires k < |runs|
    ensures -1 <= r < k
  {
    PrevFrom(runs, runs[k].isolateLevel, k - 1)
  }

  function Next(runs: seq<Run>, k: nat): (r: int)
    requires k < |runs|
    ensures r == -1 || k < r < |runs|
  {
    NextFrom(runs, runs[k].isolateLevel, k + 1)
  }

  /** get_adjacent_run (k, true, false): the next run of the chain that is not
      of type PDI; -1 stands for the static sentinel. */
  function NextSkippingPdi(runs: seq<Run>, k: nat): (r: int)
    requires k < |runs|
    ensures r == -1 || k < r < |runs|
    decreases |runs| - k
  {
    var n := Next(runs, k);
    if n == -1 || !runs[n].kind.PDI? then n else NextSkippingPdi(runs, n)
  }

  /** The level of a run, or of the sentinel. */
  function LevelAt(runs: seq<Run>, k: int): int
    requires -1 <= k < |runs|
  {
    if k == -1 then -1 else runs[k].level
  }

  /** The type of run `j` as seen from run `k`: its own at the same level,
      otherwise the direction of the higher level. */
  function TypeSeen(runs: seq<Run>, k: nat, j: int): BidiType
    requires k < |runs| && -1 <= j < |runs|
  {
    if LevelAt(runs, j) == runs[k].level then (if j == -1 then ON else runs[j].kind)
    else LevelToDir(Max(LevelAt(runs, j), runs[k].level))
  }

  /** Run `k` carries on the isolating run sequence of its chain predecessor. */
  predicate Continues(runs: seq<Run>, k: nat)
    requires k < |runs|
  {
    Prev(runs, k) >= 0 && runs[Prev(runs, k)].level == runs[k].level
  }
}
