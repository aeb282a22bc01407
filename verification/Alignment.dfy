/** Where the runs stand in the paragraph while the codes that X9 removes are
    kept on a list of their own: a run starts where its first character stands,
    and its length does not count removed codes. */
module Alignment {
  import opened BidiTypes
  import opened Runs

  /** The position of kept character number `j`: the codes, given in order of
      their positions, are stepped over. */
  ghost function KeptPos(codes: seq<Run>, j: nat): nat {
    if codes == [] || j < codes[0].pos then j else KeptPos(codes[1..], j + codes[0].len)
  }

  ghost predicate RunAligned(runs: seq<Run>, codes: seq<Run>, i: nat)
    requires i < |runs|
  {
    runs[i].len > 0 && runs[i].pos == KeptPos(codes, Off(runs, i))
  }

  /** Every run starts at its first character, and the runs hold `n` characters. */
  ghost predicate Aligned(runs: seq<Run>, codes: seq<Run>, n: nat) {
    && Off(runs, |runs|) == n
    && forall i | 0 <= i < |runs| :: RunAligned(runs, codes, i)
  }

  lemma {:induction false} OffSame(a: seq<Run>, b: seq<Run>, i: nat)
    requires i <= |a| && i <= |b| && forall j | 0 <= j < i :: a[j].len == b[j].len
    ensures Off(a, i) == Off(b, i)
  {
    if i > 0 {
      OffSame(a, b, i - 1);
    }
  }

  /** Types and levels do not matter for the alignment. */
  lemma AlignedSame(a: seq<Run>, b: seq<Run>, codes: seq<Run>, n: nat)
    requires |a| == |b| && Aligned(a, codes, n)
    requires forall i | 0 <= i < |a| :: a[i].pos == b[i].pos && a[i].len == b[i].len
    ensures Aligned(b, codes, n)
  {
    hide KeptPos;
    OffSame(a, b, |a|);
    forall i | 0 <= i < |b| ensures RunAligned(b, codes, i) {
      assert RunAligned(a, codes, i);
      OffSame(a, b, i);
    }
  }

  lemma {:induction false} OffMerged(runs: seq<Run>, k: nat, i: nat)
    requires 0 < k < |runs| && i < |runs|
    ensures Off(MergeWithPrev(runs, k), i) == Off(runs, if i < k then i else i + 1)
  {
    if i > 0 {
      OffMerged(runs, k, i - 1);
    }
  }

  lemma AlignedMerged(runs: seq<Run>, k: nat, codes: seq<Run>, n: nat)
    requires 0 < k < |runs| && Aligned(runs, codes, n)
    ensures Aligned(MergeWithPrev(runs, k), codes, n)
  {
    hide KeptPos;
    hide Off;
    var r := MergeWithPrev(runs, k);
    OffMerged(runs, k, |r|);
    forall i | 0 <= i < |r| ensures RunAligned(r, codes, i) {
      assert RunAligned(runs, codes, if i < k then i else i + 1);
      OffMerged(runs, k, i);
    }
  }

  lemma {:induction false} OffTail(a: seq<Run>, i: nat)
    requires a != [] && i < |a|
    ensures Off(a, i + 1) == a[0].len + Off(a[1..], i)
  {
    if i > 0 {
      OffTail(a, i - 1);
    }
  }

  /** All codes of `a` stand before kept character number `j`. */
  ghost predicate Passed(a: seq<Run>, j: nat) {
    forall i | 0 <= i < |a| :: a[i].pos <= j + Off(a, i)
  }

  lemma OffStart(a: seq<Run>)
    ensures Off(a, 0) == 0
  {
  }

  lemma PassedTail(a: seq<Run>, j: nat)
    requires a != [] && Passed(a, j)
    ensures a[0].pos <= j && Passed(a[1..], j + a[0].len)
    ensures Off(a, |a|) == a[0].len + Off(a[1..], |a| - 1)
  {
    hide Off;
    assert Off(a, 0) == 0 by { OffStart(a); }
    OffTail(a, |a| - 1);
    forall i | 0 <= i < |a[1..]| ensures a[1..][i].pos <= j + a[0].len + Off(a[1..], i) {
      OffTail(a, i);
      assert a[i + 1].pos <= j + Off(a, i + 1);
    }
  }

  /** Codes passed count in full. */
  lemma {:induction false} KeptPosPassed(a: seq<Run>, b: seq<Run>, j: nat)
    requires Passed(a, j)
    ensures KeptPos(a + b, j) == KeptPos(b, j + Off(a, |a|))
    decreases |a|
  {
    hide Passed;
    if a == [] {
      assert a + b == b;
    } else {
      hide Off;
      assert (a + b)[1..] == a[1..] + b;
      PassedTail(a, j);
      KeptPosPassed(a[1..], b, j + a[0].len);
    }
  }
}
