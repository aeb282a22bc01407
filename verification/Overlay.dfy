/** What shadow_run_list means for single characters: removed codes are back in
    their places and kept characters in theirs, or the covering run shows. */
module Overlay {
  import opened BidiTypes
  import opened Runs
  import opened Alignment
  import opened Compaction
  import opened Shadow

  // ----- Laid over -----

  /** The last of the first `k` runs of `over` that covers position `x`, or -1. */
  ghost function Cover(over: seq<Run>, k: nat, x: nat): (c: int)
    requires k <= |over|
    ensures -1 <= c < k
    ensures c >= 0 ==> over[c].pos <= x < over[c].pos + over[c].len
    ensures c == -1 ==> forall i | 0 <= i < k :: !(over[i].pos <= x < over[i].pos + over[i].len)
  {
    if k == 0 then -1
    else if over[k - 1].pos <= x < over[k - 1].pos + over[k - 1].len then k - 1
    else Cover(over, k - 1, x)
  }

  /** Without `preserve` a covered character shows the run that covers it, and
      any other stays. */
  lemma {:induction false} OverlayAt(s: seq<Spot>, over: seq<Run>, k: nat, x: nat)
    requires k <= |over| && Fits(over, |s|, false) && x < |s|
    ensures Laid(s, over, false, k)[x] == if Cover(over, k, x) >= 0 then SpotOf(over[Cover(over, k, x)], Sharp)
            else s[x]
  {
    if k > 0 {
      OverlayAt(s, over, k - 1, x);
      LaidNext(s, over, false, k - 1);
    }
  }

  // ----- Woven in -----

  /** One more code at the end. */
  lemma {:induction false} KeptPosLast(codes: seq<Run>, q: Run, j: nat)
    requires forall i | 0 <= i < |codes| :: codes[i].pos <= q.pos
    ensures KeptPos(codes + [q], j) == var v := KeptPos(codes, j); if v < q.pos then v else v + q.len
    decreases |codes|
  {
    if codes == [] {
      assert KeptPos([], j + q.len) == j + q.len;
      assert [q][1..] == [];
    } else {
      assert (codes + [q])[1..] == codes[1..] + [q];
      if j >= codes[0].pos {
        KeptPosLast(codes[1..], q, j + codes[0].len);
      }
    }
  }

  lemma {:induction false} Ordered(over: seq<Run>, n: nat, preserve: bool, i: nat, k: nat)
    requires Fits(over, n, preserve) && i < k < |over|
    ensures over[i].pos + over[i].len <= over[k].pos
    decreases k
  {
    if i < k - 1 {
      Ordered(over, n, preserve, i, k - 1);
    }
  }

  lemma KeptPosNext(over: seq<Run>, n: nat, k: nat, j: nat)
    requires 0 < k <= |over| && Fits(over, n, true)
    ensures var v, q := KeptPos(over[..k - 1], j), over[k - 1];
            KeptPos(over[..k], j) == if v < q.pos then v else v + q.len
  {
    hide Fits;
    hide KeptPos;
    hide Off;
    forall i | 0 <= i < k - 1 ensures over[i].pos <= over[k - 1].pos {
      Ordered(over, n, true, i, k - 1);
    }
    assert over[..k] == over[..k - 1] + [over[k - 1]];
    KeptPosLast(over[..k - 1], over[k - 1], j);
  }

  lemma NoCodesBefore(j: nat)
    ensures KeptPos([], j) == j
  {
  }

  /** With `preserve` kept character number `j` is found at its own position. */
  lemma {:induction false} WovenAt(s: seq<Spot>, over: seq<Run>, k: nat, j: nat)
    requires k <= |over| && Fits(over, |s|, true) && j < |s|
    ensures var x := KeptPos(over[..k], j); x < |Laid(s, over, true, k)| && Laid(s, over, true, k)[x] == s[j]
  {
    hide Fits;
    hide Laid;
    hide KeptPos;
    hide Off;
    if k == 0 {
      assert over[..0] == [];
      NoCodesBefore(j);
      LaidStart(s, over, true);
    } else {
      WovenAt(s, over, k - 1, j);
      KeptPosNext(over, |s|, k, j);
      LaidNext(s, over, true, k - 1);
    }
  }

  /** A code is found where it was taken from. */
  lemma {:induction false} WovenCode(s: seq<Spot>, over: seq<Run>, k: nat, i: nat, x: nat)
    requires i < k <= |over| && Fits(over, |s|, true) && over[i].pos <= x < over[i].pos + over[i].len
    ensures x < |Laid(s, over, true, k)| && Laid(s, over, true, k)[x] == SpotOf(over[i], Sharp)
    decreases k
  {
    LaidNext(s, over, true, k - 1);
    if i < k - 1 {
      WovenCode(s, over, k - 1, i, x);
      Ordered(over, |s|, true, i, k - 1);
    }
    hide Laid;
  }

  /** A position beyond the last code has no code on it. */
  lemma CoverEarlier(over: seq<Run>, n: nat, k: nat, x: nat)
    requires 0 < k <= |over| && Fits(over, n, true) && Cover(over, k, x) < 0
    ensures var q := over[k - 1]; x < q.pos ==> Cover(over, k - 1, x) < 0
    ensures var q := over[k - 1]; x >= q.pos ==> x >= q.pos + q.len && Cover(over, k - 1, x - q.len) < 0
  {
    var q := over[k - 1];
    if x >= q.pos {
      var c := Cover(over, k - 1, x - q.len);
      if c >= 0 {
        Ordered(over, n, true, c, k - 1);
      }
    }
  }

  /** Every position holds a code or a kept character. */
  lemma {:induction false} WovenAll(over: seq<Run>, n: nat, k: nat, x: nat)
    requires k <= |over| && Fits(over, n, true) && x < n + Off(over, k)
    ensures Cover(over, k, x) >= 0 || exists j: nat :: j < n && KeptPos(over[..k], j) == x
  {
    hide KeptPos;
    if k == 0 {
      assert over[..0] == [];
      NoCodesBefore(x);
    } else {
      var q := over[k - 1];
      assert FitsAt(over, n, true, k - 1);
      forall i | 0 <= i < k - 1 ensures over[i].pos <= q.pos {
        Ordered(over, n, true, i, k - 1);
      }
      assert over[..k] == over[..k - 1] + [q];
      if Cover(over, k, x) < 0 {
        var y := if x < q.pos then x else x - q.len;
        CoverEarlier(over, n, k, x);
        WovenAll(over, n, k - 1, y);
        var j: nat :| j < n && KeptPos(over[..k - 1], j) == y;
        KeptPosLast(over[..k - 1], q, j);
      }
    }
  }
}
