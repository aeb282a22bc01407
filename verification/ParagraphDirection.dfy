/** Rules P2 and P3 in the terms of BD9, for the paragraph and for each FSI: the
    counters tell whether a character stands between an isolate initiator and its
    match. */
module ParagraphDirection {
  import opened BidiTypes
  import opened ExplicitRules
  import opened ExplicitLevels
  import opened IsolateMatching

  /** The counter before character `x`. */
  ghost function Depth(types: seq<BidiType>, x: nat): nat
    requires x <= |types|
  {
    if x == 0 then 0
    else
      var d, t := Depth(types, x - 1), types[x - 1];
      if t.PDI? then (if d > 0 then d - 1 else 0) else if t.IsInitiator() then d + 1 else d
  }

  /** Every isolate opened before `x` is closed by its matching PDI before `x`. */
  ghost predicate Outside(types: seq<BidiType>, x: nat)
    requires x <= |types|
  {
    forall i | 0 <= i < x && types[i].IsInitiator() :: exists j | 0 <= j < x :: Matches(types, i, j)
  }

  lemma {:induction false} BalanceSplit(types: seq<BidiType>, a: nat, b: nat, c: nat)
    requires a <= b <= c <= |types|
    ensures Balance(types, a, c) == Balance(types, a, b) + Balance(types, b, c)
    decreases c
  {
    hide Nesting;
    if b < c {
      BalanceSplit(types, a, b, c - 1);
    }
  }

  /** The counter is the highest balance of any part of the text up to `x`. */
  lemma {:induction false} DepthAbove(types: seq<BidiType>, a: nat, x: nat)
    requires a <= x <= |types|
    ensures Balance(types, a, x) <= Depth(types, x)
    decreases x
  {
    if a < x {
      DepthAbove(types, a, x - 1);
    }
  }

  lemma {:induction false} DepthReached(types: seq<BidiType>, x: nat) returns (a: nat)
    requires x <= |types|
    ensures a <= x && Balance(types, a, x) == Depth(types, x)
  {
    a := x;
    if x > 0 && Depth(types, x) > 0 {
      a := DepthReached(types, x - 1);
    }
  }

  /** The balance falls below zero for the first time at a matching PDI. */
  lemma {:induction false} FirstFall(types: seq<BidiType>, i: nat, x: nat) returns (j: nat)
    requires i < x <= |types| && types[i].IsInitiator() && Balance(types, i + 1, x) < 0
    ensures j < x && Matches(types, i, j)
    decreases x
  {
    var a := i + 1;
    if k: nat :| a <= k < x && Balance(types, a, k) < 0 {
      j := FirstFall(types, i, k);
    } else {
      j := x - 1;
    }
  }

  /** A match that comes in time leaves an open part behind it. */
  lemma MatchLeaves(types: seq<BidiType>, i: nat, j: nat, x: nat)
    requires Matches(types, i, j) && j < x <= |types|
    ensures Balance(types, i, x) == Balance(types, j + 1, x)
  {
    BalanceSplit(types, i, i + 1, x);
    BalanceSplit(types, i + 1, j + 1, x);
    assert Balance(types, i, i) == 0;
  }

  /** A part that opens more than it closes starts, at the latest, with an
      initiator that has no match in it. */
  lemma {:induction false} OpenAt(types: seq<BidiType>, a: nat, x: nat) returns (i: nat)
    requires a <= x <= |types| && Balance(types, a, x) > 0
    ensures a <= i < x && types[i].IsInitiator() && Balance(types, i + 1, x) == 0 && NeverNegative(types, i + 1, x)
    ensures forall j | 0 <= j < x :: !Matches(types, i, j)
    decreases x - a
  {
    if b: nat :| a < b <= x && Balance(types, b, x) > 0 {
      i := OpenAt(types, b, x);
    } else {
      i := a;
      BalanceSplit(types, a, a + 1, x);
      assert Balance(types, a, a) == 0;
      var b := a + 1;
      forall k | b <= k <= x ensures Balance(types, b, k) >= 0 {
        BalanceSplit(types, b, k, x);
      }
      forall j | 0 <= j < x ensures !Matches(types, i, j) {
        if Matches(types, i, j) {
          MatchLeaves(types, i, j, x);
        }
      }
    }
  }

  lemma InitiatorOpens(types: seq<BidiType>, i: nat, x: nat)
    requires i < x <= |types| && types[i].IsInitiator()
    ensures Balance(types, i, x) == Balance(types, i + 1, x) + 1
  {
    BalanceSplit(types, i, i + 1, x);
    assert Balance(types, i, i) == 0;
  }

  /** The counter is zero exactly outside all isolates. */
  lemma DepthZero(types: seq<BidiType>, x: nat)
    requires x <= |types|
    ensures Depth(types, x) == 0 <==> Outside(types, x)
  {
    hide Depth;
    hide Matches;
    if Depth(types, x) > 0 {
      var a := DepthReached(types, x);
      var i := OpenAt(types, a, x);
      assert !(exists j | 0 <= j < x :: Matches(types, i, j));
    } else {
      forall i | 0 <= i < x && types[i].IsInitiator() ensures exists j | 0 <= j < x :: Matches(types, i, j) {
        DepthAbove(types, i, x);
        InitiatorOpens(types, i, x);
        var j := FirstFall(types, i, x);
      }
    }
  }

  /** A letter that P2 does not skip. */
  ghost predicate Leads(types: seq<BidiType>, x: nat)
    requires x < |types|
  {
    types[x] in {LTR, RTL, AL} && Outside(types, x)
  }

  /** The first such letter from `x` on, or -1. */
  lemma {:induction false} FirstLetterFrom(types: seq<BidiType>, x: nat) returns (y: int)
    requires x <= |types|
    ensures y == -1 || x <= y < |types|
    ensures FirstLetter(types[x..], Depth(types, x)) == if y == -1 then -1 else if types[y] == LTR then 0 else 1
    ensures y >= 0 ==> Leads(types, y)
    ensures forall z | x <= z < |types| && (y == -1 || z < y) :: !Leads(types, z)
    decreases |types| - x
  {
    hide Outside;
    y := -1;
    if x < |types| {
      DepthZero(types, x);
      assert types[x..][1..] == types[x + 1..];
      if Leads(types, x) {
        y := x;
      } else {
        y := FirstLetterFrom(types, x + 1);
      }
    }
  }

  /** P2 and P3: the paragraph takes its level from the first letter that is not
      between an isolate initiator and its matching PDI, nor after an initiator
      without one; if there is no such letter there is no level. */
  lemma FirstLetterLeads(types: seq<BidiType>)
    ensures FirstLetter(types, 0) == -1 <==> forall x | 0 <= x < |types| :: !Leads(types, x)
    ensures forall x | 0 <= x < |types| && Leads(types, x) && (forall y | 0 <= y < x :: !Leads(types, y)) ::
              FirstLetter(types, 0) == if types[x] == LTR then 0 else 1
  {
    hide Leads;
    assert types[0..] == types;
    var y := FirstLetterFrom(types, 0);
    forall x | 0 <= x < |types| && Leads(types, x) && (forall z | 0 <= z < x :: !Leads(types, z)) ensures x == y {
    }
  }

  // ----- The same for an FSI -----

  /** A letter that P2 does not skip in the text that starts at `a`. */
  ghost predicate LeadsFrom(types: seq<BidiType>, a: nat, x: nat)
    requires x < |types|
  {
    types[x] in {LTR, RTL, AL} && forall i | a <= i < x && types[i].IsInitiator() ::
        exists j | 0 <= j < x :: Matches(types, i, j)
  }

  /** The isolate opened at `i` is not closed before `x`. */
  ghost predicate StillOpen(types: seq<BidiType>, i: nat, x: nat) {
    forall j | 0 <= j < x :: !Matches(types, i, j)
  }

  /** As long as a part never closes more than it opens, it is balanced exactly
      where every isolate opened in it is closed. */
  lemma BalancedClosed(types: seq<BidiType>, a: nat, x: nat)
    requires a <= x < |types| && NeverNegative(types, a, x) && types[x].IsLetter()
    ensures LeadsFrom(types, a, x) <==> Balance(types, a, x) == 0
  {
    if Balance(types, a, x) > 0 {
      var i := OpenAt(types, a, x);
      assert !(exists j | 0 <= j < x :: Matches(types, i, j));
    } else {
      forall i | a <= i < x && types[i].IsInitiator() ensures exists j | 0 <= j < x :: Matches(types, i, j) {
        BalanceSplit(types, a, i, x);
        InitiatorOpens(types, i, x);
        var j := FirstFall(types, i, x);
      }
    }
  }

  lemma FallsAt(types: seq<BidiType>, i: nat, j: nat)
    requires Matches(types, i, j)
    ensures Balance(types, i + 1, j + 1) == -1
  {
  }

  lemma OpenStays(types: seq<BidiType>, i: nat, x: nat)
    requires i < x <= |types| && NeverNegative(types, i + 1, x)
    ensures StillOpen(types, i, x)
  {
    forall j | 0 <= j < x ensures !Matches(types, i, j) {
      if Matches(types, i, j) {
        FallsAt(types, i, j);
      }
    }
  }

  /** The first letter that counts for the isolate opened at `i`, up to `e`. */
  ghost predicate FirstIn(types: seq<BidiType>, i: nat, e: nat, y: int)
    requires i < e <= |types|
  {
    && (y == -1 || (i < y < e && StillOpen(types, i, y) && LeadsFrom(types, i + 1, y)))
    && forall z | i < z < e && (y == -1 || z < y) && StillOpen(types, i, z) :: !LeadsFrom(types, i + 1, z)
  }

  lemma FirstLater(types: seq<BidiType>, i: nat, e: nat, y: int)
    requires i < e < |types| && FirstIn(types, i, e, y)
    requires y >= 0 || !StillOpen(types, i, e) || !LeadsFrom(types, i + 1, e)
    ensures FirstIn(types, i, e + 1, y)
  {
  }

  lemma FirstHere(types: seq<BidiType>, i: nat, e: nat)
    requires i + 1 < e <= |types| && FirstIn(types, i, e - 1, -1)
    requires StillOpen(types, i, e - 1) && LeadsFrom(types, i + 1, e - 1)
    ensures FirstIn(types, i, e, e - 1)
  {
  }

  lemma NoLetter(types: seq<BidiType>, a: nat, x: nat)
    requires x < |types| && !types[x].IsLetter()
    ensures !LeadsFrom(types, a, x)
  {
  }

  lemma Fallen(types: seq<BidiType>, i: nat, e: nat)
    requires i + 1 < e <= |types| && types[i].IsInitiator() && types[e - 1].PDI?
    requires Balance(types, i + 1, e - 1) == 0 && NeverNegative(types, i + 1, e - 1)
    ensures !StillOpen(types, i, e)
  {
    assert Matches(types, i, e - 1);
  }

  lemma StaysClosed(types: seq<BidiType>, i: nat, x: nat)
    ensures !StillOpen(types, i, x) ==> !StillOpen(types, i, x + 1)
  {
  }

  lemma {:induction false} ScanMeans(types: seq<BidiType>, i: nat, e: nat) returns (y: int)
    requires i < e <= |types| && types[i].IsInitiator()
    ensures FirstIn(types, i, e, y)
    ensures match ScanFrom(types, i + 1, e)
            case Open(d) => y == -1 && d == Balance(types, i + 1, e) && NeverNegative(types, i + 1, e)
            case Closed => y == -1 && !StillOpen(types, i, e)
            case Found(level) => y >= 0 && level == if types[y] == LTR then 0 else 1
    decreases e
  {
    hide StillOpen;
    hide LeadsFrom;
    y := -1;
    if e > i + 1 {
      y := ScanMeans(types, i, e - 1);
      var t, st := types[e - 1], ScanFrom(types, i + 1, e - 1);
      if st.Open? {
        OpenStays(types, i, e - 1);
        if t.PDI? && st.depth == 0 {
          Fallen(types, i, e);
        }
        if t.IsLetter() {
          BalancedClosed(types, i + 1, e - 1);
        } else {
          NoLetter(types, i + 1, e - 1);
        }
        if t.IsLetter() && st.depth == 0 {
          FirstHere(types, i, e);
          y := e - 1;
        } else {
          FirstLater(types, i, e - 1, y);
        }
      } else {
        StaysClosed(types, i, e - 1);
        FirstLater(types, i, e - 1, y);
      }
    }
  }

  /** X5c: an FSI takes the direction of the first letter after it that comes
      before its matching PDI, if it has one, and is outside all isolates opened
      in between; left-to-right if there is none. */
  lemma FsiLeads(types: seq<BidiType>, i: nat) returns (y: int)
    requires i < |types| && types[i].IsInitiator()
    ensures FirstIn(types, i, |types|, y)
    ensures FsiLevel(types, i) == if y == -1 || types[y] == LTR then 0 else 1
  {
    hide FirstIn;
    hide ScanFrom;
    y := ScanMeans(types, i, |types|);
  }
}
