/** The seven passes of WeakRules told by positions: what a character has to have
    on which side, in its own level run, to change. */
module WeakMeaning {
  import opened BidiTypes
  import opened WeakRules
  import opened WeakProof2

  /** Positions `q` to `i` are in one level run. */
  ghost predicate SameRun(ls: seq<int>, q: nat, i: nat) {
    q <= i < |ls| && forall m | q <= m <= i :: ls[m] == ls[i]
  }

  /** The direction at the start of the level run that starts at `q` (X10). */
  ghost function Entry(ls: seq<int>, base: nat, q: nat): BidiType
    requires q < |ls|
  {
    var outside := if q == 0 then base else ls[q - 1];
    if (if outside > ls[q] then outside else ls[q]) % 2 == 1 then RTL else LTR
  }

  // ----- W1 -----

  /** A mark takes the type of the nearest character before it that is no mark. */
  lemma {:induction false} MarksTakeBase(ks: seq<BidiType>, ls: seq<int>, base: nat, q: nat, i: nat)
    requires |ks| == |ls| && SameRun(ls, q, i) && !ks[q].NSM? && forall m | q < m <= i :: ks[m].NSM?
    ensures W1(ks, ls, base)[i] == ks[q]
    decreases i
  {
    if q < i {
      MarksTakeBase(ks, ls, base, q, i - 1);
    }
  }

  /** Marks at the start of the level run take the direction there. */
  lemma {:induction false} MarksAtStart(ks: seq<BidiType>, ls: seq<int>, base: nat, q: nat, i: nat)
    requires |ks| == |ls| && SameRun(ls, q, i) && (q == 0 || ls[q - 1] != ls[q]) && forall m | q <= m <= i :: ks[m].NSM?
    ensures W1(ks, ls, base)[i] == Entry(ls, base, q)
    decreases i
  {
    if q < i {
      MarksAtStart(ks, ls, base, q, i - 1);
    }
  }

  // ----- W2 and W7 -----

  /** R, L or AL; embedding codes count as strong too, but X9 has removed them. */
  ghost predicate NoneStrong(ks: seq<BidiType>, a: nat, b: nat)
    requires b <= |ks|
  {
    forall m | a <= m < b :: ks[m] !in {LTR, RTL, AL} && !ks[m].IsExplicitOrBn()
  }

  lemma {:induction false} NearestStrong(ks: seq<BidiType>, ls: seq<int>, base: nat, q: nat, i: nat)
    requires |ks| == |ls| && q < i && SameRun(ls, q, i) && ks[q] in {LTR, RTL, AL} && NoneStrong(ks, q + 1, i)
    ensures Strong(ks, ls, base, i) == ks[q]
    decreases i
  {
    if q < i - 1 {
      NearestStrong(ks, ls, base, q, i - 1);
    }
  }

  lemma {:induction false} NoStrong(ks: seq<BidiType>, ls: seq<int>, base: nat, q: nat, i: nat)
    requires |ks| == |ls| && SameRun(ls, q, i) && (q == 0 || ls[q - 1] != ls[q])
             && NoneStrong(ks, q, i)
    ensures Strong(ks, ls, base, i) == Entry(ls, base, q)
    decreases i
  {
    if q < i {
      NoStrong(ks, ls, base, q, i - 1);
    }
  }

  /** The nearest strong type before a European number decides: after AL it turns
      into an Arabic number, after L into a letter. */
  lemma NumbersAfterStrong(ks: seq<BidiType>, ls: seq<int>, base: nat, q: nat, i: nat)
    requires |ks| == |ls| && q < i && SameRun(ls, q, i) && ks[q] in {LTR, RTL, AL} && NoneStrong(ks, q + 1, i)
    ensures W2(ks, ls, base)[i] == if ks[i].EN? && ks[q].AL? then AN else ks[i]
    ensures W7(ks, ls, base)[i] == if ks[i].EN? && ks[q].LTR? then LTR else ks[i]
  {
    NearestStrong(ks, ls, base, q, i);
  }

  /** Without one, the direction at the start of the level run decides. */
  lemma NumbersAtStart(ks: seq<BidiType>, ls: seq<int>, base: nat, q: nat, i: nat)
    requires |ks| == |ls| && SameRun(ls, q, i) && (q == 0 || ls[q - 1] != ls[q])
             && NoneStrong(ks, q, i)
    ensures W2(ks, ls, base)[i] == ks[i]
    ensures W7(ks, ls, base)[i] == if ks[i].EN? && Entry(ls, base, q).LTR? then LTR else ks[i]
  {
    NoStrong(ks, ls, base, q, i);
  }

  // ----- W4, and W3 and W6 -----

  /** A single separator between two numbers of one kind: ES takes EN only, CS
      either. */
  lemma SeparatorsBetween(ks: seq<BidiType>, ls: seq<int>, i: nat)
    requires |ks| == |ls| && i < |ks|
    ensures W4(ks, ls)[i] ==
              if 0 < i < |ks| - 1 && ls[i - 1] == ls[i] == ls[i + 1] && ks[i - 1] == ks[i + 1]
                 && ((ks[i] == ES && ks[i - 1] == EN) || (ks[i] == CS && ks[i - 1] in {EN, AN}))
              then ks[i - 1] else ks[i]
  {
    W4Simple(ks, ls, i);
  }

  lemma PlainChanges(ks: seq<BidiType>, i: nat)
    requires i < |ks|
    ensures W3(ks)[i] == if ks[i] == AL then RTL else ks[i]
    ensures W6(ks)[i] == if ks[i] in {ES, ET, CS} then ON else ks[i]
  {
  }

  // ----- W5 -----

  /** A European number at `q`, and nothing but terminators from there to `i`. */
  ghost predicate NumberLeft(ks: seq<BidiType>, ls: seq<int>, q: nat, i: nat)
    requires |ks| == |ls|
  {
    q < i && SameRun(ls, q, i) && ks[q].EN? && forall m | q < m < i :: ks[m].ET?
  }

  ghost predicate NumberRight(ks: seq<BidiType>, ls: seq<int>, i: nat, q: nat)
    requires |ks| == |ls|
  {
    i < q && SameRun(ls, i, q) && ks[q].EN? && forall m | i < m < q :: ks[m].ET?
  }

  lemma {:induction false} EnBeforeMeans(ks: seq<BidiType>, ls: seq<int>, i: nat)
    requires |ks| == |ls| && i < |ks|
    ensures EnBefore(ks, ls, i) <==> exists q: nat :: NumberLeft(ks, ls, q, i)
    decreases i
  {
    if i > 0 && ls[i - 1] == ls[i] {
      EnBeforeMeans(ks, ls, i - 1);
      if ks[i - 1].EN? {
        assert NumberLeft(ks, ls, i - 1, i);
      } else if EnBefore(ks, ls, i) {
        var q: nat :| NumberLeft(ks, ls, q, i - 1);
        assert NumberLeft(ks, ls, q, i);
      } else if q: nat :| NumberLeft(ks, ls, q, i) {
        assert NumberLeft(ks, ls, q, i - 1);
      }
    }
  }

  lemma {:induction false} EnAfterMeans(ks: seq<BidiType>, ls: seq<int>, i: nat)
    requires |ks| == |ls| && i < |ks|
    ensures EnAfter(ks, ls, i) <==> exists q: nat :: NumberRight(ks, ls, i, q)
    decreases |ks| - i
  {
    if i + 1 < |ks| && ls[i + 1] == ls[i] {
      EnAfterMeans(ks, ls, i + 1);
      if ks[i + 1].EN? {
        assert NumberRight(ks, ls, i, i + 1);
      } else if EnAfter(ks, ls, i) {
        var q: nat :| NumberRight(ks, ls, i + 1, q);
        assert NumberRight(ks, ls, i, q);
      } else if q: nat :| NumberRight(ks, ls, i, q) {
        assert NumberRight(ks, ls, i + 1, q);
      }
    }
  }

  /** A terminator becomes a European number when one is next to its sequence of
      terminators, on either side. */
  lemma TerminatorsBeside(ks: seq<BidiType>, ls: seq<int>, i: nat)
    requires |ks| == |ls| && i < |ks|
    ensures W5(ks, ls)[i] ==
              if ks[i] == ET
                 && ((exists q: nat :: NumberLeft(ks, ls, q, i)) || (exists q: nat :: NumberRight(ks, ls, i, q)))
              then EN else ks[i]
  {
    hide EnBefore;
    hide EnAfter;
    EnBeforeMeans(ks, ls, i);
    EnAfterMeans(ks, ls, i);
  }

  // ----- Isolate characters count as neutrals -----

  function Neutralized(ks: seq<BidiType>): (r: seq<BidiType>)
    ensures |r| == |ks| && forall i | 0 <= i < |ks| :: r[i] == if ks[i].IsIsolate() then ON else ks[i]
  {
    seq(|ks|, i requires 0 <= i < |ks| => if ks[i].IsIsolate() then ON else ks[i])
  }

  lemma {:induction false} W1Neutral(ks: seq<BidiType>, ls: seq<int>, base: nat, i: nat)
    requires |ks| == |ls| && i < |ks|
    ensures W1(Neutralized(ks), ls, base)[i] == Neutralized(W1(ks, ls, base))[i]
  {
    if ks[i].NSM? && !Starts(ls, i) {
      W1Neutral(ks, ls, base, i - 1);
    }
  }

  lemma {:induction false} StrongNeutral(ks: seq<BidiType>, ls: seq<int>, base: nat, i: nat)
    requires |ks| == |ls| && i < |ks|
    ensures Strong(Neutralized(ks), ls, base, i) == Strong(ks, ls, base, i)
  {
    if !Starts(ls, i) && !ks[i - 1].IsStrong() {
      StrongNeutral(ks, ls, base, i - 1);
    }
  }

  lemma {:induction false} BeforeNeutral(ks: seq<BidiType>, ls: seq<int>, i: nat)
    requires |ks| == |ls| && i < |ks|
    ensures EnBefore(Neutralized(ks), ls, i) <==> EnBefore(ks, ls, i)
  {
    if !Starts(ls, i) {
      BeforeNeutral(ks, ls, i - 1);
    }
  }

  lemma {:induction false} AfterNeutral(ks: seq<BidiType>, ls: seq<int>, i: nat)
    requires |ks| == |ls| && i < |ks|
    ensures EnAfter(Neutralized(ks), ls, i) <==> EnAfter(ks, ls, i)
    decreases |ks| - i
  {
    if FollowsOn(ls, i) {
      AfterNeutral(ks, ls, i + 1);
    }
  }

  lemma Passes1And2Neutral(ks: seq<BidiType>, ls: seq<int>, base: nat)
    requires |ks| == |ls|
    ensures W1(Neutralized(ks), ls, base) == Neutralized(W1(ks, ls, base))
    ensures W2(Neutralized(ks), ls, base) == Neutralized(W2(ks, ls, base))
    ensures W7(Neutralized(ks), ls, base) == Neutralized(W7(ks, ls, base))
  {
    hide Strong;
    hide W1At;
    forall i | 0 <= i < |ks|
      ensures W1(Neutralized(ks), ls, base)[i] == Neutralized(W1(ks, ls, base))[i]
      ensures W2(Neutralized(ks), ls, base)[i] == Neutralized(W2(ks, ls, base))[i]
      ensures W7(Neutralized(ks), ls, base)[i] == Neutralized(W7(ks, ls, base))[i] {
      W1Neutral(ks, ls, base, i);
      StrongNeutral(ks, ls, base, i);
    }
  }

  lemma Passes3To6Neutral(ks: seq<BidiType>, ls: seq<int>)
    requires |ks| == |ls|
    ensures W3(Neutralized(ks)) == Neutralized(W3(ks)) && W6(Neutralized(ks)) == Neutralized(W6(ks))
    ensures W4(Neutralized(ks), ls) == Neutralized(W4(ks, ls)) && W5(Neutralized(ks), ls) == Neutralized(W5(ks, ls))
  {
    hide W4At;
    hide EnBefore;
    hide EnAfter;
    forall i | 0 <= i < |ks|
      ensures W4(Neutralized(ks), ls)[i] == Neutralized(W4(ks, ls))[i]
      ensures W5(Neutralized(ks), ls)[i] == Neutralized(W5(ks, ls))[i] {
      W4Simple(ks, ls, i);
      W4Simple(Neutralized(ks), ls, i);
      BeforeNeutral(ks, ls, i);
      AfterNeutral(ks, ls, i);
    }
  }

  /** A mark after an isolate character takes its type here and ON in W1 as the
      standard words it: the passes do not tell the two apart. */
  lemma IsolatesCountAsNeutral(ks: seq<BidiType>, ls: seq<int>, base: nat)
    requires |ks| == |ls|
    ensures Weak(Neutralized(ks), ls, base) == Neutralized(Weak(ks, ls, base))
  {
    hide W1;
    hide W2;
    hide W3;
    hide W4;
    hide W5;
    hide W6;
    hide W7;
    hide Neutralized;
    var k1 := W1(ks, ls, base);
    Passes1And2Neutral(ks, ls, base);
    Passes1And2Neutral(k1, ls, base);
    var k2 := W2(k1, ls, base);
    Passes3To6Neutral(k2, ls);
    var k3 := W3(k2);
    Passes3To6Neutral(k3, ls);
    var k4 := W4(k3, ls);
    Passes3To6Neutral(k4, ls);
    var k5 := W5(k4, ls);
    Passes3To6Neutral(k5, ls);
    Passes1And2Neutral(W6(k5), ls, base);
  }
}
