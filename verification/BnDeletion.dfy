/** A boundary neutral (BN) is invisible: the rest of the paragraph gets the same
    levels whether the character is there or not. */
module BnDeletion {
  import opened BidiTypes
  import opened Runs
  import Compaction
  import opened ExplicitRules
  import opened ExplicitState
  import opened ExplicitLevels
  import opened ExplicitPhase
  import opened Resolution
  import opened TextLevels
  import opened KeptRuns
  import opened ImplicitLevels
  import opened FinalLevels

  /** Where a character stands when the one at `b` is still there. */
  function Up(b: nat, i: nat): nat { if i < b then i else i + 1 }

  function Without<T>(s: seq<T>, b: nat): (r: seq<T>)
    requires b < |s|
    ensures |r| == |s| - 1 && forall i | 0 <= i < |r| :: r[i] == s[Up(b, i)]
  {
    s[..b] + s[b + 1..]
  }

  // ----- The explicit phase -----

  lemma ScanOver(types: seq<BidiType>, start: nat, b: nat)
    requires start <= b < |types| && types[b].BN?
    ensures ScanFrom(types, start, b + 1) == ScanFrom(types, start, b)
  {
  }

  lemma {:induction false} ScanWithout(types: seq<BidiType>, b: nat, start: nat, end: nat)
    requires b < |types| && types[b].BN? && start <= end < |types|
    ensures ScanFrom(Without(types, b), start, end)
            == ScanFrom(types, if start <= b then start else start + 1, Up(b, end))
    decreases end
  {
    hide ScanStep;
    if start <= b {
      ScanOver(types, start, b);
    }
    if start < end {
      ScanWithout(types, b, start, end - 1);
    }
  }

  lemma FsiWithout(types: seq<BidiType>, b: nat, i: nat)
    requires b < |types| && types[b].BN? && i < |types| - 1
    ensures FsiLevel(Without(types, b), i) == FsiLevel(types, Up(b, i))
  {
    hide ScanFrom;
    var n := |types|;
    ScanWithout(types, b, i + 1, n - 1);
    if b == n - 1 {
      ScanOver(types, i + 1, b);
    }
  }

  lemma BeforeOver(types: seq<BidiType>, base: nat, b: nat)
    requires b < |types| && types[b].BN?
    ensures Before(types, base, b + 1) == Before(types, base, b)
  {
    hide FsiLevel;
  }

  lemma {:induction false} BeforeWithout(types: seq<BidiType>, base: nat, b: nat, i: nat)
    requires b < |types| && types[b].BN? && i < |types|
    ensures Before(Without(types, b), base, i) == Before(types, base, Up(b, i))
    decreases i
  {
    hide FsiLevel;
    hide Step;
    BeforeOver(types, base, b);
    if i > 0 {
      BeforeWithout(types, base, b, i - 1);
      FsiWithout(types, b, i - 1);
    }
  }

  lemma ResultWithout(types: seq<BidiType>, base: nat, b: nat, i: nat)
    requires b < |types| && types[b].BN? && i < |types| - 1
    ensures Result(Without(types, b), base, i) == Result(types, base, Up(b, i))
  {
    hide Before;
    BeforeWithout(types, base, b, i);
    BeforeWithout(types, base, b, i + 1);
    BeforeOver(types, base, b);
  }

  lemma ShallowWithout(types: seq<BidiType>, base: nat, b: nat)
    requires b < |types| && types[b].BN? && Shallow(types, base)
    ensures Shallow(Without(types, b), base)
  {
    hide Before;
    forall i | 0 <= i <= |Without(types, b)|
      ensures Before(Without(types, b), base, i).validIsolates <= MAX_ISOLATE_LEVEL {
      BeforeWithout(types, base, b, i);
    }
  }

  /** P2 and P3 pass over it too. */
  lemma {:induction false} LetterWithout(types: seq<BidiType>, b: nat, depth: nat)
    requires b < |types| && types[b].BN?
    ensures FirstLetter(Without(types, b), depth) == FirstLetter(types, depth)
    decreases |types|
  {
    if b == 0 {
      assert Without(types, b) == types[1..];
    } else {
      var t := types[0];
      assert Without(types, b)[1..] == Without(types[1..], b - 1);
      LetterWithout(types[1..], b - 1,
                    if t.PDI? then (if depth > 0 then depth - 1 else 0) else if t.IsInitiator() then depth + 1
                      else depth);
    }
  }

  // ----- The kept text -----

  lemma TextOver(types: seq<BidiType>, brackets: seq<Bracket>, base: nat, b: nat)
    requires b < |types| == |brackets| && types[b].BN?
    ensures KeptText(types, brackets, base, b + 1) == KeptText(types, brackets, base, b)
  {
    hide Before;
  }

  lemma SpotWithout(types: seq<BidiType>, brackets: seq<Bracket>, base: nat, b: nat, i: nat)
    requires b < |types| == |brackets| && types[b].BN? && i < |types| - 1
    ensures SpotAtX(Without(types, b), Without(brackets, b), base, i) == SpotAtX(types, brackets, base, Up(b, i))
  {
    hide Result;
    hide Without;
    ResultWithout(types, base, b, i);
  }

  lemma {:induction false} TextWithout(types: seq<BidiType>, brackets: seq<Bracket>, base: nat, b: nat, i: nat)
    requires b < |types| == |brackets| && types[b].BN? && i < |types|
    ensures KeptText(Without(types, b), Without(brackets, b), base, i) == KeptText(types, brackets, base, Up(b, i))
    decreases i
  {
    hide SpotAtX;
    hide Without;
    TextOver(types, brackets, base, b);
    if i > 0 {
      TextWithout(types, brackets, base, b, i - 1);
      SpotWithout(types, brackets, base, b, i - 1);
    }
  }

  lemma WholeWithout(types: seq<BidiType>, brackets: seq<Bracket>, base: nat, b: nat)
    requires b < |types| == |brackets| && types[b].BN? && Shallow(types, base)
    ensures Shallow(Without(types, b), base)
    ensures Directions(Without(types, b), Without(brackets, b), base) == Directions(types, brackets, base)
  {
    hide Before;
    hide Without;
    hide Shallow;
    hide StagesOf;
    hide Compaction.Spots;
    ShallowWithout(types, base, b);
    TextWithout(types, brackets, base, b, |types| - 1);
    TextOver(types, brackets, base, b);
  }

  // ----- The levels -----

  lemma BnRemoved(types: seq<BidiType>, base: nat, b: nat)
    requires b < |types| && types[b].BN?
    ensures Result(types, base, b).Removed?
  {
  }

  lemma {:induction false} LevelWithout(types: seq<BidiType>, brackets: seq<Bracket>, base: nat, b: nat, x: nat)
    requires b < |types| == |brackets| && types[b].BN? && Shallow(types, base) && x < |types| - 1
    ensures Shallow(Without(types, b), base)
    ensures LevelBefore(Without(types, b), Without(brackets, b), base, x)
            == LevelBefore(types, brackets, base, Up(b, x))
    decreases x
  {
    hide Result;
    hide Shallow;
    hide Without;
    hide Directions;
    hide KeptText;
    hide Implicit;
    WholeWithout(types, brackets, base, b);
    TextWithout(types, brackets, base, b, x);
    ResultWithout(types, base, b, x);
    assert Result(types, base, b).Removed? by { BnRemoved(types, base, b); }
    if x > 0 {
      LevelWithout(types, brackets, base, b, x - 1);
    }
  }

  lemma {:induction false} ResetsWithout(types: seq<BidiType>, b: nat, x: nat)
    requires b < |types| && types[b].BN? && x < |types| - 1
    ensures Resets(Without(types, b), x) == Resets(types, Up(b, x))
    decreases |types| - x
  {
    hide Without;
    assert Resets(types, b) == (b + 1 == |types| || Resets(types, b + 1));
    if x + 1 < |types| - 1 {
      ResetsWithout(types, b, x + 1);
    }
  }

  /** Deleting a BN character changes no other character's level. */
  lemma DeletingBn(types: seq<BidiType>, brackets: seq<Bracket>, strong: bool, fallback: nat, b: nat)
    requires b < |types| == |brackets| && types[b].BN? && Shallow(types, BaseLevel(types, strong, fallback))
    ensures BaseLevel(Without(types, b), strong, fallback) == BaseLevel(types, strong, fallback)
    ensures var base := BaseLevel(types, strong, fallback);
            && Shallow(Without(types, b), base)
            && ParLevels(Without(types, b), Without(brackets, b), base) == Without(ParLevels(types, brackets, base), b)
  {
    hide Shallow;
    hide Without;
    hide LevelBefore;
    hide Resets;
    hide FirstLetter;
    var base := BaseLevel(types, strong, fallback);
    LetterWithout(types, b, 0);
    ShallowWithout(types, base, b);
    var a, c := ParLevels(Without(types, b), Without(brackets, b), base), Without(ParLevels(types, brackets, base), b);
    forall x | 0 <= x < |types| - 1 ensures a[x] == c[x] {
      LevelWithout(types, brackets, base, b, x);
      ResetsWithout(types, b, x);
    }
  }
}
