/** Rule L2 of UAX #9 as the standard states it, and the algebra of that
    definition that a one-pass implementation relies on. */
module LineOrder {
  /** A character of the line: its resolved level and its logical position. */
  datatype Glyph = Glyph(level: nat, pos: nat)

  function Reverse<T>(s: seq<T>): (r: seq<T>)
    ensures |r| == |s|
  {
    if s == [] then [] else Reverse(s[1..]) + [s[0]]
  }

  ghost predicate AllAtLeast(line: seq<Glyph>, level: nat) {
    forall i | 0 <= i < |line| :: line[i].level >= level
  }

  ghost predicate AllBelow(line: seq<Glyph>, level: nat) {
    forall i | 0 <= i < |line| :: line[i].level < level
  }

  /** Length of the longest prefix at `level` or higher. */
  function StretchLength(line: seq<Glyph>, level: nat): (n: nat)
    ensures n <= |line|
    ensures forall i | 0 <= i < n :: line[i].level >= level
    ensures n < |line| ==> line[n].level < level
  {
    if line == [] || line[0].level < level then 0
    else 1 + StretchLength(line[1..], level)
  }

  /** One step of L2: reverse every maximal stretch at `level` or higher. */
  function ReverseStretches(line: seq<Glyph>, level: nat): (r: seq<Glyph>)
    ensures |r| == |line|
    decreases |line|
  {
    if line == [] then []
    else if line[0].level < level then [line[0]] + ReverseStretches(line[1..], level)
    else
      var n := StretchLength(line, level);
      Reverse(line[..n]) + ReverseStretches(line[n..], level)
  }

  /** L2: reverse at `top`, then at `top - 1`, and so on down to level 1. */
  function L2(line: seq<Glyph>, top: nat): (r: seq<Glyph>)
    ensures |r| == |line|
    decreases top
  {
    if top == 0 then line else L2(ReverseStretches(line, top), top - 1)
  }

  lemma {:induction false} ReverseAt<T>(s: seq<T>, i: nat)
    requires i < |s|
    ensures Reverse(s)[i] == s[|s| - 1 - i]
  {
    if i < |s| - 1 {
      ReverseAt(s[1..], i);
    }
  }

  lemma {:induction false} ReverseConcat<T>(a: seq<T>, b: seq<T>)
    ensures Reverse(a + b) == Reverse(b) + Reverse(a)
  {
    if a == [] {
      assert a + b == b;
    } else {
      assert (a + b)[1..] == a[1..] + b;
      ReverseConcat(a[1..], b);
    }
  }

  lemma {:induction false} ReverseTwice<T>(s: seq<T>)
    ensures Reverse(Reverse(s)) == s
  {
    if s != [] {
      ReverseTwice(s[1..]);
      ReverseConcat(Reverse(s[1..]), [s[0]]);
      assert Reverse([s[0]]) == [s[0]];
      assert s == [s[0]] + s[1..];
    }
  }

  lemma {:induction false} ReverseMultiset<T>(s: seq<T>)
    ensures multiset(Reverse(s)) == multiset(s)
  {
    if s != [] {
      ReverseMultiset(s[1..]);
      assert s == [s[0]] + s[1..];
    }
  }

  lemma {:induction false} ReverseStretchesMultiset(line: seq<Glyph>, level: nat)
    ensures multiset(ReverseStretches(line, level)) == multiset(line)
    decreases |line|
  {
    hide StretchLength;
    hide Reverse;
    if line == [] {
    } else if line[0].level < level {
      ReverseStretchesMultiset(line[1..], level);
      assert line == [line[0]] + line[1..];
    } else {
      var n := StretchLength(line, level);
      ReverseMultiset(line[..n]);
      ReverseStretchesMultiset(line[n..], level);
      assert line == line[..n] + line[n..];
    }
  }

  /** L2 only moves characters: none is lost, none is doubled. */
  lemma {:induction false} L2Multiset(line: seq<Glyph>, top: nat)
    ensures multiset(L2(line, top)) == multiset(line)
    decreases top
  {
    hide StretchLength;
    hide Reverse;
    hide ReverseStretches;
    if top > 0 {
      ReverseStretchesMultiset(line, top);
      L2Multiset(ReverseStretches(line, top), top - 1);
    }
  }

  lemma SameFloor(a: seq<Glyph>, b: seq<Glyph>, level: nat)
    requires multiset(a) == multiset(b) && AllAtLeast(a, level)
    ensures AllAtLeast(b, level)
  {
    forall i | 0 <= i < |b| ensures b[i].level >= level {
      assert b[i] in multiset(b);
      assert b[i] in a;
    }
  }

  lemma ReverseFloor(line: seq<Glyph>, level: nat)
    requires AllAtLeast(line, level)
    ensures AllAtLeast(Reverse(line), level)
  {
    ReverseMultiset(line);
    SameFloor(line, Reverse(line), level);
  }

  lemma StretchWhole(line: seq<Glyph>, level: nat)
    requires AllAtLeast(line, level)
    ensures ReverseStretches(line, level) == Reverse(line)
  {
    if line != [] {
      var n := StretchLength(line, level);
      assert line[..n] == line && line[n..] == [];
    }
  }

  lemma {:induction false} NoStretch(line: seq<Glyph>, level: nat)
    requires AllBelow(line, level)
    ensures ReverseStretches(line, level) == line
  {
    if line != [] {
      NoStretch(line[1..], level);
    }
  }

  /** A character below `level` at either end of a line stays where it is. */
  lemma {:induction false} EndsStay(line: seq<Glyph>, level: nat)
    requires line != []
    ensures line[0].level < level ==> ReverseStretches(line, level)[0] == line[0]
    ensures line[|line| - 1].level < level ==> ReverseStretches(line, level)[|line| - 1] == line[|line| - 1]
    decreases |line|
  {
    if line[0].level < level {
      if |line| > 1 {
        EndsStay(line[1..], level);
      }
    } else {
      var n := StretchLength(line, level);
      if n < |line| {
        EndsStay(line[n..], level);
      }
    }
  }

  /** No stretch at `level` runs across the boundary between `a` and `b`. */
  ghost predicate Cut(a: seq<Glyph>, b: seq<Glyph>, level: nat) {
    a == [] || b == [] || a[|a| - 1].level < level || b[0].level < level
  }

  lemma {:induction false} StretchLengthAcross(a: seq<Glyph>, b: seq<Glyph>, level: nat)
    requires Cut(a, b, level) && a != []
    ensures StretchLength(a + b, level) == StretchLength(a, level)
  {
    var n, m := StretchLength(a, level), StretchLength(a + b, level);
    if n < |a| {
      assert (a + b)[n] == a[n];
    } else if b != [] {
      assert (a + b)[n] == b[0];
      assert a[|a| - 1].level >= level;
    }
    if m < |a| {
      assert (a + b)[m] == a[m];
    }
  }

  lemma SliceConcat<T>(a: seq<T>, b: seq<T>, n: nat)
    requires n <= |a|
    ensures (a + b)[..n] == a[..n]
    ensures (a + b)[n..] == a[n..] + b
  {
  }

  lemma Reassociate<T>(a: seq<T>, b: seq<T>, c: seq<T>)
    ensures a + (b + c) == (a + b) + c
  {
  }

  lemma {:induction false} StretchesSplit(a: seq<Glyph>, b: seq<Glyph>, level: nat)
    requires Cut(a, b, level)
    ensures ReverseStretches(a + b, level) == ReverseStretches(a, level) + ReverseStretches(b, level)
    decreases |a|
  {
    hide StretchLength;
    hide Reverse;
    if a == [] {
      assert a + b == b;
    } else {
      var head, n := [a[0]], 1;
      if a[0].level >= level {
        n := StretchLength(a, level);
        head := Reverse(a[..n]);
        StretchLengthAcross(a, b, level);
      }
      SliceConcat(a, b, n);
      StretchesSplit(a[n..], b, level);
      Reassociate(head, ReverseStretches(a[n..], level), ReverseStretches(b, level));
    }
  }

  predicate LevelOdd(level: nat) { level % 2 == 1 }

  /** Below its lowest level a line is only turned around as a whole. */
  lemma {:induction false} L2Whole(line: seq<Glyph>, top: nat)
    requires AllAtLeast(line, top)
    ensures L2(line, top) == if LevelOdd(top) then Reverse(line) else line
    decreases top
  {
    hide StretchLength;
    hide Reverse;
    hide ReverseStretches;
    if top > 0 {
      StretchWhole(line, top);
      ReverseFloor(line, top - 1);
      L2Whole(Reverse(line), top - 1);
      ReverseTwice(line);
    }
  }

  /** The split law of L2.  If the lowest level of `a + b` is `low` and the
      boundary touches a character at that level, L2 orders the two parts
      independently and puts `b` first exactly when `low` is odd. */
  lemma {:induction false} L2Split(a: seq<Glyph>, b: seq<Glyph>, low: nat, top: nat)
    requires a != [] && b != [] && low <= top
    requires AllAtLeast(a, low) && AllAtLeast(b, low)
    requires a[|a| - 1].level == low || b[0].level == low
    ensures L2(a + b, top) == if LevelOdd(low) then L2(b, top) + L2(a, top) else L2(a, top) + L2(b, top)
    decreases top
  {
    hide StretchLength;
    hide Reverse;
    hide ReverseStretches;
    if top == low {
      assert AllAtLeast(a + b, low);
      L2Whole(a, low);
      L2Whole(b, low);
      L2Whole(a + b, low);
      ReverseConcat(a, b);
    } else {
      StretchesSplit(a, b, top);
      EndsStay(a, top);
      EndsStay(b, top);
      var a', b' := ReverseStretches(a, top), ReverseStretches(b, top);
      ReverseStretchesMultiset(a, top);
      ReverseStretchesMultiset(b, top);
      SameFloor(a, a', low);
      SameFloor(b, b', low);
      L2Split(a', b', low, top - 1);
    }
  }

  /** A run of one level is reversed as a unit exactly when the level is odd. */
  lemma {:induction false} L2SameLevel(line: seq<Glyph>, level: nat, top: nat)
    requires level <= top
    requires forall i | 0 <= i < |line| :: line[i].level == level
    ensures L2(line, top) == if LevelOdd(level) then Reverse(line) else line
    decreases top
  {
    hide StretchLength;
    hide Reverse;
    hide ReverseStretches;
    if top == level {
      L2Whole(line, top);
    } else {
      NoStretch(line, top);
      L2SameLevel(line, level, top - 1);
    }
  }

  /** Starting above the highest level of the line changes nothing. */
  lemma {:induction false} L2TopIrrelevant(line: seq<Glyph>, top: nat, higher: nat)
    requires top <= higher
    requires AllBelow(line, top + 1)
    ensures L2(line, higher) == L2(line, top)
    decreases higher
  {
    hide StretchLength;
    hide Reverse;
    hide ReverseStretches;
    if higher > top {
      assert AllBelow(line, higher);
      NoStretch(line, higher);
      L2TopIrrelevant(line, top, higher - 1);
    }
  }
}
