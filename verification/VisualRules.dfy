/** Rules L1 (part 4), L3 and L2 for one line, and the visual order they give. */
module VisualRules {
  import opened BidiTypes
  import opened LineOrder

  predicate TrailingType(t: BidiType) { t.IsExplicitOrBn() || t.WS? }

  /** Part 4 of L1: trailing white space and removed codes take the base level. */
  function TrailingStart(types: seq<BidiType>): (t: nat)
    ensures t <= |types|
    ensures forall i | t <= i < |types| :: TrailingType(types[i])
    ensures t > 0 ==> !TrailingType(types[t - 1])
  {
    if types == [] || !TrailingType(types[|types| - 1]) then |types| else TrailingStart(types[..|types| - 1])
  }

  /** The marks at the end of `line` that L3 moves over, with their base: the
      last character is a mark, and everything back to the base is a mark or a
      removed code of the same level. */
  function ClusterStart(types: seq<BidiType>, line: seq<Glyph>): (b: nat)
    requires |types| == |line| > 0
    ensures b < |line|
    ensures forall i | b <= i < |line| :: line[i].level == line[|line| - 1].level
    ensures forall i | b < i < |line| - 1 :: types[i].IsExplicitOrBn() || types[i].NSM?
    decreases |line|
  {
    var n := |line|;
    if n >= 2 && line[n - 2].level == line[n - 1].level then
      if types[n - 2].IsExplicitOrBn() || types[n - 2].NSM? then ClusterStart(types[..n - 1], line[..n - 1]) else n - 2
    else n - 1
  }

  /** L3: every mark sequence of a right-to-left run is turned around together
      with its base. */
  function ReorderMarks(types: seq<BidiType>, line: seq<Glyph>): (r: seq<Glyph>)
    requires |types| == |line|
    ensures |r| == |line|
    decreases |line|
  {
    var n := |line|;
    if n == 0 then []
    else if LevelOdd(line[n - 1].level) && types[n - 1].NSM? then
      var b := ClusterStart(types, line);
      ReorderMarks(types[..b], line[..b]) + Reverse(line[b..])
    else
      ReorderMarks(types[..n - 1], line[..n - 1]) + [line[n - 1]]
  }

  /** The slots `off <= p < off + len` of a buffer with their levels. */
  function Slots(levels: seq<nat>, off: nat): (line: seq<Glyph>)
    ensures |line| == |levels|
    ensures forall i | 0 <= i < |line| :: line[i] == Glyph(levels[i], off + i)
  {
    seq(|levels|, i requires 0 <= i < |levels| => Glyph(levels[i], off + i))
  }

  function MaxLevel(line: seq<Glyph>): (m: nat)
    ensures forall i | 0 <= i < |line| :: line[i].level <= m
    ensures m == 0 || exists i | 0 <= i < |line| :: line[i].level == m
  {
    if line == [] then 0
    else var m := MaxLevel(line[..|line| - 1]); if line[|line| - 1].level > m then line[|line| - 1].level else m
  }

  /** The visual order of a line: L3 when asked for, then L2. */
  function VisualOrder(types: seq<BidiType>, levels: seq<nat>, off: nat, reorderNsm: bool): seq<Glyph>
    requires |types| == |levels|
  {
    var line := Slots(levels, off);
    L2(if reorderNsm then ReorderMarks(types, line) else line, MaxLevel(line))
  }

  // ----- Nothing is lost -----

  lemma {:induction false} MarksKeepLevels(types: seq<BidiType>, line: seq<Glyph>)
    requires |types| == |line|
    ensures forall i | 0 <= i < |line| :: ReorderMarks(types, line)[i].level == line[i].level
    decreases |line|
  {
    hide Reverse;
    var n := |line|;
    if n > 0 {
      if LevelOdd(line[n - 1].level) && types[n - 1].NSM? {
        var b := ClusterStart(types, line);
        MarksKeepLevels(types[..b], line[..b]);
        forall i | b <= i < n ensures Reverse(line[b..])[i - b].level == line[i].level {
          ReverseAt(line[b..], i - b);
        }
      } else {
        MarksKeepLevels(types[..n - 1], line[..n - 1]);
      }
    }
  }

  lemma Parts(line: seq<Glyph>, b: nat, x: seq<Glyph>, y: seq<Glyph>)
    requires b <= |line| && multiset(x) == multiset(line[..b]) && multiset(y) == multiset(line[b..])
    ensures multiset(x + y) == multiset(line)
  {
    assert line == line[..b] + line[b..];
  }

  lemma {:induction false} MarksMultiset(types: seq<BidiType>, line: seq<Glyph>)
    requires |types| == |line|
    ensures multiset(ReorderMarks(types, line)) == multiset(line)
    decreases |line|
  {
    hide ClusterStart;
    hide Reverse;
    var n := |line|;
    if n > 0 {
      if LevelOdd(line[n - 1].level) && types[n - 1].NSM? {
        var b := ClusterStart(types, line);
        MarksMultiset(types[..b], line[..b]);
        ReverseMultiset(line[b..]);
        Parts(line, b, ReorderMarks(types[..b], line[..b]), Reverse(line[b..]));
      } else {
        MarksMultiset(types[..n - 1], line[..n - 1]);
        assert line[n - 1..] == [line[n - 1]];
        Parts(line, n - 1, ReorderMarks(types[..n - 1], line[..n - 1]), [line[n - 1]]);
      }
    }
  }

  lemma VisualMultiset(types: seq<BidiType>, levels: seq<nat>, off: nat, reorderNsm: bool)
    requires |types| == |levels|
    ensures multiset(VisualOrder(types, levels, off, reorderNsm)) == multiset(Slots(levels, off))
  {
    hide L2;
    hide ReorderMarks;
    var line := Slots(levels, off);
    MarksMultiset(types, line);
    L2Multiset(if reorderNsm then ReorderMarks(types, line) else line, MaxLevel(line));
  }

  lemma Twice(a: seq<Glyph>, i: nat, j: nat)
    requires i < j < |a| && a[i] == a[j]
    ensures multiset(a)[a[i]] >= 2
  {
    assert a == a[..i] + [a[i]] + a[i + 1..j] + [a[j]] + a[j + 1..];
  }

  lemma {:induction false} AtMostOnce(b: seq<Glyph>, g: Glyph)
    requires forall k, l | 0 <= k < l < |b| :: b[k] != b[l]
    ensures multiset(b)[g] <= 1
  {
    if b != [] {
      var n := |b| - 1;
      assert b == b[..n] + [b[n]];
      AtMostOnce(b[..n], g);
      if b[n] == g {
        assert g !in b[..n];
      }
    }
  }

  /** The same elements, all different: each is found exactly once. */
  lemma Once(a: seq<Glyph>, b: seq<Glyph>, i: nat, j: nat)
    requires multiset(a) == multiset(b) && (forall k, l | 0 <= k < l < |b| :: b[k] != b[l])
    requires i < j < |a|
    ensures a[i] != a[j]
  {
    if a[i] == a[j] {
      Twice(a, i, j);
      AtMostOnce(b, a[i]);
    }
  }

  lemma SameSize(a: seq<Glyph>, b: seq<Glyph>)
    requires multiset(a) == multiset(b)
    ensures |a| == |b|
  {
    assert |multiset(a)| == |a| && |multiset(b)| == |b|;
  }

  lemma InBoth(a: seq<Glyph>, b: seq<Glyph>, i: nat)
    requires multiset(a) == multiset(b) && i < |a|
    ensures a[i] in b
  {
    assert a[i] in multiset(a);
  }
}
