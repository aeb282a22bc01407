/** What a line looks like in the end: of any two characters, which one stands on
    the left.  Rule L2 decides it by the lowest level from the one to the other;
    rule L3 keeps a base on the left of its marks. */
module VisualPairs {
  import opened BidiTypes
  import opened LineOrder
  import opened VisualRules

  // ----- L2, two characters at a time -----

  /** `m` is the lowest level from `p` to `q`. */
  ghost predicate Lowest(line: seq<Glyph>, p: nat, q: nat, m: nat) {
    && p <= q < |line| && (forall i | p <= i <= q :: line[i].level >= m)
    && exists i :: p <= i <= q && line[i].level == m
  }

  /** `r` has the part from `a` to `b` of `line` the other way round. */
  ghost predicate Block(line: seq<Glyph>, r: seq<Glyph>, a: nat, b: nat) {
    a < b <= |line| == |r| && forall i | a <= i < b :: r[i] == line[a + b - 1 - i]
  }

  lemma BlockShift(head: seq<Glyph>, line: seq<Glyph>, top: seq<Glyph>, r: seq<Glyph>, a: nat, b: nat)
    requires Block(line, r, a, b) && |head| == |top|
    ensures Block(head + line, top + r, a + |head|, b + |head|)
  {
  }

  /** From `a` to `b` goes the stretch at level `t` or higher around `p`, or `p`
      alone if it is lower. */
  ghost predicate StretchAt(line: seq<Glyph>, t: nat, p: nat, a: nat, b: nat) {
    && a <= p < b <= |line|
    && if line[p].level < t then a == p && b == p + 1
       else
         && (forall i | a <= i < b :: line[i].level >= t)
         && (a > 0 ==> line[a - 1].level < t) && (b < |line| ==> line[b].level < t)
  }

  lemma StretchShift(head: seq<Glyph>, line: seq<Glyph>, t: nat, p: nat, a: nat, b: nat)
    requires StretchAt(line, t, p, a, b) && head != []
    requires head[|head| - 1].level < t || line[0].level < t
    ensures StretchAt(head + line, t, p + |head|, a + |head|, b + |head|)
  {
    var all, n := head + line, |head|;
    forall i | a <= i < b ensures all[i + n] == line[i] {
    }
    assert all[p + n] == line[p];
    if line[p].level >= t {
      forall i | a + n <= i < b + n ensures all[i].level >= t {
        assert all[i] == line[i - n];
      }
    }
  }

  lemma StretchFirst(line: seq<Glyph>, t: nat, p: nat)
    requires p < StretchLength(line, t)
    ensures StretchAt(line, t, p, 0, StretchLength(line, t))
  {
    hide StretchLength;
  }

  lemma OneStretch(line: seq<Glyph>, t: nat, p: nat)
    requires p < |line| && line[p].level < t
    ensures StretchAt(line, t, p, p, p + 1)
  {
  }

  lemma OneBlock(line: seq<Glyph>, r: seq<Glyph>, p: nat)
    requires p < |line| == |r| && r[p] == line[p]
    ensures Block(line, r, p, p + 1)
  {
  }

  lemma HeadBlock(line: seq<Glyph>, r: seq<Glyph>, n: nat)
    requires 0 < n <= |line| == |r| && Reverse(line[..n]) <= r
    ensures Block(line, r, 0, n)
  {
    hide Reverse;
    forall i | 0 <= i < n ensures r[i] == line[n - 1 - i] {
      ReverseAt(line[..n], i);
    }
  }

  /** The first part that one step of L2 takes at a time. */
  lemma FirstPart(line: seq<Glyph>, t: nat) returns (n: nat)
    requires line != []
    ensures 0 < n <= |line| && Block(line, ReverseStretches(line, t), 0, n)
    ensures ReverseStretches(line, t)[n..] == ReverseStretches(line[n..], t)
    ensures forall p | 0 <= p < n :: StretchAt(line, t, p, 0, n)
    ensures n < |line| ==> line[n - 1].level < t || line[n].level < t
  {
    hide Reverse;
    hide StretchLength;
    hide StretchAt;
    hide Block;
    var r := ReverseStretches(line, t);
    if line[0].level < t {
      n := 1;
      OneBlock(line, r, 0);
      OneStretch(line, t, 0);
    } else {
      n := StretchLength(line, t);
      HeadBlock(line, r, n);
      forall p | 0 <= p < n ensures StretchAt(line, t, p, 0, n) {
        StretchFirst(line, t, p);
      }
    }
  }

  /** One step of L2: the stretch that character `p` is turned around with. */
  lemma {:induction false} StretchBlock(line: seq<Glyph>, t: nat, p: nat) returns (a: nat, b: nat)
    requires p < |line|
    ensures StretchAt(line, t, p, a, b) && Block(line, ReverseStretches(line, t), a, b)
    decreases |line|
  {
    hide ReverseStretches;
    hide Block;
    hide StretchAt;
    var r := ReverseStretches(line, t);
    var n := FirstPart(line, t);
    a, b := 0, n;
    if p >= n {
      a, b := StretchBlock(line[n..], t, p - n);
      BlockShift(line[..n], line[n..], r[..n], r[n..], a, b);
      StretchShift(line[..n], line[n..], t, p - n, a, b);
      assert line[..n] + line[n..] == line && r[..n] + r[n..] == r;
      a, b := a + n, b + n;
    }
  }

  lemma StepBetween(line: seq<Glyph>, t: nat, p: nat, q: nat, m: nat, a: nat, b: nat, c: nat, d: nat)
    requires p < q && Lowest(line, p, q, m) && m < t && a <= p < b <= |line| && c <= q < d <= |line|
    requires if line[p].level < t then a == p && b == p + 1 else forall i | a <= i < b :: line[i].level >= t
    requires if line[q].level < t then c == q && d == q + 1 else forall i | c <= i < d :: line[i].level >= t
    ensures a + b - 1 - p < c + d - 1 - q && Lowest(ReverseStretches(line, t), a + b - 1 - p, c + d - 1 - q, m)
  {
    hide ReverseStretches;
    var r, p', q' := ReverseStretches(line, t), a + b - 1 - p, c + d - 1 - q;
    var z :| p <= z <= q && line[z].level == m;
    var e, f := StretchBlock(line, t, z);
    assert r[z] == line[z];
    assert line[p].level >= t ==> b <= z;
    assert line[q].level >= t ==> z < c;
    forall i | p' <= i <= q' ensures r[i].level >= m {
      var g, h := StretchBlock(line, t, i);
      if line[i].level < t {
        assert r[i] == line[i];
      } else {
        assert r[i] == line[g + h - 1 - i];
      }
    }
  }

  /** One step of L2 on two characters: they change sides exactly when no lower
      level comes between them, and the lowest level from the one to the other
      stays. */
  lemma StepPair(line: seq<Glyph>, t: nat, p: nat, q: nat, m: nat) returns (p': nat, q': nat)
    requires p < q && Lowest(line, p, q, m)
    ensures var r := ReverseStretches(line, t);
            && p' < |r| && q' < |r| && r[p'] == line[p] && r[q'] == line[q]
            && (m >= t ==> q' < p' && Lowest(r, q', p', m)) && (m < t ==> p' < q' && Lowest(r, p', q', m))
  {
    hide ReverseStretches;
    var r := ReverseStretches(line, t);
    var a, b := StretchBlock(line, t, p);
    p' := a + b - 1 - p;
    if m >= t {
      q' := a + b - 1 - q;
      var z :| p <= z <= q && line[z].level == m;
      assert r[a + b - 1 - z].level == m;
    } else {
      var c, d := StretchBlock(line, t, q);
      q' := c + d - 1 - q;
      StepBetween(line, t, p, q, m, a, b, c, d);
    }
  }

  lemma LowestIn(line: seq<Glyph>, p: nat, q: nat, m: nat)
    requires Lowest(line, p, q, m)
    ensures p <= q < |line|
  {
  }

  /** L2: of two characters the first stands on the left exactly when the lowest
      level from the one to the other is even. */
  lemma {:induction false} L2Pair(line: seq<Glyph>, top: nat, p: nat, q: nat, m: nat) returns (i: nat, j: nat)
    requires p < q && Lowest(line, p, q, m)
    ensures i < |line| && j < |line| && L2(line, top)[i] == line[p] && L2(line, top)[j] == line[q] && i != j
    ensures i < j <==> !LevelOdd(if m < top then m else top)
    decreases top
  {
    hide ReverseStretches;
    hide Lowest;
    LowestIn(line, p, q, m);
    if top == 0 {
      i, j := p, q;
    } else {
      var p', q' := StepPair(line, top, p, q, m);
      if m >= top {
        j, i := L2Pair(ReverseStretches(line, top), top - 1, q', p', m);
      } else {
        i, j := L2Pair(ReverseStretches(line, top), top - 1, p', q', m);
      }
    }
  }

  // ----- Marks and their bases -----

  /** The base of the marks around `m`, or the start of the level run if there is
      none. */
  function BaseOf(types: seq<BidiType>, line: seq<Glyph>, m: nat): (b: nat)
    requires |types| == |line| && m < |line|
    ensures b <= m
  {
    ClusterStart(types[..m + 1], line[..m + 1])
  }

  /** All of a cluster has the same base. */
  lemma {:induction false} SameCluster(types: seq<BidiType>, line: seq<Glyph>, m: nat)
    requires 0 < |types| == |line| && ClusterStart(types, line) < m < |line|
    ensures BaseOf(types, line, m) == ClusterStart(types, line)
    decreases |line|
  {
    var n := |line|;
    if m == n - 1 {
      assert types[..m + 1] == types && line[..m + 1] == line;
    } else {
      SameCluster(types[..n - 1], line[..n - 1], m);
      assert types[..n - 1][..m + 1] == types[..m + 1] && line[..n - 1][..m + 1] == line[..m + 1];
    }
  }

  /** A cluster is as long as it can be: it starts with a base, or with the first
      character of its level. */
  lemma {:induction false} ClusterWhole(types: seq<BidiType>, line: seq<Glyph>)
    requires 0 < |types| == |line|
    ensures var b := ClusterStart(types, line);
            b == 0 || line[b - 1].level != line[b].level || !(types[b].IsExplicitOrBn() || types[b].NSM?)
    decreases |line|
  {
    var n := |line|;
    if n >= 2 {
      ClusterWhole(types[..n - 1], line[..n - 1]);
    }
  }

  /** A mark that starts its cluster has no base. */
  lemma NoBase(types: seq<BidiType>, line: seq<Glyph>)
    requires 0 < |types| == |line|
    ensures var c := ClusterStart(types, line); types[c].NSM? ==> BaseOf(types, line, c) == c
  {
    ClusterWhole(types, line);
    var c := ClusterStart(types, line);
    if types[c].NSM? && c > 0 {
      assert line[..c + 1][c - 1] == line[c - 1] && line[..c + 1][c] == line[c];
    }
  }

  /** The mark `m` is turned around with what goes back to `p` or further. */
  ghost predicate Heads(types: seq<BidiType>, line: seq<Glyph>, m: nat, p: nat)
    requires |types| == |line| && m < |line|
  {
    types[m].NSM? && LevelOdd(line[m].level) && BaseOf(types, line, m) <= p
  }

  /** Two characters of one cluster that L3 turns around. */
  ghost predicate Clustered(types: seq<BidiType>, line: seq<Glyph>, p: nat, q: nat)
    requires |types| == |line|
  {
    exists m :: q <= m < |line| && Heads(types, line, m, p)
  }

  /** All characters from `p` to `q`, in either direction, have one level. */
  ghost predicate Level(line: seq<Glyph>, p: nat, q: nat) {
    p < |line| && q < |line| && forall i | p <= i <= q || q <= i <= p :: line[i].level == line[p].level
  }

  /** Where the last part of the line starts that L3 takes at a time. */
  function LastPart(types: seq<BidiType>, line: seq<Glyph>): (c: nat)
    requires 0 < |types| == |line|
    ensures c < |line| && forall i | c <= i < |line| :: line[i].level == line[|line| - 1].level
  {
    var n := |line|;
    if LevelOdd(line[n - 1].level) && types[n - 1].NSM? then ClusterStart(types, line) else n - 1
  }

  lemma PartsAre(types: seq<BidiType>, line: seq<Glyph>)
    requires 0 < |types| == |line|
    ensures var c := LastPart(types, line);
            ReorderMarks(types, line) == ReorderMarks(types[..c], line[..c]) + Reverse(line[c..])
  {
    hide ClusterStart;
    assert Reverse([line[|line| - 1]]) == [line[|line| - 1]];
    assert line[|line| - 1..] == [line[|line| - 1]];
  }

  /** In the last part every character changes places with the one opposite. */
  lemma PartTurned(types: seq<BidiType>, line: seq<Glyph>, q: nat)
    requires 0 < |types| == |line| && LastPart(types, line) <= q < |line|
    ensures var c, q' := LastPart(types, line), LastPart(types, line) + |line| - 1 - q;
            && c <= q' < |line| && ReorderMarks(types, line)[q'] == line[q] && Level(line, q, q')
  {
    hide Reverse;
    hide ReorderMarks;
    hide LastPart;
    PartsAre(types, line);
    var c := LastPart(types, line);
    ReverseAt(line[c..], |line| - 1 - q);
  }

  lemma {:induction false} MarkPlace(types: seq<BidiType>, line: seq<Glyph>, p: nat) returns (p': nat)
    requires |types| == |line| && p < |line|
    ensures p' < |line| && ReorderMarks(types, line)[p'] == line[p] && Level(line, p, p')
    decreases |line|
  {
    hide LastPart;
    hide Reverse;
    hide ReorderMarks;
    var c := LastPart(types, line);
    if p < c {
      PartsAre(types, line);
      p' := MarkPlace(types[..c], line[..c], p);
    } else {
      PartTurned(types, line, p);
      p' := c + |line| - 1 - p;
    }
  }

  /** A mark of the last part leads back no further than that part. */
  lemma LastHeads(types: seq<BidiType>, line: seq<Glyph>, m: nat, p: nat)
    requires 0 < |types| == |line| && LastPart(types, line) <= m < |line| && Heads(types, line, m, p)
    ensures LastPart(types, line) <= p
  {
    hide ClusterStart;
    if m > LastPart(types, line) {
      SameCluster(types, line, m);
    } else if LevelOdd(line[|line| - 1].level) && types[|line| - 1].NSM? {
      NoBase(types, line);
    }
  }

  lemma LastClustered(types: seq<BidiType>, line: seq<Glyph>, p: nat, q: nat)
    requires 0 < |types| == |line| && LastPart(types, line) <= p < q < |line|
    ensures Clustered(types, line, p, q)
  {
    hide ClusterStart;
    var n := |line|;
    assert types[..n] == types && line[..n] == line;
    assert Heads(types, line, n - 1, p);
  }

  lemma HeadsBefore(types: seq<BidiType>, line: seq<Glyph>, c: nat, m: nat, p: nat)
    requires |types| == |line| && m < c <= |line|
    ensures Heads(types[..c], line[..c], m, p) == Heads(types, line, m, p)
  {
    assert types[..c][..m + 1] == types[..m + 1] && line[..c][..m + 1] == line[..m + 1];
  }

  lemma ClusteredBefore(types: seq<BidiType>, line: seq<Glyph>, p: nat, q: nat)
    requires 0 < |types| == |line| && p < q < LastPart(types, line)
    ensures var c := LastPart(types, line); Clustered(types[..c], line[..c], p, q) == Clustered(types, line, p, q)
  {
    hide LastPart;
    hide Heads;
    var c := LastPart(types, line);
    if Clustered(types, line, p, q) {
      var m :| q <= m < |line| && Heads(types, line, m, p);
      if m >= c {
        LastHeads(types, line, m, p);
      }
      HeadsBefore(types, line, c, m, p);
    }
    if Clustered(types[..c], line[..c], p, q) {
      var m :| q <= m < c && Heads(types[..c], line[..c], m, p);
      HeadsBefore(types, line, c, m, p);
    }
  }

  lemma LevelBefore(line: seq<Glyph>, c: nat, p: nat, q: nat)
    requires c <= |line|
    ensures Level(line[..c], p, q) ==> Level(line, p, q)
  {
  }

  lemma Apart(types: seq<BidiType>, line: seq<Glyph>, p: nat, q: nat)
    requires 0 < |types| == |line| && p < LastPart(types, line) <= q < |line|
    ensures !Clustered(types, line, p, q)
  {
    hide LastPart;
    hide Heads;
    if Clustered(types, line, p, q) {
      var m :| q <= m < |line| && Heads(types, line, m, p);
      LastHeads(types, line, m, p);
    }
  }

  lemma LastLevel(types: seq<BidiType>, line: seq<Glyph>, p: nat, q: nat)
    requires 0 < |types| == |line| && LastPart(types, line) <= p < q < |line|
    ensures Level(line, p, q) && LevelOdd(line[p].level)
  {
    hide ClusterStart;
  }

  /** L3 turns two characters around exactly when they are in one cluster, and
      moves each among characters of its own level only. */
  lemma {:induction false} MarksPair(types: seq<BidiType>, line: seq<Glyph>, p: nat, q: nat) returns (p': nat, q': nat)
    requires |types| == |line| && p < q < |line|
    ensures p' < |line| && q' < |line| && ReorderMarks(types, line)[p'] == line[p]
            && ReorderMarks(types, line)[q'] == line[q]
    ensures Level(line, p, p') && Level(line, q, q')
    ensures if Clustered(types, line, p, q) then q' < p' && Level(line, p, q) && Level(line, q', p')
            && LevelOdd(line[p].level)
            else p' < q'
    decreases |line|
  {
    hide LastPart;
    hide Reverse;
    hide ReorderMarks;
    hide Clustered;
    hide Level;
    var c, n := LastPart(types, line), |line|;
    PartsAre(types, line);
    if q < c {
      p', q' := MarksPair(types[..c], line[..c], p, q);
      ClusteredBefore(types, line, p, q);
      LevelBefore(line, c, p, p');
      LevelBefore(line, c, q, q');
      LevelBefore(line, c, p, q);
      LevelBefore(line, c, q', p');
    } else {
      PartTurned(types, line, q);
      q' := c + n - 1 - q;
      if p < c {
        p' := MarkPlace(types[..c], line[..c], p);
        LevelBefore(line, c, p, p');
        Apart(types, line, p, q);
      } else {
        PartTurned(types, line, p);
        p' := c + n - 1 - p;
        LastClustered(types, line, p, q);
        LastLevel(types, line, p, q);
        LastLevel(types, line, q', p');
      }
    }
  }

  // ----- The line -----

  /** The lowest of the levels from `p` to `q`. */
  function LowestLevel(levels: seq<nat>, p: nat, q: nat): (m: nat)
    requires p <= q < |levels|
    ensures forall i | p <= i <= q :: levels[i] >= m
    ensures exists i | p <= i <= q :: levels[i] == m
    decreases q
  {
    if p == q then levels[p]
    else var m := LowestLevel(levels, p, q - 1); if levels[q] < m then levels[q] else m
  }

  /** Slot `x` of the buffer ends up on the left of slot `y`. */
  ghost predicate StandsLeft(order: seq<Glyph>, x: nat, y: nat) {
    exists i, j :: 0 <= i < j < |order| && order[i].pos == x && order[j].pos == y
  }

  /** The first of two characters is to stand on the left: the lowest level
      between them is even, or L3 keeps them together as a base and its marks. */
  ghost predicate GoesLeft(types: seq<BidiType>, levels: seq<nat>, off: nat, reorderNsm: bool, p: nat, q: nat)
    requires |types| == |levels| && p < q < |levels|
  {
    !LevelOdd(LowestLevel(levels, p, q)) || (reorderNsm && Clustered(types, Slots(levels, off), p, q))
  }

  /** Any two characters stand as they should. */
  ghost predicate Placed(types: seq<BidiType>, levels: seq<nat>, off: nat, reorderNsm: bool, order: seq<Glyph>, p: nat,
                         q: nat)
    requires |types| == |levels| && p < q < |levels|
  {
    var x, y := off + p, off + q;
    && (StandsLeft(order, x, y) <==> GoesLeft(types, levels, off, reorderNsm, p, q))
    && (StandsLeft(order, y, x) <==> !GoesLeft(types, levels, off, reorderNsm, p, q))
  }

  ghost predicate VisuallyOrdered(types: seq<BidiType>, levels: seq<nat>, off: nat, reorderNsm: bool, order: seq<Glyph>)
    requires |types| == |levels|
  {
    |order| == |levels| && forall p, q | 0 <= p < q < |levels| :: Placed(types, levels, off, reorderNsm, order, p, q)
  }

  lemma LevelLowest(levels: seq<nat>, off: nat, p: nat, q: nat)
    requires p <= q < |levels|
    ensures Lowest(Slots(levels, off), p, q, LowestLevel(levels, p, q))
  {
    hide LowestLevel;
    var line, m := Slots(levels, off), LowestLevel(levels, p, q);
    var z :| p <= z <= q && levels[z] == m;
    assert line[z].level == m;
  }

  /** Moving both ends among characters of their level keeps the lowest level. */
  lemma LowestMoved(line: seq<Glyph>, r: seq<Glyph>, p: nat, q: nat, m: nat, p': nat, q': nat)
    requires Lowest(line, p, q, m) && Level(line, p, p') && Level(line, q, q') && p' < q'
    requires |r| == |line| && forall i | 0 <= i < |line| :: r[i].level == line[i].level
    ensures Lowest(r, p', q', m)
  {
    var z :| p <= z <= q && line[z].level == m;
    forall i | p' <= i <= q' ensures r[i].level >= m {
      assert line[i].level >= m;
    }
    var y := if z < p' then p' else if z > q' then q' else z;
    assert r[y].level == m;
  }

  lemma LowestOf(line: seq<Glyph>, r: seq<Glyph>, p': nat, q': nat)
    requires q' < p' && Level(line, q', p') && |r| == |line|
             && forall i | 0 <= i < |line| :: r[i].level == line[i].level
    ensures Lowest(r, q', p', line[p'].level)
  {
    assert r[p'].level == line[p'].level;
  }

  lemma LowestBelow(line: seq<Glyph>, p: nat, q: nat, m: nat)
    requires Lowest(line, p, q, m)
    ensures m <= MaxLevel(line) && forall i | 0 <= i < |line| :: line[i].level <= MaxLevel(line)
  {
  }

  lemma LevelSame(line: seq<Glyph>, p: nat, q: nat)
    requires Level(line, p, q)
    ensures p < |line| && q < |line| && line[p].level == line[q].level
  {
  }

  /** Where two characters end up. */
  lemma PairInLine(types: seq<BidiType>, levels: seq<nat>, off: nat, reorderNsm: bool, p: nat, q: nat)
    returns (i: nat, j: nat)
    requires |types| == |levels| && p < q < |levels|
    ensures var order := VisualOrder(types, levels, off, reorderNsm);
            i < |order| && j < |order| && i != j && order[i].pos == off + p && order[j].pos == off + q
    ensures i < j <==> GoesLeft(types, levels, off, reorderNsm, p, q)
  {
    hide L2;
    hide ReorderMarks;
    hide Lowest;
    hide LowestLevel;
    hide Level;
    hide Clustered;
    hide MaxLevel;
    var line, m := Slots(levels, off), LowestLevel(levels, p, q);
    LevelLowest(levels, off, p, q);
    LowestBelow(line, p, q, m);
    if reorderNsm {
      var r := ReorderMarks(types, line);
      MarksKeepLevels(types, line);
      var p', q' := MarksPair(types, line, p, q);
      LevelSame(line, p, p');
      if Clustered(types, line, p, q) {
        LowestOf(line, r, p', q');
        j, i := L2Pair(r, MaxLevel(line), q', p', line[p'].level);
      } else {
        LowestMoved(line, r, p, q, m, p', q');
        i, j := L2Pair(r, MaxLevel(line), p', q', m);
      }
    } else {
      i, j := L2Pair(line, MaxLevel(line), p, q, m);
    }
  }

  /** No slot is found twice. */
  lemma SlotsOnce(types: seq<BidiType>, levels: seq<nat>, off: nat, reorderNsm: bool, i: nat, j: nat)
    requires |types| == |levels| && i < |levels| && j < |levels|
    ensures var order := VisualOrder(types, levels, off, reorderNsm);
            |order| == |levels| && (i != j ==> order[i].pos != order[j].pos)
  {
    hide VisualOrder;
    var order, line := VisualOrder(types, levels, off, reorderNsm), Slots(levels, off);
    VisualMultiset(types, levels, off, reorderNsm);
    SameSize(order, line);
    if i != j {
      InBoth(order, line, i);
      InBoth(order, line, j);
      Once(order, line, if i < j then i else j, if i < j then j else i);
    }
  }

  lemma PairPlaced(types: seq<BidiType>, levels: seq<nat>, off: nat, reorderNsm: bool, p: nat, q: nat)
    requires |types| == |levels| && p < q < |levels|
    ensures Placed(types, levels, off, reorderNsm, VisualOrder(types, levels, off, reorderNsm), p, q)
  {
    hide VisualOrder;
    hide GoesLeft;
    var order := VisualOrder(types, levels, off, reorderNsm);
    var i, j := PairInLine(types, levels, off, reorderNsm, p, q);
    SlotsOnce(types, levels, off, reorderNsm, 0, 0);
    forall k | 0 <= k < |order| && order[k].pos == off + p ensures k == i {
      SlotsOnce(types, levels, off, reorderNsm, k, i);
    }
    forall k | 0 <= k < |order| && order[k].pos == off + q ensures k == j {
      SlotsOnce(types, levels, off, reorderNsm, k, j);
    }
  }

  /** The visual order puts every two characters where L2 and L3 want them. */
  lemma VisualPair(types: seq<BidiType>, levels: seq<nat>, off: nat, reorderNsm: bool)
    requires |types| == |levels|
    ensures VisuallyOrdered(types, levels, off, reorderNsm, VisualOrder(types, levels, off, reorderNsm))
  {
    hide VisualOrder;
    hide Placed;
    if levels == [] {
      VisualMultiset(types, levels, off, reorderNsm);
      SameSize(VisualOrder(types, levels, off, reorderNsm), Slots(levels, off));
    } else {
      SlotsOnce(types, levels, off, reorderNsm, 0, 0);
    }
    forall p, q | 0 <= p < q < |levels|
      ensures Placed(types, levels, off, reorderNsm, VisualOrder(types, levels, off, reorderNsm), p, q) {
      PairPlaced(types, levels, off, reorderNsm, p, q);
    }
  }

  /** So a mark of a right-to-left run stands on the right of its base. */
  lemma BaseBeforeMark(types: seq<BidiType>, levels: seq<nat>, off: nat, m: nat)
    requires |types| == |levels| && m < |levels| && types[m].NSM? && LevelOdd(levels[m])
    requires BaseOf(types, Slots(levels, off), m) < m
    ensures StandsLeft(VisualOrder(types, levels, off, true), off + BaseOf(types, Slots(levels, off), m), off + m)
  {
    hide VisualOrder;
    hide BaseOf;
    var b := BaseOf(types, Slots(levels, off), m);
    PairPlaced(types, levels, off, true, b, m);
    assert Heads(types, Slots(levels, off), m, b);
  }
}
