/** The one-pass form of rule L2 (fribidi_l2_linear_reorder): a stack of ranges
    over the runs of a line, linked in place through `next`.

    The proof keeps, for every range on the stack, the list of runs it links
    and the stretch of the line it stands for; each list spells that stretch
    in exactly the order rule L2 gives it. */
module LinearReorder {
  import opened LineOrder

  /** FriBidiL2Run: a maximal stretch of one level; -1 ends the list of runs. */
  datatype L2Run = L2Run(pos: nat, len: nat, level: nat, next: int)

  /** FriBidiL2Range: runs already merged, from the left-most to the right-most. */
  datatype L2Range = L2Range(level: nat, left: nat, right: nat, previous: int)

  ghost function Flat(parts: seq<seq<Glyph>>): seq<Glyph> {
    if parts == [] then [] else parts[0] + Flat(parts[1..])
  }

  lemma {:induction false} FlatJoin(a: seq<seq<Glyph>>, b: seq<seq<Glyph>>)
    ensures Flat(a + b) == Flat(a) + Flat(b)
  {
    if a == [] {
      assert a + b == b;
    } else {
      assert (a + b)[1..] == a[1..] + b;
      FlatJoin(a[1..], b);
      assert a[0] + (Flat(a[1..]) + Flat(b)) == (a[0] + Flat(a[1..])) + Flat(b);
    }
  }

  ghost predicate Below(order: seq<nat>, bound: nat) {
    forall j | 0 <= j < |order| :: order[j] < bound
  }

  /** A line cut into runs: every run is a non-empty stretch of one level.
      `top` is at least the highest level of the line. */
  datatype Line = Line(runs: seq<seq<Glyph>>, top: nat)
  {
    ghost predicate Valid() {
      forall k | 0 <= k < |runs| :: RunOk(k)
    }

    ghost predicate RunOk(k: nat)
      requires k < |runs|
    {
      && runs[k] != [] && runs[k][0].level <= top
      && (forall i | 0 <= i < |runs[k]| :: runs[k][i].level == runs[k][0].level)
    }

    ghost function Level(k: nat): nat
      requires Valid() && k < |runs|
    {
      assert RunOk(k);
      runs[k][0].level
    }

    /** The part of the line that the runs `lo <= k < hi` cover. */
    ghost function Part(lo: nat, hi: nat): seq<Glyph>
      requires lo <= hi <= |runs|
    {
      Flat(runs[lo..hi])
    }

    /** The characters of one run as they stand after its own reversal. */
    ghost function Content(k: nat): seq<Glyph>
      requires Valid() && k < |runs|
    {
      if LevelOdd(Level(k)) then Reverse(runs[k]) else runs[k]
    }

    /** The characters of the listed runs, one run after another. */
    ghost function Spell(order: seq<nat>): seq<Glyph>
      requires Valid() && Below(order, |runs|)
    {
      if order == [] then [] else Content(order[0]) + Spell(order[1..])
    }

    lemma {:induction false} SpellJoin(a: seq<nat>, b: seq<nat>)
      requires Valid() && Below(a, |runs|) && Below(b, |runs|)
      ensures Spell(a + b) == Spell(a) + Spell(b)
    {
      if a == [] {
        assert a + b == b;
      } else {
        assert (a + b)[1..] == a[1..] + b;
        SpellJoin(a[1..], b);
        assert Content(a[0]) + (Spell(a[1..]) + Spell(b)) == (Content(a[0]) + Spell(a[1..])) + Spell(b);
      }
    }

    lemma PartJoin(lo: nat, mid: nat, hi: nat)
      requires lo <= mid <= hi <= |runs|
      ensures Part(lo, hi) == Part(lo, mid) + Part(mid, hi)
    {
      FlatJoin(runs[lo..mid], runs[mid..hi]);
      assert runs[lo..hi] == runs[lo..mid] + runs[mid..hi];
    }

    lemma PartOfRun(k: nat)
      requires k < |runs|
      ensures Part(k, k + 1) == runs[k]
    {
      assert runs[k..k + 1] == [runs[k]];
      assert Flat([runs[k]]) == runs[k] + Flat([runs[k]][1..]);
    }

    /** A run alone is spelled as L2 orders it. */
    lemma SpellRun(k: nat)
      requires Valid() && k < |runs|
      ensures Spell([k]) == L2(Part(k, k + 1), top)
    {
      PartOfRun(k);
      assert RunOk(k);
      L2SameLevel(runs[k], Level(k), top);
      assert [k][1..] == [];
      assert Spell([k]) == Content(k) + Spell([]);
    }

    lemma EndsOfPart(lo: nat, hi: nat)
      requires Valid() && lo < hi <= |runs|
      ensures Part(lo, hi) != []
      ensures Part(lo, hi)[|Part(lo, hi)| - 1].level == Level(hi - 1)
      ensures Part(lo, hi)[0].level == Level(lo)
    {
      PartJoin(lo, hi - 1, hi);
      PartOfRun(hi - 1);
      PartJoin(lo, lo + 1, hi);
      PartOfRun(lo);
      assert RunOk(lo) && RunOk(hi - 1);
    }
  }

  /** Following `next` from order[0] visits exactly `order`. */
  ghost predicate Linked(runs: seq<L2Run>, order: seq<nat>) {
    && order != []
    && Below(order, |runs|)
    && (forall j | 0 <= j < |order| - 1 :: runs[order[j]].next == order[j + 1])
  }

  /** What the proof knows about a stacked range: its slot, the runs
      `lo <= k < hi` it stands for and the order in which they are linked. */
  datatype Segment = Segment(slot: nat, level: nat, lo: nat, hi: nat, order: seq<nat>)

  /** The listed runs are distinct and lie in the segment's range. */
  ghost predicate Within(g: Segment) {
    && (forall j | 0 <= j < |g.order| :: g.lo <= g.order[j] < g.hi)
    && (forall i, j | 0 <= i < j < |g.order| :: g.order[i] != g.order[j])
  }

  /** The order of a segment is the one L2 gives to its part of the line. */
  ghost predicate Ordered(ln: Line, g: Segment)
    requires ln.Valid()
  {
    && g.lo < g.hi <= |ln.runs| && g.level <= ln.top
    && Below(g.order, |ln.runs|)
    && AllAtLeast(ln.Part(g.lo, g.hi), g.level)
    && ln.Spell(g.order) == L2(ln.Part(g.lo, g.hi), ln.top)
  }

  /** The two arrays represent the segment. */
  ghost predicate Stored(runs: seq<L2Run>, ranges: seq<L2Range>, g: Segment) {
    && Linked(runs, g.order)
    && g.slot < |ranges|
    && ranges[g.slot].level == g.level
    && ranges[g.slot].left == g.order[0]
    && ranges[g.slot].right == g.order[|g.order| - 1]
  }

  ghost predicate EndsLow(ln: Line, g: Segment)
    requires ln.Valid()
  {
    0 < g.hi <= |ln.runs| && ln.Level(g.hi - 1) == g.level
  }

  /** The ranges still open, the latest one on top. */
  datatype Stack = Empty | Push(below: Stack, top: Segment)
  {
    function Slot(): int { if Empty? then -1 else top.slot }

    function Depth(): nat { if Empty? then 0 else 1 + below.Depth() }
  }

  /** The stack covers the first `done` runs: contiguous parts of the line,
      levels strictly increasing, every range below the top ending in a run at
      its own level, every range in L2 order. */
  ghost predicate Shape(ln: Line, st: Stack, done: nat)
    requires ln.Valid()
  {
    match st
    case Empty => done == 0
    case Push(below, g) =>
      && g.hi == done && Ordered(ln, g) && Within(g)
      && Shape(ln, below, g.lo)
      && (below.Push? ==> EndsLow(ln, below.top) && below.top.level < g.level)
  }

  /** The arrays hold that stack, linked from the top through `previous`. */
  ghost predicate Held(runs: seq<L2Run>, ranges: seq<L2Range>, st: Stack) {
    match st
    case Empty => true
    case Push(below, g) =>
      && Stored(runs, ranges, g) && ranges[g.slot].previous == below.Slot() < g.slot
      && Held(runs, ranges, below)
  }

  /** Two neighbouring segments, the lowest level of both at their boundary,
      join with the second one first exactly when that level is odd. */
  ghost function Joined(a: Segment, b: Segment, low: nat): Segment {
    Segment(a.slot, low, a.lo, b.hi, if LevelOdd(low) then b.order + a.order else a.order + b.order)
  }

  lemma JoinOrdered(ln: Line, a: Segment, b: Segment, low: nat)
    requires ln.Valid() && Ordered(ln, a) && Ordered(ln, b) && a.hi == b.lo
    requires low <= a.level && low <= b.level
    requires ln.Level(a.hi - 1) == low || ln.Level(b.lo) == low
    ensures Ordered(ln, Joined(a, b, low))
  {
    hide Line.Spell;
    hide L2;
    hide Line.Part;
    hide Line.Content;
    hide Line.Level;
    var pa, pb := ln.Part(a.lo, a.hi), ln.Part(b.lo, b.hi);
    assert ln.Part(a.lo, b.hi) == pa + pb by { ln.PartJoin(a.lo, a.hi, b.hi); }
    assert L2(pa + pb, ln.top) == if LevelOdd(low) then L2(pb, ln.top) + L2(pa, ln.top)
           else L2(pa, ln.top) + L2(pb, ln.top) by {
      ln.EndsOfPart(a.lo, a.hi);
      ln.EndsOfPart(b.lo, b.hi);
      L2Split(pa, pb, low, ln.top);
    }
    ln.SpellJoin(a.order, b.order);
    ln.SpellJoin(b.order, a.order);
  }

  /** Stitching the end of one list to the head of another. */
  ghost function Stitch(runs: seq<L2Run>, at: nat, next: nat): seq<L2Run>
    requires at < |runs|
  {
    runs[at := runs[at].(next := next)]
  }

  lemma LinkJoin(runs: seq<L2Run>, a: seq<nat>, b: seq<nat>)
    requires Linked(runs, a) && Linked(runs, b)
    requires forall i, j | 0 <= i < |a| && 0 <= j < |b| :: a[i] != b[j]
    requires forall i, j | 0 <= i < j < |a| :: a[i] != a[j]
    ensures Linked(Stitch(runs, a[|a| - 1], b[0]), a + b)
  {
  }

  lemma LinkKeep(runs: seq<L2Run>, a: seq<nat>, at: nat, next: nat)
    requires Linked(runs, a) && at < |runs|
    requires forall i | 0 <= i < |a| :: a[i] != at
    ensures Linked(Stitch(runs, at, next), a)
  {
  }

  lemma WithinJoin(a: Segment, b: Segment, low: nat)
    requires Within(a) && Within(b) && a.lo < a.hi == b.lo < b.hi
    ensures Within(Joined(a, b, low))
  {
  }

  /** Writes beyond the covered runs and slots leave the stack held. */
  lemma {:induction false} HeldKeep(ln: Line, runs: seq<L2Run>, ranges: seq<L2Range>, st: Stack, done: nat,
                                    at: nat, next: nat, slot: nat, v: L2Range)
    requires ln.Valid() && Shape(ln, st, done) && Held(runs, ranges, st)
    requires done <= at < |runs| && st.Slot() < slot < |ranges|
    ensures Held(Stitch(runs, at, next), ranges[slot := v], st)
  {
    if st.Push? {
      LinkKeep(runs, st.top.order, at, next);
      HeldKeep(ln, runs, ranges, st.below, st.top.lo, at, next, slot, v);
    }
  }

  /** The two topmost ranges become one, in the lower slot. */
  ghost function Merged(st: Stack): Stack
    requires st.Push? && st.below.Push?
  {
    var p, t := st.below.top, st.top;
    Push(st.below.below, Joined(p, t, p.level))
  }

  lemma MergedShape(ln: Line, st: Stack, done: nat)
    requires ln.Valid() && Shape(ln, st, done) && st.Push? && st.below.Push?
    ensures Shape(ln, Merged(st), done)
  {
    JoinOrdered(ln, st.below.top, st.top, st.below.top.level);
    WithinJoin(st.below.top, st.top, st.below.top.level);
  }

  /** Linking `r` behind `l` and recording the ends in `slot` stores the joined
      list there. */
  lemma StitchStored(runs: seq<L2Run>, ranges: seq<L2Range>, l: seq<nat>, r: seq<nat>, slot: nat, g: Segment)
    requires Linked(runs, l) && Linked(runs, r) && slot < |ranges|
    requires forall i, j | 0 <= i < |l| && 0 <= j < |r| :: l[i] != r[j]
    requires forall i, j | 0 <= i < j < |l| :: l[i] != l[j]
    requires g.slot == slot && g.order == l + r
    ensures Stored(Stitch(runs, l[|l| - 1], r[0]),
                   ranges[slot := ranges[slot].(level := g.level, left := l[0], right := r[|r| - 1])], g)
  {
    LinkJoin(runs, l, r);
  }

  lemma Apart(a: Segment, b: Segment)
    requires Within(a) && Within(b) && a.hi <= b.lo
    ensures forall i, j | 0 <= i < |a.order| && 0 <= j < |b.order| :: a.order[i] != b.order[j]
    ensures forall i, j | 0 <= i < |b.order| && 0 <= j < |a.order| :: b.order[i] != a.order[j]
  {
  }

  lemma MergedHeld(ln: Line, runs: seq<L2Run>, ranges: seq<L2Range>, st: Stack, done: nat, l: seq<nat>, r: seq<nat>)
    requires ln.Valid() && Shape(ln, st, done) && Held(runs, ranges, st) && st.Push? && st.below.Push?
    requires (l, r) == if LevelOdd(st.below.top.level) then (st.top.order, st.below.top.order)
                                                       else (st.below.top.order, st.top.order)
    ensures l != [] && r != [] && l[|l| - 1] < |runs|
    ensures var slot := st.below.top.slot;
            Held(Stitch(runs, l[|l| - 1], r[0]), ranges[slot := ranges[slot].(left := l[0], right := r[|r| - 1])],
              Merged(st))
  {
    var p, t := st.below.top, st.top;
    Apart(p, t);
    StitchStored(runs, ranges, l, r, p.slot, Joined(p, t, p.level));
    HeldKeep(ln, runs, ranges, st.below.below, p.lo, l[|l| - 1], r[0],
             p.slot, ranges[p.slot].(left := l[0], right := r[|r| - 1]));
  }

  /** Run `k` as a segment of its own. */
  ghost function Single(ln: Line, slot: nat, k: nat): Segment
    requires ln.Valid() && k < |ln.runs|
  {
    Segment(slot, ln.Level(k), k, k + 1, [k])
  }

  lemma SingleOrdered(ln: Line, slot: nat, k: nat)
    requires ln.Valid() && k < |ln.runs|
    ensures Ordered(ln, Single(ln, slot, k)) && Within(Single(ln, slot, k)) && EndsLow(ln, Single(ln, slot, k))
  {
    ln.SpellRun(k);
    ln.PartOfRun(k);
    assert ln.RunOk(k);
  }

  /** The topmost range takes in the next run, whose level is not above its own. */
  ghost function Attached(ln: Line, st: Stack, k: nat): Stack
    requires ln.Valid() && k < |ln.runs| && st.Push?
  {
    Push(st.below, Joined(st.top, Single(ln, st.top.slot, k), ln.Level(k)))
  }

  lemma OrderedBounds(ln: Line, g: Segment)
    requires ln.Valid() && Ordered(ln, g)
    ensures g.lo < g.hi <= |ln.runs| && g.level <= ln.top
  {
  }

  lemma AttachedShape(ln: Line, st: Stack, k: nat)
    requires ln.Valid() && k < |ln.runs| && Shape(ln, st, k) && st.Push?
    requires ln.Level(k) <= st.top.level
    requires st.below.Push? ==> st.below.top.level < ln.Level(k)
    ensures Shape(ln, Attached(ln, st, k), k + 1) && EndsLow(ln, Attached(ln, st, k).top)
  {
    hide Ordered;
    hide Within;
    OrderedBounds(ln, st.top);
    SingleOrdered(ln, st.top.slot, k);
    JoinOrdered(ln, st.top, Single(ln, st.top.slot, k), ln.Level(k));
    WithinJoin(st.top, Single(ln, st.top.slot, k), ln.Level(k));
  }

  lemma AttachedHeld(ln: Line, runs: seq<L2Run>, ranges: seq<L2Range>, st: Stack, k: nat, l: seq<nat>, r: seq<nat>)
    requires ln.Valid() && k < |ln.runs| == |runs| && Shape(ln, st, k) && Held(runs, ranges, st) && st.Push?
    requires (l, r) == if LevelOdd(ln.Level(k)) then ([k], st.top.order) else (st.top.order, [k])
    ensures l != [] && r != [] && l[|l| - 1] < |runs|
    ensures var slot := st.top.slot;
            Held(Stitch(runs, l[|l| - 1], r[0]),
                 ranges[slot := ranges[slot].(level := ln.Level(k), left := l[0], right := r[|r| - 1])],
                 Attached(ln, st, k))
  {
    var g := Single(ln, st.top.slot, k);
    Apart(st.top, g);
    StitchStored(runs, ranges, l, r, g.slot, Joined(st.top, g, ln.Level(k)));
    HeldKeep(ln, runs, ranges, st.below, st.top.lo, l[|l| - 1], r[0],
             g.slot, ranges[g.slot].(level := ln.Level(k), left := l[0], right := r[|r| - 1]));
  }

  lemma {:induction false} RangesKeep(runs: seq<L2Run>, ranges: seq<L2Range>, st: Stack, slot: nat, v: L2Range)
    requires Held(runs, ranges, st) && st.Slot() < slot < |ranges|
    ensures Held(runs, ranges[slot := v], st)
  {
    if st.Push? {
      RangesKeep(runs, ranges, st.below, slot, v);
    }
  }

  /** A run above the level of every open range opens a range of its own. */
  lemma PushedHeld(ln: Line, runs: seq<L2Run>, ranges: seq<L2Range>, st: Stack, k: nat, slot: nat)
    requires ln.Valid() && k < |ln.runs| == |runs| && Shape(ln, st, k) && Held(runs, ranges, st)
    requires st.Slot() < slot < |ranges|
    ensures Held(runs, ranges[slot := L2Range(ln.Level(k), k, k, st.Slot())], Push(st, Single(ln, slot, k)))
  {
    if runs[k].next >= 0 {
      HeldKeep(ln, runs, ranges, st, k, k, runs[k].next, slot, L2Range(ln.Level(k), k, k, st.Slot()));
    }
    RangesKeep(runs, ranges, st, slot, L2Range(ln.Level(k), k, k, st.Slot()));
  }

  /** The arrays as the algorithm holds them after `done` runs. */
  ghost predicate State(ln: Line, runs: seq<L2Run>, ranges: seq<L2Range>, st: Stack, done: nat, top: int, count: nat)
    requires ln.Valid()
  {
    && |runs| == |ln.runs|
    && (forall k | 0 <= k < |runs| :: runs[k].level == ln.Level(k))
    && Shape(ln, st, done) && Held(runs, ranges, st)
    && top == st.Slot() < count <= done
  }

  /** Reordering changes nothing of a run but its link. */
  ghost predicate SameRuns(a: seq<L2Run>, b: seq<L2Run>) {
    |a| == |b| && forall k | 0 <= k < |a| :: a[k].(next := b[k].next) == b[k]
  }

  /** The ranges `top` and its predecessor in visual order: the predecessor
      comes first when its level is even. */
  function LeftRange(ranges: seq<L2Range>, top: nat): int
    requires top < |ranges| && 0 <= ranges[top].previous < |ranges|
  {
    if LevelOdd(ranges[ranges[top].previous].level) then top else ranges[top].previous
  }

  function RightRange(ranges: seq<L2Range>, top: nat): int
    requires top < |ranges| && 0 <= ranges[top].previous < |ranges|
  {
    if LevelOdd(ranges[ranges[top].previous].level) then ranges[top].previous else top
  }

  /** fribidi_l2_merge_range_with_previous. */
  method MergeRangeWithPrevious(runs: array<L2Run>, ranges: array<L2Range>, top: nat) returns (previous: nat)
    requires top < ranges.Length && 0 <= ranges[top].previous < ranges.Length
    requires ranges[LeftRange(ranges[..], top)].right < runs.Length
    modifies runs, ranges
    ensures previous == old(ranges[top].previous)
    ensures runs[..] == old(Stitch(runs[..], ranges[LeftRange(ranges[..], top)].right,
            ranges[RightRange(ranges[..], top)].left))
    ensures ranges[..] == old(ranges[..][ranges[top].previous := ranges[ranges[top].previous].(
                                left := ranges[LeftRange(ranges[..], top)].left,
                                right := ranges[RightRange(ranges[..], top)].right)])
  {
    previous := ranges[top].previous;
    var left, right := previous, top;
    if LevelOdd(ranges[previous].level) {
      left, right := top, previous;
    }
    runs[ranges[left].right] := runs[ranges[left].right].(next := ranges[right].left);
    ranges[previous] := ranges[previous].(left := ranges[left].left, right := ranges[right].right);
  }

  lemma MergedState(ln: Line, runs: seq<L2Run>, ranges: seq<L2Range>, st: Stack, done: nat, count: nat)
    requires ln.Valid() && State(ln, runs, ranges, st, done, st.Slot(), count) && st.Push? && st.below.Push?
    ensures ranges[st.top.slot].previous == st.below.top.slot < |ranges|
    ensures ranges[LeftRange(ranges, st.top.slot)].right < |runs|
    ensures var top, p := st.top.slot, st.below.top.slot;
            State(ln, Stitch(runs, ranges[LeftRange(ranges, top)].right, ranges[RightRange(ranges, top)].left),
                  ranges[p := ranges[p].(left := ranges[LeftRange(ranges, top)].left,
                    right := ranges[RightRange(ranges, top)].right)],
                  Merged(st), done, p, count)
    ensures Merged(st).Depth() < st.Depth()
  {
    assert st.below.Depth() == 1 + st.below.below.Depth();
    var p, t := st.below.top, st.top;
    var l, r := if LevelOdd(p.level) then t.order else p.order, if LevelOdd(p.level) then p.order else t.order;
    assert Held(runs, ranges, st.below);
    assert l[|l| - 1] == ranges[LeftRange(ranges, t.slot)].right && l[0] == ranges[LeftRange(ranges, t.slot)].left;
    assert r[|r| - 1] == ranges[RightRange(ranges, t.slot)].right && r[0] == ranges[RightRange(ranges, t.slot)].left;
    MergedShape(ln, st, done);
    MergedHeld(ln, runs, ranges, st, done, l, r);
  }

  /** The step that appends run `k` to the topmost range. */
  lemma AttachedState(ln: Line, runs: seq<L2Run>, ranges: seq<L2Range>, st: Stack, k: nat, count: nat)
    requires ln.Valid() && k < |ln.runs| && State(ln, runs, ranges, st, k, st.Slot(), count) && st.Push?
    requires ln.Level(k) <= st.top.level && (st.below.Push? ==> st.below.top.level < ln.Level(k))
    ensures st.top.slot < |ranges| && ranges[st.top.slot].right < |runs|
    ensures var top := st.top.slot; var g := ranges[top]; var odd := LevelOdd(ln.Level(k));
            State(ln, if odd then Stitch(runs, k, g.left) else Stitch(runs, g.right, k),
                  ranges[top := if odd then L2Range(ln.Level(k), k, g.right, g.previous)
                    else L2Range(ln.Level(k), g.left, k, g.previous)],
                  Attached(ln, st, k), k + 1, top, count)
    ensures EndsLow(ln, Attached(ln, st, k).top)
  {
    hide Ordered;
    hide Flat;
    var odd := LevelOdd(ln.Level(k));
    assert Stored(runs, ranges, st.top);
    AttachedShape(ln, st, k);
    AttachedHeld(ln, runs, ranges, st, k, if odd then [k] else st.top.order, if odd then st.top.order else [k]);
  }

  /** The step that opens a range for run `k`. */
  lemma PushedState(ln: Line, runs: seq<L2Run>, ranges: seq<L2Range>, st: Stack, k: nat, count: nat)
    requires ln.Valid() && k < |ln.runs| <= |ranges| && State(ln, runs, ranges, st, k, st.Slot(), count)
    requires st.Push? ==> EndsLow(ln, st.top) && st.top.level < ln.Level(k)
    ensures State(ln, runs, ranges[count := L2Range(ln.Level(k), k, k, st.Slot())],
                  Push(st, Single(ln, count, k)), k + 1, count, count + 1)
    ensures EndsLow(ln, Single(ln, count, k))
  {
    SingleOrdered(ln, count, k);
    PushedHeld(ln, runs, ranges, st, k, count);
  }

  ghost predicate TopRead(ranges: seq<L2Range>, st: Stack, top: int) {
    && (top == -1 <==> st.Empty?)
    && (st.Push? ==>
          0 <= top < |ranges| && ranges[top].level == st.top.level
          && ranges[top].previous == st.below.Slot())
    && (st.Push? && st.below.Push? ==>
          && 0 <= st.below.Slot() < |ranges| && ranges[st.below.Slot()].level == st.below.top.level
          && st.below.top.level < st.top.level)
  }

  /** What the code reads off the arrays about the two topmost ranges. */
  lemma Peek(ln: Line, runs: seq<L2Run>, ranges: seq<L2Range>, st: Stack, done: nat, top: int, count: nat)
    requires ln.Valid() && State(ln, runs, ranges, st, done, top, count)
    ensures TopRead(ranges, st, top)
  {
    if st.Push? && st.below.Push? {
      assert Held(runs, ranges, st.below);
    }
  }

  /** With one range left, its list is the whole line in L2 order. */
  lemma LastRange(ln: Line, runs: seq<L2Run>, ranges: seq<L2Range>, st: Stack, count: nat)
    requires ln.Valid() && State(ln, runs, ranges, st, |ln.runs|, st.Slot(), count) && st.Push? && st.below.Empty?
    ensures st.top.slot < |ranges| && ranges[st.top.slot].left == st.top.order[0]
    ensures ranges[st.top.slot].right == st.top.order[|st.top.order| - 1] < |runs|
    ensures Linked(runs[ranges[st.top.slot].right := runs[ranges[st.top.slot].right].(next := -1)], st.top.order)
    ensures ln.Spell(st.top.order) == L2(Flat(ln.runs), ln.top)
  {
    assert Shape(ln, Empty, st.top.lo);
    assert ln.runs[0..|ln.runs|] == ln.runs;
    assert Within(st.top);
  }

  /** The inner loop of fribidi_l2_linear_reorder: close ranges until the one
      below the top is lower than the level of run `i`. */
  method CloseDeeperRanges(runs: array<L2Run>, ranges: array<L2Range>, top: int, i: nat,
                           ghost ln: Line, ghost st: Stack, ghost count: nat)
    returns (newTop: int, ghost st': Stack)
    requires ln.Valid() && i < runs.Length && State(ln, runs[..], ranges[..], st, i, top, count)
    requires st.Push? ==> EndsLow(ln, st.top)
    modifies runs, ranges
    ensures State(ln, runs[..], ranges[..], st', i, newTop, count)
    ensures st'.Push? ==> EndsLow(ln, st'.top) || st'.top.level >= ln.Level(i)
    ensures st'.Push? && st'.below.Push? && st'.top.level >= ln.Level(i) ==>
              st'.top.level == ln.Level(i) || st'.below.top.level < ln.Level(i)
    ensures SameRuns(old(runs[..]), runs[..])
  {
    hide Held;
    hide Shape;
    hide Merged;
    hide Ordered;
    hide Stack.Depth;
    hide Line.Part;
    newTop, st' := top, st;
    Peek(ln, runs[..], ranges[..], st', i, newTop, count);
    while newTop != -1 && ranges[newTop].level > runs[i].level && ranges[newTop].previous != -1
          && ranges[ranges[newTop].previous].level >= runs[i].level
      invariant State(ln, runs[..], ranges[..], st', i, newTop, count)
      invariant st'.Push? ==> EndsLow(ln, st'.top) || st'.top.level >= ln.Level(i)
      invariant TopRead(ranges[..], st', newTop)
      invariant SameRuns(old(runs[..]), runs[..])
      decreases st'.Depth()
    {
      MergedState(ln, runs[..], ranges[..], st', i, count);
      newTop := MergeRangeWithPrevious(runs, ranges, newTop);
      st' := Merged(st');
      Peek(ln, runs[..], ranges[..], st', i, newTop, count);
    }
  }

  /** The rest of the loop body: attach run `i` to the topmost range, or open a
      range for it. */
  method PlaceRun(runs: array<L2Run>, ranges: array<L2Range>, top: int, i: nat, count: nat,
                  ghost ln: Line, ghost st: Stack)
    returns (newTop: nat, newCount: nat, ghost st': Stack)
    requires ln.Valid() && i < runs.Length == ranges.Length && State(ln, runs[..], ranges[..], st, i, top, count)
    requires st.Push? ==> EndsLow(ln, st.top) || st.top.level >= ln.Level(i)
    requires st.Push? && st.below.Push? && st.top.level >= ln.Level(i) ==>
               st.top.level == ln.Level(i) || st.below.top.level < ln.Level(i)
    modifies runs, ranges
    ensures State(ln, runs[..], ranges[..], st', i + 1, newTop, newCount) && st'.Push? && EndsLow(ln, st'.top)
    ensures SameRuns(old(runs[..]), runs[..])
  {
    hide Held;
    hide Shape;
    hide Ordered;
    hide Within;
    hide Line.Part;
    newTop, newCount := i, count;
    Peek(ln, runs[..], ranges[..], st, i, top, count);
    if top != -1 && ranges[top].level >= runs[i].level {
      AttachedState(ln, runs[..], ranges[..], st, i, count);
      ghost var runs0, ranges0 := runs[..], ranges[..];
      newTop := top;
      if LevelOdd(runs[i].level) {
        runs[i] := runs[i].(next := ranges[top].left);
        ranges[top] := ranges[top].(left := i);
      } else {
        runs[ranges[top].right] := runs[ranges[top].right].(next := i);
        ranges[top] := ranges[top].(right := i);
      }
      ranges[top] := ranges[top].(level := runs[i].level);
      st' := Attached(ln, st, i);
      assert runs[..] == if LevelOdd(ln.Level(i)) then Stitch(runs0, i, ranges0[top].left)
             else Stitch(runs0, ranges0[top].right, i);
      assert ranges[..] == ranges0[top := ranges[top]];
      assert State(ln, runs[..], ranges[..], st', i + 1, newTop, newCount);
    } else {
      PushedState(ln, runs[..], ranges[..], st, i, count);
      newTop, newCount := count, count + 1;
      ranges[newTop] := L2Range(runs[i].level, i, i, top);
      st' := Push(st, Single(ln, count, i));
      assert State(ln, runs[..], ranges[..], st', i + 1, newTop, newCount);
    }
  }

  /** The closing loop: merge until one range is left. */
  method CloseAllRanges(runs: array<L2Run>, ranges: array<L2Range>, top: nat, ghost ln: Line, ghost st: Stack,
                        ghost count: nat)
    returns (last: nat, ghost st': Stack)
    requires ln.Valid() && State(ln, runs[..], ranges[..], st, |ln.runs|, top, count) && st.Push?
    modifies runs, ranges
    ensures State(ln, runs[..], ranges[..], st', |ln.runs|, last, count) && st'.Push? && st'.below.Empty?
    ensures SameRuns(old(runs[..]), runs[..])
  {
    hide Held;
    hide Shape;
    hide Merged;
    hide Ordered;
    hide Stack.Depth;
    hide Line.Part;
    last, st' := top, st;
    Peek(ln, runs[..], ranges[..], st', |ln.runs|, last, count);
    while ranges[last].previous != -1
      invariant State(ln, runs[..], ranges[..], st', |ln.runs|, last, count) && st'.Push?
      invariant TopRead(ranges[..], st', last)
      invariant SameRuns(old(runs[..]), runs[..])
      decreases st'.Depth()
    {
      MergedState(ln, runs[..], ranges[..], st', |ln.runs|, count);
      last := MergeRangeWithPrevious(runs, ranges, last);
      st' := Merged(st');
      Peek(ln, runs[..], ranges[..], st', |ln.runs|, last, count);
    }
  }

  /** fribidi_l2_linear_reorder: links the runs in visual order and returns the
      left-most one.  `order` is that list; it spells the line as L2 does. */
  method LinearReorder(runs: array<L2Run>, ranges: array<L2Range>, ghost ln: Line)
    returns (left: nat, ghost order: seq<nat>)
    requires ln.Valid() && runs.Length == ranges.Length == |ln.runs| > 0
    requires forall k | 0 <= k < runs.Length :: runs[k].level == ln.Level(k)
    modifies runs, ranges
    ensures Linked(runs[..], order) && left == order[0] && runs[order[|order| - 1]].next == -1
    ensures ln.Spell(order) == L2(Flat(ln.runs), ln.top)
    ensures SameRuns(old(runs[..]), runs[..])
  {
    var top := -1;
    var count := 0;
    var i := 0;
    ghost var st := Empty;
    while i < runs.Length
      invariant 0 <= i <= runs.Length
      invariant State(ln, runs[..], ranges[..], st, i, top, count)
      invariant st.Push? ==> EndsLow(ln, st.top)
      invariant i > 0 ==> st.Push?
      invariant SameRuns(old(runs[..]), runs[..])
    {
      top, st := CloseDeeperRanges(runs, ranges, top, i, ln, st, count);
      top, count, st := PlaceRun(runs, ranges, top, i, count, ln, st);
      i := i + 1;
    }
    top, st := CloseAllRanges(runs, ranges, top, ln, st, count);
    LastRange(ln, runs[..], ranges[..], st, count);
    order := st.top.order;
    runs[ranges[top].right] := runs[ranges[top].right].(next := -1);
    left := ranges[top].left;
  }
}
