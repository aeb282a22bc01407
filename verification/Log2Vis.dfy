/** fribidi_log2vis: levels, visual text and the two position maps in one call. */
module Log2Vis {
  import opened BidiTypes
  import opened LineOrder
  import opened VisualRules
  import opened VisualPairs
  import opened ReorderLine
  import Runs
  import ExplicitPhase
  import ExplicitLevels
  import KeptRuns
  import TextLevels
  import FinalLevels
  import ParagraphLevels

  // ----- The visual order is a permutation -----

  /** `m` is a permutation of the positions below `n`. */
  ghost predicate Permutes(m: seq<int>, n: nat) {
    && |m| == n && (forall i | 0 <= i < n :: 0 <= m[i] < n)
    && (forall i, j | 0 <= i < j < n :: m[i] != m[j])
    && (forall p | 0 <= p < n :: p in m)
  }

  ghost function Positions(order: seq<Glyph>): (m: seq<int>)
    ensures |m| == |order| && forall i | 0 <= i < |m| :: m[i] == order[i].pos
  {
    seq(|order|, i requires 0 <= i < |order| => order[i].pos)
  }

  /** With any flags the visual order takes every position once. */
  lemma VisualPermutes(types: seq<BidiType>, levels: seq<nat>, reorderNsm: bool)
    requires |types| == |levels|
    ensures Permutes(Positions(VisualOrder(types, levels, 0, reorderNsm)), |levels|)
  {
    hide VisualOrder;
    VisualMultiset(types, levels, 0, reorderNsm);
    var line, order := Slots(levels, 0), VisualOrder(types, levels, 0, reorderNsm);
    SameSize(order, line);
    forall i | 0 <= i < |order| ensures order[i].pos < |levels| && order[i] == line[order[i].pos] {
      InBoth(order, line, i);
    }
    forall i, j | 0 <= i < j < |order| ensures order[i].pos != order[j].pos {
      Once(order, line, i, j);
    }
    forall p | 0 <= p < |levels| ensures p in Positions(order) {
      assert line[p] in multiset(line);
      assert line[p] in order;
      var i :| 0 <= i < |order| && order[i] == line[p];
      assert Positions(order)[i] == p;
    }
  }

  // ----- The maps -----

  /** `back` undoes `there`. */
  ghost predicate Undoes(back: seq<int>, there: seq<int>) {
    |back| == |there| && forall i | 0 <= i < |there| :: 0 <= there[i] < |back| && back[there[i]] == i
  }

  ghost predicate Hits(v: seq<int>, l: seq<int>, i: nat) {
    |v| == |l| && i < |v| && 0 <= v[i] < |l| && l[v[i]] == i
  }

  lemma OncePosition(v: seq<int>, n: nat, i: nat)
    requires Permutes(v, n) && i < n
    ensures 0 <= v[i] < n && forall h | 0 <= h < i :: v[h] != v[i]
  {
  }

  /** What undoes a permutation is undone by it. */
  lemma InverseOfPermutation(v: seq<int>, l: seq<int>)
    requires Permutes(v, |v|) && |l| == |v| && forall i | 0 <= i < |v| :: Hits(v, l, i)
    ensures Undoes(l, v) && Undoes(v, l) && Permutes(l, |v|)
  {
    forall p | 0 <= p < |l| ensures 0 <= l[p] < |v| && v[l[p]] == p {
      assert p in v;
      var i :| 0 <= i < |v| && v[i] == p;
      assert Hits(v, l, i);
    }
    forall i | 0 <= i < |l| ensures i in l {
      assert Hits(v, l, i);
      assert l[v[i]] == i;
    }
  }

  /** The loops that turn the V-to-L map around. */
  method Invert(vToL: array<int>, lToV: array<int>, len: nat)
    requires vToL != lToV && len <= vToL.Length && len <= lToV.Length && Permutes(vToL[..len], len)
    modifies lToV
    ensures Undoes(lToV[..len], vToL[..len]) && Undoes(vToL[..len], lToV[..len]) && Permutes(lToV[..len], len)
  {
    hide Permutes;
    ghost var v := vToL[..len];
    for i := 0 to len
      invariant vToL[..len] == v
      invariant forall p | 0 <= p < i :: lToV[p] == -1
    {
      lToV[i] := -1;
    }
    for i := 0 to len
      invariant vToL[..len] == v
      invariant forall h | 0 <= h < i :: Hits(v, lToV[..len], h)
    {
      OncePosition(v, len, i);
      ghost var was := lToV[..len];
      lToV[vToL[i]] := i;
      forall h | 0 <= h <= i ensures Hits(v, lToV[..len], h) {
        assert h < i ==> Hits(v, was, h) && v[h] != v[i];
      }
    }
    InverseOfPermutation(v, lToV[..len]);
  }

  // ----- The call -----

  /** The visual text: at each place the character the order puts there. */
  ghost predicate Shown<T>(visual: seq<T>, shaped: seq<T>, order: seq<Glyph>) {
    |visual| == |order| && forall i | 0 <= i < |order| :: order[i].pos < |shaped| && visual[i] == shaped[order[i].pos]
  }

  ghost predicate Identity(m: seq<int>) {
    forall i | 0 <= i < |m| :: m[i] == i
  }

  lemma HeldIs<T>(now: seq<T>, was: seq<T>, order: seq<Glyph>)
    requires Rearranged(now, was, 0, order) && |order| == |was|
    ensures Shown(now, was, order)
  {
  }

  lemma HeldIdentity(now: seq<int>, was: seq<int>, order: seq<Glyph>)
    requires Rearranged(now, was, 0, order) && |order| == |was| && Identity(was)
    ensures now == Positions(order)
  {
  }

  method CopyText<T>(text: seq<T>, buffer: array<T>)
    requires buffer.Length == |text|
    modifies buffer
    ensures buffer[..] == text
  {
    for i := 0 to |text|
      invariant buffer[..i] == text[..i]
    {
      buffer[i] := text[i];
    }
  }

  method SetIdentity(m: array<int>)
    modifies m
    ensures Identity(m[..])
  {
    for i := 0 to m.Length
      invariant forall p | 0 <= p < i :: m[p] == p
    {
      m[i] := i;
    }
  }

  lemma VisualLength(types: seq<BidiType>, levels: seq<nat>, reorderNsm: bool)
    requires |types| == |levels|
    ensures |VisualOrder(types, levels, 0, reorderNsm)| == |levels|
  {
    hide VisualOrder;
    VisualMultiset(types, levels, 0, reorderNsm);
    SameSize(VisualOrder(types, levels, 0, reorderNsm), Slots(levels, 0));
  }

  /** The whole paragraph as one line. */
  method ReorderBuffers<T(0)>(types: seq<BidiType>, reorderNsm: bool, baseDir: BidiType, levels: array<nat>,
                              visual: array?<T>, vToL: array?<int>)
    requires levels.Length == |types|
    requires visual != null ==> visual.Length == |types| && (visual as object?) != vToL && (visual as object) != levels
    requires vToL != null ==> vToL.Length == |types| && (vToL as object) != levels && Identity(vToL[..])
    modifies levels, visual, vToL
    ensures forall p | 0 <= p < |types| ::
              levels[p] == if p >= TrailingStart(types) then DirToLevel(baseDir) else old(levels[p])
    ensures visual != null ==> Shown(visual[..], old(Contents(visual)), VisualOrder(types, levels[..], 0, reorderNsm))
    ensures vToL != null ==> vToL[..] == Positions(VisualOrder(types, levels[..], 0, reorderNsm))
  {
    hide Rearranged;
    hide VisualOrder;
    hide TrailingStart;
    hide MaxLevel;
    hide Identity;
    hide Shown;
    ghost var text, places := Contents(visual), Contents(vToL);
    var _ := ReorderLine.ReorderLine(reorderNsm, types, |types|, 0, baseDir, levels, visual, vToL);
    assert types[0..|types|] == types && levels[0..|types|] == levels[..];
    ghost var order := VisualOrder(types, levels[..], 0, reorderNsm);
    VisualLength(types, levels[..], reorderNsm);
    if visual != null {
      HeldIs(visual[..], text, order);
    }
    if vToL != null {
      HeldIdentity(vToL[..], places, order);
    }
  }

  lemma {:induction false} TrailingResets(types: seq<BidiType>, p: nat)
    requires TrailingStart(types) <= p < |types|
    ensures FinalLevels.Resets(types, p)
    decreases |types| - p
  {
    hide TrailingStart;
    assert TrailingType(types[p]);
    if p + 1 < |types| {
      TrailingResets(types, p + 1);
    }
  }

  /** The line keeps the levels of the paragraph: what part 4 of L1 resets at the
      end of a line, L1 has reset at the end of the paragraph. */
  lemma TrailingReset(types: seq<BidiType>, brackets: seq<Runs.Bracket>, base: nat, levels: seq<nat>, before: seq<nat>)
    requires |types| == |brackets| == |levels| == |before| && ExplicitPhase.Shallow(types, base)
    requires before == TextLevels.ParLevels(types, brackets, base)
    requires forall p | 0 <= p < |types| :: levels[p] == if p >= TrailingStart(types) then base else before[p]
    ensures levels == before
  {
    hide ExplicitPhase.Shallow;
    hide TextLevels.LevelBefore;
    hide FinalLevels.Resets;
    hide TrailingStart;
    forall p | 0 <= p < |types| ensures levels[p] == before[p] {
      if p >= TrailingStart(types) {
        TrailingResets(types, p);
        assert before[p] == TextLevels.FinalLevel(types, brackets, base, p);
      }
    }
  }

  method InvertAll(vToL: array<int>, lToV: array<int>)
    requires vToL != lToV && vToL.Length == lToV.Length && Permutes(vToL[..], vToL.Length)
    modifies lToV
    ensures Undoes(lToV[..], vToL[..]) && Undoes(vToL[..], lToV[..])
  {
    hide Permutes;
    hide Undoes;
    assert vToL[..vToL.Length] == vToL[..];
    Invert(vToL, lToV, vToL.Length);
    assert lToV[..vToL.Length] == lToV[..];
  }

  /** Copying, shaping, reordering and inverting, once the levels are known. */
  method FillBuffers<T(0)>(types: seq<BidiType>, reorderNsm: bool, baseDir: BidiType, levels: array<nat>,
                           shape: seq<nat> -> seq<T>, visual: array?<T>, vToL0: array?<int>, lToV: array?<int>)
    returns (ghost order: seq<Glyph>)
    requires levels.Length == |types| && (levels as object?) != vToL0 && (levels as object?) != lToV
             && (levels as object?) != visual
    requires forall l: seq<nat> :: |l| == |types| ==> |shape(l)| == |types|
    requires visual != null ==> visual.Length == |types| && (visual as object?) != vToL0 && (visual as object?) != lToV
    requires vToL0 != null ==> vToL0.Length == |types| && vToL0 != lToV
    requires lToV != null ==> lToV.Length == |types|
    modifies levels, visual, vToL0, lToV
    ensures forall p | 0 <= p < |types| ::
              levels[p] == if p >= TrailingStart(types) then DirToLevel(baseDir) else old(levels[p])
    ensures order == VisualOrder(types, levels[..], 0, reorderNsm) && Permutes(Positions(order), |types|)
    ensures visual != null ==> Shown(visual[..], shape(old(levels[..])), order)
    ensures vToL0 != null ==> vToL0[..] == Positions(order)
    ensures lToV != null ==> Undoes(lToV[..], Positions(order)) && Undoes(Positions(order), lToV[..])
  {
    hide Permutes;
    hide VisualOrder;
    hide Undoes;
    hide Shown;
    hide Identity;
    hide TrailingStart;
    ghost var before := levels[..];
    var vToL := vToL0;
    if vToL == null && lToV != null {
      vToL := new int[|types|];
    }
    if vToL != null {
      SetIdentity(vToL);
    }
    if visual != null {
      assert levels[..] == before;
      CopyText(shape(levels[..]), visual);
    }
    ReorderBuffers(types, reorderNsm, baseDir, levels, visual, vToL);
    order := VisualOrder(types, levels[..], 0, reorderNsm);
    VisualPermutes(types, levels[..], reorderNsm);
    if lToV != null {
      InvertAll(vToL, lToV);
    }
  }

  lemma DirOfBit(base: nat)
    requires base <= 1
    ensures DirToLevel(LevelToDir(base)) == base
  {
  }

  /** fribidi_log2vis for one paragraph on one line.  `shape` stands for Arabic
      joining and shaping, which look at the levels.  Whatever buffers are left
      out, the others are filled for one and the same permutation of the text,
      the one that the levels of the paragraph ask for. */
  method LogicalToVisual<T(0)>(types: seq<BidiType>, brackets: seq<Runs.Bracket>, strong: bool, fallback: nat,
                           reorderNsm: bool,
                               shape: seq<nat> -> seq<T>, visual: array?<T>, vToL0: array?<int>, lToV: array?<int>)
    returns (levels: array<nat>, result: nat, ghost order: seq<Glyph>)
    requires |types| == |brackets| && types != [] && ExplicitLevels.OneParagraph(types) && fallback <= 1
    requires ExplicitPhase.Shallow(types, KeptRuns.BaseLevel(types, strong, fallback))
    requires forall l: seq<nat> :: |l| == |types| ==> |shape(l)| == |types|
    requires visual != null ==> visual.Length == |types| && (visual as object?) != vToL0 && (visual as object?) != lToV
    requires vToL0 != null ==> vToL0.Length == |types| && vToL0 != lToV
    requires lToV != null ==> lToV.Length == |types|
    modifies visual, vToL0, lToV
    ensures var base := KeptRuns.BaseLevel(types, strong, fallback);
            levels[..] == TextLevels.ParLevels(types, brackets, base)
              && ParagraphLevels.Tops(result, ParagraphLevels.LevelsBefore(types, brackets, base), base)
    ensures order == VisualOrder(types, levels[..], 0, reorderNsm) && Permutes(Positions(order), |types|)
    ensures VisuallyOrdered(types, levels[..], 0, reorderNsm, order)
    ensures visual != null ==> Shown(visual[..], shape(levels[..]), order)
    ensures vToL0 != null ==> vToL0[..] == Positions(order)
    ensures lToV != null ==> Undoes(lToV[..], Positions(order)) && Undoes(Positions(order), lToV[..])
  {
    hide *;
    ghost var tr;
    var baseDir;
    levels, result, baseDir, tr := ParagraphLevels.GetParEmbeddingLevels(types, brackets, strong, fallback);
    ghost var before := levels[..];
    ghost var base := KeptRuns.BaseLevel(types, strong, fallback);
    KeptRuns.BaseIsBit(types, strong, fallback);
    DirOfBit(base);
    order := FillBuffers(types, reorderNsm, baseDir, levels, shape, visual, vToL0, lToV);
    TrailingReset(types, brackets, base, levels[..], before);
    VisualPair(types, levels[..], 0, reorderNsm);
  }
}
