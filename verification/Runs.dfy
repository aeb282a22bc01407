/** The run list (lib/run.h): maximal stretches of one bidi type, and its
    construction from the characters (run_list_encode_bidi_types). */
module Runs {
  import opened BidiTypes

  /** FriBidiBracketType: an identifier shared by a pair, and the side. */
  datatype Bracket = NoBracket | Bracket(id: nat, open: bool)

  /** FriBidiRun without its links; level -1 is FRIBIDI_SENTINEL. */
  datatype Run = Run(pos: nat, len: nat, kind: BidiType, level: int, isolateLevel: nat, bracket: Bracket,
      fsiBaseLevel: nat)

  function NewRun(kind: BidiType, pos: nat, bracket: Bracket): Run {
    Run(pos, 0, kind, 0, 0, bracket, 0)
  }

  /** How many characters the first `i` runs hold. */
  ghost function Off(runs: seq<Run>, i: nat): nat
    requires i <= |runs|
  {
    if i == 0 then 0 else Off(runs, i - 1) + runs[i - 1].len
  }

  /** The runs tile the positions below `end`, in order and without gaps. */
  ghost predicate Tiled(runs: seq<Run>, end: nat) {
    && (forall k | 0 <= k < |runs| :: runs[k].len > 0)
    && (forall k | 0 < k < |runs| :: runs[k].pos == runs[k - 1].pos + runs[k - 1].len)
    && (runs == [] ==> end == 0)
    && (runs != [] ==> runs[0].pos == 0 && runs[|runs| - 1].pos + runs[|runs| - 1].len == end)
  }

  /** Every character of a run has the run's type and bracket; isolate
      formatting characters and brackets stand alone. */
  ghost predicate Uniform(r: Run, types: seq<BidiType>, brackets: seq<Bracket>)
    requires |types| == |brackets|
  {
    && r.pos + r.len <= |types|
    && (forall p | r.pos <= p < r.pos + r.len :: types[p] == r.kind && brackets[p] == r.bracket)
    && (r.kind.IsIsolate() || r.bracket != NoBracket ==> r.len == 1)
  }

  /** Neighbours could not have been one run. */
  ghost predicate Apart(a: Run, b: Run) {
    a.kind != b.kind || a.bracket != NoBracket || b.bracket != NoBracket || b.kind.IsIsolate()
  }

  ghost predicate Encodes(runs: seq<Run>, types: seq<BidiType>, brackets: seq<Bracket>)
    requires |types| == |brackets|
  {
    && Tiled(runs, |types|)
    && (forall k | 0 <= k < |runs| ::
          Uniform(runs[k], types, brackets)
          && runs[k] == NewRun(runs[k].kind, runs[k].pos, runs[k].bracket).(len := runs[k].len))
    && (forall k | 0 < k < |runs| :: Apart(runs[k - 1], runs[k]))
  }

  lemma UniformKeep(r: Run, types: seq<BidiType>, brackets: seq<Bracket>, t: BidiType, b: Bracket)
    requires |types| == |brackets| && Uniform(r, types, brackets)
    ensures Uniform(r, types + [t], brackets + [b])
  {
  }

  /** One more character in the last run. */
  lemma ExtendLast(runs: seq<Run>, types: seq<BidiType>, brackets: seq<Bracket>, t: BidiType)
    requires |types| == |brackets| && Encodes(runs, types, brackets) && runs != []
    requires runs[|runs| - 1].kind == t && runs[|runs| - 1].bracket == NoBracket && !t.IsIsolate()
    ensures Encodes(runs[|runs| - 1 := runs[|runs| - 1].(len := runs[|runs| - 1].len + 1)], types + [t],
            brackets + [NoBracket])
  {
    forall k | 0 <= k < |runs| - 1 ensures Uniform(runs[k], types + [t], brackets + [NoBracket]) {
      UniformKeep(runs[k], types, brackets, t, NoBracket);
    }
    assert Uniform(runs[|runs| - 1], types, brackets);
  }

  lemma TiledAppend(runs: seq<Run>, end: nat, r: Run)
    requires Tiled(runs, end) && r.pos == end && r.len > 0
    ensures Tiled(runs + [r], end + r.len)
  {
  }

  /** One more character in a run of its own. */
  lemma AddRun(runs: seq<Run>, types: seq<BidiType>, brackets: seq<Bracket>, t: BidiType, b: Bracket)
    requires |types| == |brackets| && Encodes(runs, types, brackets)
    requires runs != [] ==> Apart(runs[|runs| - 1], NewRun(t, |types|, b))
    ensures Encodes(runs + [NewRun(t, |types|, b).(len := 1)], types + [t], brackets + [b])
  {
    hide Tiled;
    TiledAppend(runs, |types|, NewRun(t, |types|, b).(len := 1));
    forall k | 0 <= k < |runs| ensures Uniform(runs[k], types + [t], brackets + [b]) {
      UniformKeep(runs[k], types, brackets, t, b);
    }
  }

  /** The list with the length of its last run filled in for a text that ends
      at `end`. */
  function CloseLast(runs: seq<Run>, end: nat): seq<Run> {
    if runs == [] then []
    else
      var last := runs[|runs| - 1];
      runs[|runs| - 1 := last.(len := if end >= last.pos then end - last.pos else 0)]
  }

  lemma EncodesNothing(types: seq<BidiType>, brackets: seq<Bracket>)
    ensures Encodes([], types[..0], brackets[..0])
  {
  }

  /** run_list_encode_bidi_types.  The last run's length is only known once the
      next run starts or the text ends. */
  method EncodeRuns(types: seq<BidiType>, brackets: seq<Bracket>) returns (runs: seq<Run>, hasIsolate: bool)
    requires |types| == |brackets|
    ensures Encodes(runs, types, brackets)
    ensures hasIsolate <==> exists i | 0 <= i < |types| :: types[i].IsIsolate()
  {
    hide Tiled;
    hide Uniform;
    hide Encodes;
    runs, hasIsolate := [], false;
    EncodesNothing(types, brackets);
    for i := 0 to |types|
      invariant hasIsolate <==> exists j | 0 <= j < i :: types[j].IsIsolate()
      invariant Encodes(CloseLast(runs, i), types[..i], brackets[..i])
      invariant runs != [] ==> runs[|runs| - 1].pos <= i
    {
      if types[i].IsIsolate() {
        hasIsolate := true;
      }
      assert types[..i + 1] == types[..i] + [types[i]] && brackets[..i + 1] == brackets[..i] + [brackets[i]];
      ghost var closed := CloseLast(runs, i);
      if runs == [] || types[i] != runs[|runs| - 1].kind || brackets[i] != NoBracket
        || runs[|runs| - 1].bracket != NoBracket
         || types[i].IsIsolate() {
        AddRun(closed, types[..i], brackets[..i], types[i], brackets[i]);
        runs := CloseLast(runs, i) + [NewRun(types[i], i, brackets[i])];
        assert CloseLast(runs, i + 1) == closed + [NewRun(types[i], i, brackets[i]).(len := 1)];
      } else {
        ExtendLast(closed, types[..i], brackets[..i], types[i]);
        assert CloseLast(runs, i + 1) == closed[|closed| - 1 := closed[|closed| - 1].(len := closed[|closed| - 1].len
               + 1)];
      }
    }
    assert types[..|types|] == types && brackets[..|types|] == brackets;
    runs := CloseLast(runs, |types|);
  }

  // ----- Changing the list -----

  /** merge_with_prev. */
  function MergeWithPrev(runs: seq<Run>, k: nat): (r: seq<Run>)
    requires 0 < k < |runs|
    ensures |r| == |runs| - 1 && r[k - 1] == runs[k - 1].(len := runs[k - 1].len + runs[k].len)
  {
    runs[..k - 1] + [runs[k - 1].(len := runs[k - 1].len + runs[k].len)] + runs[k + 1..]
  }

  function SetKind(runs: seq<Run>, k: nat, kind: BidiType): (r: seq<Run>)
    requires k < |runs|
    ensures |r| == |runs|
  {
    runs[k := runs[k].(kind := kind)]
  }

  const STRONG_SLOTS := 127

  /** Isolate levels fit the tables that are indexed by them. */
  ghost predicate IsolatesFit(runs: seq<Run>) {
    forall i | 0 <= i < |runs| :: runs[i].isolateLevel < STRONG_SLOTS
  }

  lemma MergeFits(runs: seq<Run>, k: nat)
    requires 0 < k < |runs| && IsolatesFit(runs)
    ensures IsolatesFit(MergeWithPrev(runs, k))
  {
    var r := MergeWithPrev(runs, k);
    forall i | 0 <= i < |r| ensures r[i].isolateLevel < STRONG_SLOTS {
      assert runs[if i < k then i else i + 1].isolateLevel < STRONG_SLOTS;
    }
  }

  /** The lists agree but for the types of some runs. */
  ghost predicate SameShape(a: seq<Run>, b: seq<Run>) {
    |a| == |b| && forall i | 0 <= i < |a| :: b[i] == a[i].(kind := b[i].kind)
  }

  /** Runs of the same places, lengths and levels. */
  ghost predicate SameFrame(a: seq<Run>, b: seq<Run>) {
    && |a| == |b|
    && forall i | 0 <= i < |a| ::
         b[i].pos == a[i].pos && b[i].len == a[i].len && b[i].level == a[i].level
           && b[i].isolateLevel == a[i].isolateLevel
  }
}
