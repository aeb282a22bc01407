/** fribidi_reorder_line: part 4 of rule L1, rule L3 and rule L2 applied to one
    line of a paragraph, moving the text and the position map together. */
module ReorderLine {
  import opened BidiTypes
  import opened LineOrder
  import opened LinearReorder
  import opened VisualRules
  import opened VisualPairs

  // ----- Buffers that hold a rearranged line -----

  /** Buffer `now` holds what buffer `was` held, with the line starting at `off`
      rearranged into `order`. */
  ghost predicate Rearranged<T>(now: seq<T>, was: seq<T>, off: nat, order: seq<Glyph>) {
    && |now| == |was| && off + |order| <= |was|
    && (forall i | 0 <= i < |order| :: order[i].pos < |was| && now[off + i] == was[order[i].pos])
    && now[..off] == was[..off] && now[off + |order|..] == was[off + |order|..]
  }

  /** The same for an output buffer that the caller may leave out. */
  ghost predicate Holds<T>(a: array?<T>, was: seq<T>, off: nat, order: seq<Glyph>)
    reads a
  {
    a != null ==> Rearranged(a[..], was, off, order)
  }

  ghost function Contents<T>(a: array?<T>): seq<T>
    reads a
  {
    if a == null then [] else a[..]
  }

  ghost function Turn(order: seq<Glyph>, lo: nat, hi: nat): (r: seq<Glyph>)
    requires lo <= hi <= |order|
    ensures |r| == |order|
  {
    order[..lo] + Reverse(order[lo..hi]) + order[hi..]
  }

  lemma TurnRearranged<T>(now: seq<T>, was: seq<T>, off: nat, order: seq<Glyph>, lo: nat, hi: nat, after: seq<T>)
    requires Rearranged(now, was, off, order) && lo <= hi <= |order|
    requires after == now[..off + lo] + Reverse(now[off + lo..off + hi]) + now[off + hi..]
    ensures Rearranged(after, was, off, Turn(order, lo, hi))
  {
    hide Reverse;
    var r := Turn(order, lo, hi);
    forall i | 0 <= i < |r| ensures r[i].pos < |was| && after[off + i] == was[r[i].pos] {
      if lo <= i < hi {
        ReverseAt(order[lo..hi], i - lo);
        ReverseAt(now[off + lo..off + hi], i - lo);
        assert r[i] == order[hi - 1 - (i - lo)];
        assert after[off + i] == now[off + (hi - 1 - (i - lo))];
      }
    }
  }

  // ----- Reversal in place -----

  /** Where slot `p` comes from once the `i` outermost pairs are exchanged. */
  function Mirrored(p: nat, start: nat, len: nat, i: nat): (q: nat)
    requires i <= len / 2
    ensures start <= p < start + len ==> start <= q < start + len
    ensures !(start <= p < start + len) ==> q == p
  {
    if start <= p < start + i || start + len - i <= p < start + len then 2 * start + len - 1 - p else p
  }

  lemma MirroredIsReverse<T>(now: seq<T>, was: seq<T>, start: nat, len: nat)
    requires start + len <= |was| == |now|
    requires forall p {:trigger now[p]} | 0 <= p < |now| :: now[p] == was[Mirrored(p, start, len, len / 2)]
    ensures now == was[..start] + Reverse(was[start..start + len]) + was[start + len..]
  {
    hide Reverse;
    var part := was[start..start + len];
    forall k | 0 <= k < len ensures Reverse(part)[k] == now[start + k] {
      ReverseAt(part, k);
      assert part[len - 1 - k] == was[start + len - 1 - k];
    }
    assert now[start..start + len] == Reverse(part);
    assert now == now[..start] + now[start..start + len] + now[start + len..];
    assert now[..start] == was[..start] && now[start + len..] == was[start + len..];
  }

  /** bidi_string_reverse and index_array_reverse. */
  method ReverseInPlace<T>(a: array<T>, start: nat, len: nat)
    requires start + len <= a.Length
    modifies a
    ensures a[..] == old(a[..start]) + Reverse(old(a[start..start + len])) + old(a[start + len..])
  {
    ghost var was := a[..];
    var i := 0;
    while i < len / 2
      invariant 0 <= i <= len / 2
      invariant forall p {:trigger a[p]} | 0 <= p < a.Length :: a[p] == was[Mirrored(p, start, len, i)]
    {
      a[start + i], a[start + len - 1 - i] := a[start + len - 1 - i], a[start + i];
      i := i + 1;
    }
    MirroredIsReverse(a[..], was, start, len);
  }

  lemma TurnBounds<T>(now: seq<T>, was: seq<T>, off: nat, order: seq<Glyph>)
    requires Rearranged(now, was, off, order)
    ensures off + |order| <= |now| == |was|
  {
  }

  /** Both output buffers are turned around at the same place. */
  method ReverseBoth<T, U>(visual: array?<T>, posMap: array?<U>, start: nat, len: nat,
                           ghost text: seq<T>, ghost places: seq<U>, ghost off: nat, ghost order: seq<Glyph>)
    requires off <= start && start + len <= off + |order|
    requires Holds(visual, text, off, order) && Holds(posMap, places, off, order)
    requires visual != null ==> (visual as object?) != posMap
    modifies visual, posMap
    ensures Holds(visual, text, off, Turn(order, start - off, start - off + len))
    ensures Holds(posMap, places, off, Turn(order, start - off, start - off + len))
  {
    hide Reverse;
    hide Turn;
    hide Rearranged;
    if visual != null {
      assert Rearranged(visual[..], text, off, order);
      TurnBounds(visual[..], text, off, order);
      ghost var now := visual[..];
      ReverseInPlace(visual, start, len);
      TurnRearranged(now, text, off, order, start - off, start - off + len, visual[..]);
    }
    if posMap != null {
      assert Rearranged(posMap[..], places, off, order);
      TurnBounds(posMap[..], places, off, order);
      ghost var now := posMap[..];
      ReverseInPlace(posMap, start, len);
      TurnRearranged(now, places, off, order, start - off, start - off + len, posMap[..]);
    }
  }

  // ----- The phases of fribidi_reorder_line -----

  lemma TrailingUnique(types: seq<BidiType>, t: nat)
    requires t <= |types| && (forall i | t <= i < |types| :: TrailingType(types[i]))
    requires t > 0 ==> !TrailingType(types[t - 1])
    ensures t == TrailingStart(types)
  {
  }

  /** Part 4 of L1, in place. */
  method ResetTrailing(types: seq<BidiType>, len: nat, off: nat, baseLevel: nat, levels: array<nat>)
    requires off + len <= |types| && off + len <= levels.Length
    modifies levels
    ensures forall p | 0 <= p < levels.Length ::
              levels[p] == if off + TrailingStart(types[off..off + len]) <= p < off + len then baseLevel
                else old(levels[p])
  {
    var i := off + len;
    while i > off && TrailingType(types[i - 1])
      invariant off <= i <= off + len
      invariant forall p | i <= p < off + len :: TrailingType(types[p])
      invariant forall p | i <= p < off + len :: levels[p] == baseLevel
      invariant forall p | 0 <= p < i || off + len <= p < levels.Length :: levels[p] == old(levels[p])
    {
      i := i - 1;
      levels[i] := baseLevel;
    }
    TrailingUnique(types[off..off + len], i - off);
  }

  /** The inner loop of L3: back over marks and removed codes to their base. */
  method FindClusterStart(types: seq<BidiType>, off: nat, n: nat, levels: array<nat>, ghost ts: seq<BidiType>,
                          ghost line: seq<Glyph>)
    returns (b: nat)
    requires 0 < n <= |ts| == |line| && off + |ts| <= |types| && off + |ts| <= levels.Length
             && ts == types[off..off + |ts|]
    requires forall i | 0 <= i < |line| :: line[i].level == levels[off + i]
    ensures off <= b < off + n && b - off == ClusterStart(ts[..n], line[..n])
  {
    var i := off + n - 1;
    b := i;
    while b > off && (types[b - 1].IsExplicitOrBn() || types[b - 1].NSM?) && levels[b - 1] == levels[i]
      invariant off <= b <= i
      invariant levels[b] == levels[i]
      invariant ClusterStart(ts[..n], line[..n]) == ClusterStart(ts[..b - off + 1], line[..b - off + 1])
    {
      assert ts[..b - off + 1][..b - off] == ts[..b - off] && line[..b - off + 1][..b - off] == line[..b - off];
      b := b - 1;
    }
    if b > off && levels[b - 1] == levels[i] {
      b := b - 1;
    }
  }

  lemma ClusterStep(ts: seq<BidiType>, line: seq<Glyph>, n: nat, b: nat, done: seq<Glyph>)
    requires |ts| == |line| && 0 < n <= |line| && LevelOdd(line[n - 1].level) && ts[n - 1].NSM?
    requires b == ClusterStart(ts[..n], line[..n])
    ensures ReorderMarks(ts[..n], line[..n]) + done == ReorderMarks(ts[..b], line[..b]) + (Reverse(line[b..n]) + done)
    ensures Turn(line[..n] + done, b, n) == line[..b] + (Reverse(line[b..n]) + done)
  {
    hide ClusterStart;
    hide Reverse;
    assert ts[..n][..b] == ts[..b] && line[..n][..b] == line[..b] && line[..n][b..] == line[b..n];
    Reassociate(ReorderMarks(ts[..b], line[..b]), Reverse(line[b..n]), done);
    SliceConcat(line[..n], done, n);
    assert (line[..n] + done)[b..n] == line[b..n];
    assert (line[..n] + done)[..b] == line[..b];
    Reassociate(line[..b], Reverse(line[b..n]), done);
  }

  lemma PlainStep(ts: seq<BidiType>, line: seq<Glyph>, n: nat, done: seq<Glyph>)
    requires |ts| == |line| && 0 < n <= |line| && !(LevelOdd(line[n - 1].level) && ts[n - 1].NSM?)
    ensures ReorderMarks(ts[..n], line[..n]) + done == ReorderMarks(ts[..n - 1], line[..n - 1]) + ([line[n - 1]] + done)
    ensures line[..n] + done == line[..n - 1] + ([line[n - 1]] + done)
  {
    hide ClusterStart;
    assert ts[..n][..n - 1] == ts[..n - 1] && line[..n][..n - 1] == line[..n - 1];
    assert line[..n] == line[..n - 1] + [line[n - 1]];
    Reassociate(ReorderMarks(ts[..n - 1], line[..n - 1]), [line[n - 1]], done);
    Reassociate(line[..n - 1], [line[n - 1]], done);
  }

  /** L3 on the buffers: the loop runs from the end of the line to its start. */
  method MoveMarks<T, U>(types: seq<BidiType>, len: nat, off: nat, levels: array<nat>, visual: array?<T>,
                         posMap: array?<U>,
                         ghost text: seq<T>, ghost places: seq<U>, ghost line: seq<Glyph>)
    requires off + len <= |types| && off + len <= levels.Length && line == Slots(levels[off..off + len], off)
    requires Holds(visual, text, off, line) && Holds(posMap, places, off, line)
    requires visual != null ==> (visual as object?) != posMap
    requires visual != null ==> (visual as object) != levels
    requires posMap != null ==> (posMap as object) != levels
    modifies visual, posMap
    ensures Holds(visual, text, off, ReorderMarks(types[off..off + len], line))
    ensures Holds(posMap, places, off, ReorderMarks(types[off..off + len], line))
  {
    hide Rearranged;
    hide Reverse;
    hide ClusterStart;
    hide ReorderMarks;
    hide Turn;
    hide Slots;
    ghost var ts := types[off..off + len];
    ghost var done: seq<Glyph> := [];
    var n := len;
    assert ts[..n] == ts && line[..n] == line && line + done == line;
    while n > 0
      invariant 0 <= n <= len
      invariant |done| == len - n
      invariant ReorderMarks(ts[..n], line[..n]) + done == ReorderMarks(ts, line)
      invariant Holds(visual, text, off, line[..n] + done) && Holds(posMap, places, off, line[..n] + done)
      invariant forall i | 0 <= i < len :: line[i].level == levels[off + i]
    {
      var i := off + n - 1;
      assert line[n - 1].level == levels[i] && ts[n - 1] == types[i];
      if LevelOdd(levels[i]) && types[i].NSM? {
        var b := FindClusterStart(types, off, n, levels, ts, line);
        ReverseBoth(visual, posMap, b, i - b + 1, text, places, off, line[..n] + done);
        ClusterStep(ts, line, n, b - off, done);
        done := Reverse(line[b - off..n]) + done;
        n := b - off;
      } else {
        PlainStep(ts, line, n, done);
        done := [line[n - 1]] + done;
        n := n - 1;
      }
    }
  }

  // ----- Cutting the line into runs -----

  function SameLevelLength(line: seq<Glyph>): (n: nat)
    requires line != []
    ensures 1 <= n <= |line|
    ensures forall i | 0 <= i < n :: line[i].level == line[0].level
    ensures n < |line| ==> line[n].level != line[0].level
  {
    if |line| > 1 && line[1].level == line[0].level then 1 + SameLevelLength(line[1..]) else 1
  }

  /** The maximal runs of one level, in logical order. */
  function SplitRuns(line: seq<Glyph>): (runs: seq<seq<Glyph>>)
    ensures forall k | 0 <= k < |runs| ::
              runs[k] != [] && forall i | 0 <= i < |runs[k]| :: runs[k][i].level == runs[k][0].level
  {
    if line == [] then []
    else var n := SameLevelLength(line); [line[..n]] + SplitRuns(line[n..])
  }

  lemma FlatCons(head: seq<Glyph>, rest: seq<seq<Glyph>>)
    ensures Flat([head] + rest) == head + Flat(rest)
  {
    assert ([head] + rest)[1..] == rest;
  }

  lemma {:induction false} SplitRunsFlat(line: seq<Glyph>)
    ensures Flat(SplitRuns(line)) == line
    ensures line != [] ==> SplitRuns(line) != []
    decreases |line|
  {
    hide SameLevelLength;
    if line != [] {
      var n := SameLevelLength(line);
      SplitRunsFlat(line[n..]);
      FlatCons(line[..n], SplitRuns(line[n..]));
      assert line == line[..n] + line[n..];
    }
  }

  lemma {:induction false} SplitRunsLevels(line: seq<Glyph>, top: nat)
    requires forall i | 0 <= i < |line| :: line[i].level <= top
    ensures Line(SplitRuns(line), top).Valid()
    decreases |line|
  {
    hide SameLevelLength;
    if line != [] {
      var n := SameLevelLength(line);
      SplitRunsLevels(line[n..], top);
      var ln, rest := Line(SplitRuns(line), top), Line(SplitRuns(line[n..]), top);
      forall k | 0 <= k < |ln.runs| ensures ln.RunOk(k) {
        if k > 0 {
          assert rest.RunOk(k - 1);
        } else {
          assert ln.runs[0] == line[..n];
          assert line[..n][0] == line[0];
        }
      }
    }
  }

  /** The two `while` loops that measure a run. */
  method RunLength(levels: array<nat>, pos: nat, end: nat, ghost line: seq<Glyph>) returns (n: nat)
    requires pos < end <= levels.Length && |line| == end - pos
    requires forall i | 0 <= i < |line| :: line[i].level == levels[pos + i]
    ensures n == SameLevelLength(line)
  {
    n := 1;
    while pos + n < end && levels[pos + n] == levels[pos]
      invariant 1 <= n <= |line| && levels[pos + n - 1] == levels[pos]
      invariant SameLevelLength(line) == n - 1 + SameLevelLength(line[n - 1..])
    {
      assert line[n - 1..][1..] == line[n..];
      n := n + 1;
    }
  }

  /** The runs laid out in logical order with each right-to-left run turned. */
  ghost function Turned(ln: Line, k: nat): seq<Glyph>
    requires ln.Valid() && k <= |ln.runs|
  {
    if k == 0 then [] else Turned(ln, k - 1) + ln.Content(k - 1)
  }

  /** Record `r` describes run `k`, counting positions from `off`. */
  ghost predicate Describes(r: L2Run, ln: Line, k: nat, off: nat)
    requires ln.Valid() && k < |ln.runs|
  {
    r.pos == off + |Turned(ln, k)| && r.len == |ln.runs[k]| && r.level == ln.Level(k)
  }

  method CountRuns(levels: array<nat>, off: nat, len: nat, ghost line: seq<Glyph>) returns (count: nat)
    requires off + len <= levels.Length && |line| == len
    requires forall i | 0 <= i < len :: line[i].level == levels[off + i]
    ensures count == |SplitRuns(line)|
  {
    hide SameLevelLength;
    count := 0;
    var pos := off;
    ghost var rest := line;
    while pos < off + len
      invariant off <= pos <= off + len && |rest| == off + len - pos
      invariant forall i | 0 <= i < |rest| :: rest[i].level == levels[pos + i]
      invariant count + |SplitRuns(rest)| == |SplitRuns(line)|
    {
      var n := RunLength(levels, pos, off + len, rest);
      rest := rest[n..];
      pos := pos + n;
      count := count + 1;
    }
  }

  lemma MaxLevelIs(line: seq<Glyph>, m: nat)
    requires forall i | 0 <= i < |line| :: line[i].level <= m
    requires m == 0 || exists i | 0 <= i < |line| :: line[i].level == m
    ensures m == MaxLevel(line)
  {
  }

  /** Turning run `k`, when it is right-to-left, extends the turned prefix. */
  lemma TurnStep(ln: Line, k: nat, rest: seq<Glyph>, n: nat)
    requires ln.Valid() && k < |ln.runs| && n == |ln.runs[k]| <= |rest| && ln.runs[k] == rest[..n]
    ensures |Turned(ln, k + 1)| == |Turned(ln, k)| + n
    ensures var p := |Turned(ln, k)|;
            Turned(ln, k + 1) + rest[n..] ==
              if LevelOdd(ln.Level(k)) then Turn(Turned(ln, k) + rest, p, p + n) else Turned(ln, k) + rest
  {
    hide Reverse;
    var t := Turned(ln, k);
    assert (t + rest)[..|t|] == t;
    assert (t + rest)[|t|..|t| + n] == rest[..n];
    assert (t + rest)[|t| + n..] == rest[n..];
    assert rest == rest[..n] + rest[n..];
    Reassociate(t, rest[..n], rest[n..]);
  }

  ghost predicate HighestOf(line: seq<Glyph>, p: nat, m: nat)
    requires p <= |line|
  {
    && (forall i | 0 <= i < p :: line[i].level <= m)
    && (m == 0 || exists i | 0 <= i < p :: line[i].level == m)
  }

  /** After `k` runs, the first `p` characters of the line are recorded. */
  ghost predicate Filled(ln: Line, line: seq<Glyph>, k: nat, p: nat, records: seq<L2Run>, off: nat, maxLevel: nat)
    requires ln.Valid()
  {
    && k <= |ln.runs| == |records| && p <= |line|
    && ln.runs[k..] == SplitRuns(line[p..])
    && p == |Turned(ln, k)|
    && (forall j | 0 <= j < k :: Describes(records[j], ln, j, off))
    && HighestOf(line, p, maxLevel)
  }

  lemma HighestStep(line: seq<Glyph>, p: nat, m: nat, n: nat)
    requires p + n <= |line| && n > 0 && HighestOf(line, p, m)
    requires forall i | 0 <= i < n :: line[p..][i].level == line[p].level
    ensures HighestOf(line, p + n, Max(line[p].level, m))
  {
    forall i | 0 <= i < p + n ensures line[i].level <= Max(line[p].level, m) {
      if i >= p {
        assert line[p..][i - p] == line[i];
      }
    }
  }

  lemma FilledStart(ln: Line, line: seq<Glyph>, records: seq<L2Run>, off: nat)
    requires ln.Valid() && ln.runs == SplitRuns(line) && |records| == |ln.runs|
    ensures Filled(ln, line, 0, 0, records, off, 0)
    ensures Turned(ln, 0) + line[0..] == line
  {
    assert line[0..] == line && ln.runs[0..] == ln.runs;
  }

  lemma FilledEnd(ln: Line, line: seq<Glyph>, k: nat, records: seq<L2Run>, off: nat, maxLevel: nat)
    requires ln.Valid() && Filled(ln, line, k, |line|, records, off, maxLevel)
    ensures k == |ln.runs| && maxLevel == MaxLevel(line) && Turned(ln, k) + line[|line|..] == Turned(ln, k)
  {
    assert line[|line|..] == [] && ln.runs[k..] == [];
    MaxLevelIs(line, maxLevel);
  }

  /** The run that starts at `p` is run `k`. */
  lemma NextRun(ln: Line, line: seq<Glyph>, k: nat, p: nat, records: seq<L2Run>, off: nat, maxLevel: nat, n: nat)
    requires ln.Valid() && Filled(ln, line, k, p, records, off, maxLevel) && p < |line|
    requires n == SameLevelLength(line[p..])
    ensures k < |ln.runs| && p + n <= |line| && ln.runs[k] == line[p..][..n] && ln.Level(k) == line[p].level
    ensures ln.runs[k + 1..] == SplitRuns(line[p + n..])
    ensures line[p..][n..] == line[p + n..]
  {
    hide SameLevelLength;
    hide Turned;
    assert line[p..][n..] == line[p + n..];
    assert ln.runs[k] == ln.runs[k..][0];
    assert ln.RunOk(k);
    assert ln.runs[k..][1..] == ln.runs[k + 1..];
  }

  lemma FilledStep(ln: Line, line: seq<Glyph>, k: nat, p: nat, records: seq<L2Run>, off: nat, maxLevel: nat, n: nat)
    requires ln.Valid() && Filled(ln, line, k, p, records, off, maxLevel) && p < |line|
    requires n == SameLevelLength(line[p..])
    ensures k < |ln.runs| == |records| && p + n <= |line| && |Turned(ln, k + 1)| == p + n && p == |Turned(ln, k)|
    ensures Filled(ln, line, k + 1, p + n, records[k := L2Run(off + p, n, line[p].level, -1)], off,
            Max(line[p].level, maxLevel))
    ensures Turned(ln, k + 1) + line[p + n..] ==
              if LevelOdd(line[p].level) then Turn(Turned(ln, k) + line[p..], p, p + n) else Turned(ln, k) + line[p..]
  {
    hide Turned;
    hide Turn;
    hide Reverse;
    hide SplitRuns;
    hide SameLevelLength;
    hide HighestOf;
    NextRun(ln, line, k, p, records, off, maxLevel, n);
    TurnStep(ln, k, line[p..], n);
    HighestStep(line, p, maxLevel, n);
  }

  /** One run's content, turned around in both buffers if it is right-to-left. */
  method TurnRun<T, U>(level: nat, visual: array?<T>, posMap: array?<U>, pos: nat, n: nat,
                       ghost text: seq<T>, ghost places: seq<U>, ghost off: nat, ghost before: seq<Glyph>,
                         ghost after: seq<Glyph>)
    requires off <= pos && pos + n <= off + |before|
    requires Holds(visual, text, off, before) && Holds(posMap, places, off, before)
    requires after == if LevelOdd(level) then Turn(before, pos - off, pos - off + n) else before
    requires visual != null ==> (visual as object?) != posMap
    modifies visual, posMap
    ensures Holds(visual, text, off, after) && Holds(posMap, places, off, after)
  {
    hide Rearranged;
    hide Turn;
    if LevelOdd(level) {
      ReverseBoth(visual, posMap, pos, n, text, places, off, before);
    }
  }

  /** One run's record. */
  method RecordRun(levels: array<nat>, off: nat, len: nat, runs: array<L2Run>, k: nat, pos: nat, highest: nat,
                   ghost line: seq<Glyph>, ghost ln: Line)
    returns (n: nat, maxLevel: nat)
    requires off + len <= levels.Length && |line| == len && off <= pos < off + len
    requires forall i | 0 <= i < len :: line[i].level == levels[off + i]
    requires ln.Valid() && Filled(ln, line, k, pos - off, runs[..], off, highest)
    modifies runs
    ensures k < |ln.runs| && n > 0 && pos + n <= off + len && |Turned(ln, k + 1)| == pos - off + n
    ensures Filled(ln, line, k + 1, pos - off + n, runs[..], off, maxLevel)
    ensures Turned(ln, k + 1) + line[pos + n - off..] ==
              if LevelOdd(runs[k].level) then Turn(Turned(ln, k) + line[pos - off..], pos - off, pos - off + n)
              else Turned(ln, k) + line[pos - off..]
  {
    hide Filled;
    hide Turned;
    hide Turn;
    hide SameLevelLength;
    n := RunLength(levels, pos, off + len, line[pos - off..]);
    FilledStep(ln, line, k, pos - off, runs[..], off, highest, n);
    assert line[pos - off].level == levels[pos];
    runs[k] := L2Run(pos, n, levels[pos], -1);
    maxLevel := highest;
    if runs[k].level > maxLevel {
      maxLevel := runs[k].level;
    }
  }

  /** The second pass over the line: fills in the run records and turns the
      content of every right-to-left run around, once. */
  method FillRuns<T, U>(levels: array<nat>, off: nat, len: nat, runs: array<L2Run>, visual: array?<T>,
                        posMap: array?<U>,
                        ghost text: seq<T>, ghost places: seq<U>, ghost line: seq<Glyph>, ghost ln: Line)
    returns (maxLevel: nat)
    requires off + len <= levels.Length && |line| == len
    requires forall i | 0 <= i < len :: line[i].level == levels[off + i]
    requires ln.Valid() && ln.runs == SplitRuns(line) && runs.Length == |ln.runs|
    requires Holds(visual, text, off, line) && Holds(posMap, places, off, line)
    requires visual != null ==>
               (visual as object?) != posMap && (visual as object) != levels && (visual as object) != runs
    requires posMap != null ==> (posMap as object) != levels && (posMap as object) != runs
    modifies runs, visual, posMap
    ensures Filled(ln, line, |ln.runs|, len, runs[..], off, maxLevel)
    ensures Holds(visual, text, off, Turned(ln, |ln.runs|)) && Holds(posMap, places, off, Turned(ln, |ln.runs|))
    ensures maxLevel == MaxLevel(line)
  {
    hide Rearranged;
    hide Turned;
    hide Turn;
    hide SameLevelLength;
    hide MaxLevel;
    hide SplitRuns;
    hide Filled;
    maxLevel := 0;
    var pos := off;
    var k := 0;
    FilledStart(ln, line, runs[..], off);
    while pos < off + len
      invariant off <= pos <= off + len && k <= |ln.runs| && pos - off == |Turned(ln, k)|
      invariant Filled(ln, line, k, pos - off, runs[..], off, maxLevel)
      invariant Holds(visual, text, off, Turned(ln, k) + line[pos - off..])
      invariant Holds(posMap, places, off, Turned(ln, k) + line[pos - off..])
    {
      var n;
      n, maxLevel := RecordRun(levels, off, len, runs, k, pos, maxLevel, line, ln);
      TurnRun(runs[k].level, visual, posMap, pos, n, text, places, off,
              Turned(ln, k) + line[pos - off..], Turned(ln, k + 1) + line[pos + n - off..]);
      pos := pos + n;
      k := k + 1;
    }
    FilledEnd(ln, line, k, runs[..], off, maxLevel);
  }

  // ----- Copying the runs out in visual order -----

  /** `part` holds what `was` held at the listed slots. */
  ghost predicate Shows<T>(part: seq<T>, was: seq<T>, order: seq<Glyph>) {
    |part| == |order| && forall i | 0 <= i < |order| :: order[i].pos < |was| && part[i] == was[order[i].pos]
  }

  lemma SliceBefore<T>(a: seq<T>, b: seq<T>, i: nat, j: nat)
    requires i <= j <= |a|
    ensures (a + b)[i..j] == a[i..j]
  {
  }

  lemma SliceLast<T>(a: seq<T>, b: seq<T>)
    ensures (a + b)[|a|..|a| + |b|] == b
  {
  }

  /** Run `k` sits in the turned line where its record says. */
  lemma {:induction false} TurnedSlice(ln: Line, k: nat, n: nat)
    requires ln.Valid() && k < n <= |ln.runs|
    ensures |Turned(ln, k)| + |ln.runs[k]| <= |Turned(ln, n)|
    ensures Turned(ln, n)[|Turned(ln, k)|..|Turned(ln, k)| + |ln.runs[k]|] == ln.Content(k)
  {
    hide ln.Valid;
    var before, last := Turned(ln, n - 1), ln.Content(n - 1);
    if k < n - 1 {
      TurnedSlice(ln, k, n - 1);
      SliceBefore(before, last, |Turned(ln, k)|, |Turned(ln, k)| + |ln.runs[k]|);
    } else {
      SliceLast(before, last);
    }
  }

  lemma ShowsRun<T>(now: seq<T>, was: seq<T>, off: nat, ln: Line, k: nat, record: L2Run)
    requires ln.Valid() && k < |ln.runs| && Rearranged(now, was, off, Turned(ln, |ln.runs|))
    requires Describes(record, ln, k, off)
    ensures record.pos + record.len <= |now|
    ensures Shows(now[record.pos..record.pos + record.len], was, ln.Content(k))
  {
    hide Turned;
    TurnedSlice(ln, k, |ln.runs|);
    var all, p := Turned(ln, |ln.runs|), |Turned(ln, k)|;
    forall i | 0 <= i < record.len
      ensures ln.Content(k)[i].pos < |was| && now[record.pos..record.pos + record.len][i] == was[ln.Content(k)[i].pos] {
      assert all[p..p + record.len][i] == all[p + i];
      assert now[off + (p + i)] == was[all[p + i].pos];
    }
  }

  lemma ShowsJoin<T>(a: seq<T>, b: seq<T>, was: seq<T>, x: seq<Glyph>, y: seq<Glyph>)
    requires Shows(a, was, x) && Shows(b, was, y)
    ensures Shows(a + b, was, x + y)
  {
  }

  lemma SpellPrefix(ln: Line, order: seq<nat>, j: nat)
    requires ln.Valid() && Below(order, |ln.runs|) && j < |order|
    ensures ln.Spell(order[..j + 1]) == ln.Spell(order[..j]) + ln.Content(order[j])
    ensures |ln.Spell(order[..j + 1])| <= |ln.Spell(order)|
  {
    assert order[..j + 1] == order[..j] + [order[j]];
    ln.SpellJoin(order[..j], [order[j]]);
    assert [order[j]][1..] == [];
    assert ln.Spell([order[j]]) == ln.Content(order[j]) + ln.Spell([]);
    assert order == order[..j + 1] + order[j + 1..];
    ln.SpellJoin(order[..j + 1], order[j + 1..]);
  }

  lemma ThreeParts<T>(was: seq<T>, now: seq<T>, part: seq<T>, to: nat)
    requires |now| == |was| && to + |part| <= |was|
    requires forall i | 0 <= i < |was| && !(to <= i < to + |part|) :: now[i] == was[i]
    requires forall i | 0 <= i < |part| :: now[to + i] == part[i]
    ensures now == was[..to] + part + was[to + |part|..]
  {
    assert forall i | to <= i < to + |part| :: now[i] == part[i - to];
  }

  /** memcpy. */
  method Copy<T>(dst: array<T>, to: nat, src: array<T>, from: nat, n: nat)
    requires dst != src && to + n <= dst.Length && from + n <= src.Length
    modifies dst
    ensures dst[..] == old(dst[..to]) + src[from..from + n] + old(dst[to + n..])
  {
    ghost var was := dst[..];
    forall i | 0 <= i < n {
      dst[to + i] := src[from + i];
    }
    ThreeParts(was, dst[..], src[from..from + n], to);
  }

  /** One step of the copying loop. */
  method CopyRun<T>(runs: array<L2Run>, k: nat, tmp: array<T>, outPos: nat, buffer: array<T>,
                    ghost was: seq<T>, ghost off: nat, ghost ln: Line, ghost spelled: seq<Glyph>)
    returns (newPos: nat)
    requires tmp != buffer && (tmp as object) != runs
    requires ln.Valid() && k < |ln.runs| == runs.Length && Describes(runs[k], ln, k, off)
    requires Rearranged(buffer[..], was, off, Turned(ln, |ln.runs|))
    requires outPos + |ln.Content(k)| <= tmp.Length && Shows(tmp[..outPos], was, spelled)
    modifies tmp
    ensures newPos == outPos + |ln.Content(k)| && Shows(tmp[..newPos], was, spelled + ln.Content(k))
  {
    hide Turned;
    hide Rearranged;
    ShowsRun(buffer[..], was, off, ln, k, runs[k]);
    ghost var head := tmp[..outPos];
    ghost var part := buffer[runs[k].pos..runs[k].pos + runs[k].len];
    ShowsJoin(head, part, was, spelled, ln.Content(k));
    Copy(tmp, outPos, buffer, runs[k].pos, runs[k].len);
    newPos := outPos + runs[k].len;
    assert tmp[..newPos] == head + part;
  }

  lemma Overwritten<T>(before: seq<T>, after: seq<T>, part: seq<T>, was: seq<T>, off: nat, x: seq<Glyph>, y: seq<Glyph>)
    requires Rearranged(before, was, off, x) && Shows(part, was, y) && |x| == |y|
    requires after == before[..off] + part + before[off + |x|..]
    ensures Rearranged(after, was, off, y)
  {
  }

  /** The copying loop, for one of the two buffers. */
  method CopyOut<T(0)>(runs: array<L2Run>, left: nat, buffer: array<T>, off: nat, len: nat,
                       ghost was: seq<T>, ghost ln: Line, ghost order: seq<nat>)
    requires (buffer as object) != runs
    requires ln.Valid() && |ln.runs| == runs.Length
             && (forall k | 0 <= k < runs.Length :: Describes(runs[k], ln, k, off))
    requires Linked(runs[..], order) && left == order[0] && runs[order[|order| - 1]].next == -1
    requires Rearranged(buffer[..], was, off, Turned(ln, |ln.runs|))
    requires |ln.Spell(order)| == len == |Turned(ln, |ln.runs|)|
    modifies buffer
    ensures Rearranged(buffer[..], was, off, ln.Spell(order))
  {
    hide Turned;
    hide Rearranged;
    ghost var before := buffer[..];
    var tmp := new T[len];
    var outPos := 0;
    var idx: int := left;
    ghost var j := 0;
    assert order[..0] == [];
    while idx != -1
      invariant 0 <= j <= |order| && idx == if j == |order| then -1 else order[j]
      invariant outPos == |ln.Spell(order[..j])| <= len
      invariant Shows(tmp[..outPos], was, ln.Spell(order[..j]))
      invariant buffer[..] == before
      modifies tmp
      decreases |order| - j
    {
      SpellPrefix(ln, order, j);
      outPos := CopyRun(runs, idx, tmp, outPos, buffer, was, off, ln, ln.Spell(order[..j]));
      idx := runs[idx].next;
      j := j + 1;
    }
    assert order[..j] == order;
    TurnBounds(buffer[..], was, off, Turned(ln, |ln.runs|));
    assert outPos == len && tmp[..outPos] == tmp[0..len];
    Copy(buffer, off, tmp, 0, len);
    Overwritten(before, buffer[..], tmp[0..len], was, off, Turned(ln, |ln.runs|), ln.Spell(order));
  }

  // ----- The whole of fribidi_reorder_line -----

  lemma SlotsRearranged<T>(was: seq<T>, levels: seq<nat>, off: nat)
    requires off + |levels| <= |was|
    ensures Rearranged(was, was, off, Slots(levels, off))
  {
  }

  lemma FilledDescribes(ln: Line, line: seq<Glyph>, records: seq<L2Run>, off: nat, maxLevel: nat)
    requires ln.Valid() && Filled(ln, line, |ln.runs|, |line|, records, off, maxLevel)
    ensures forall k | 0 <= k < |ln.runs| :: Describes(records[k], ln, k, off)
    ensures |Turned(ln, |ln.runs|)| == |line|
  {
  }

  lemma OneRun(ln: Line)
    requires ln.Valid() && |ln.runs| == 1
    ensures Turned(ln, 1) == L2(Flat(ln.runs), ln.top)
  {
    ln.SpellRun(0);
    assert ln.runs[0..1] == ln.runs;
    assert Turned(ln, 1) == Turned(ln, 0) + ln.Content(0);
    assert [0][1..] == [];
    assert ln.Spell([0]) == ln.Content(0) + ln.Spell([]);
  }

  /** L2 on the buffers. */
  method ApplyL2<T(0), U(0)>(levels: array<nat>, len: nat, off: nat, visual: array?<T>, posMap: array?<U>,
                       ghost text: seq<T>, ghost places: seq<U>, ghost line: seq<Glyph>)
    returns (maxLevel: nat)
    requires 0 < len && off + len <= levels.Length && |line| == len
    requires forall i | 0 <= i < len :: line[i].level == levels[off + i]
    requires Holds(visual, text, off, line) && Holds(posMap, places, off, line)
    requires visual != null ==> (visual as object?) != posMap && (visual as object) != levels
    requires posMap != null ==> (posMap as object) != levels
    modifies visual, posMap
    ensures maxLevel == MaxLevel(line)
    ensures Holds(visual, text, off, L2(line, maxLevel)) && Holds(posMap, places, off, L2(line, maxLevel))
  {
    hide Rearranged;
    hide MaxLevel;
    hide SplitRuns;
    hide L2;
    hide Filled;
    hide Turned;
    hide Linked;
    hide Flat;
    ghost var ln := Line(SplitRuns(line), MaxLevel(line));
    var count := CountRuns(levels, off, len, line);
    SplitRunsLevels(line, MaxLevel(line));
    SplitRunsFlat(line);
    var runs := new L2Run[count];
    var ranges := new L2Range[count];
    maxLevel := FillRuns(levels, off, len, runs, visual, posMap, text, places, line, ln);
    FilledDescribes(ln, line, runs[..], off, maxLevel);
    if count > 1 {
      var left;
      ghost var order;
      left, order := LinearReorder.LinearReorder(runs, ranges, ln);
      if visual != null {
        CopyOut(runs, left, visual, off, len, text, ln, order);
      }
      if posMap != null {
        CopyOut(runs, left, posMap, off, len, places, ln, order);
      }
    } else {
      OneRun(ln);
    }
  }

  lemma SameMaxLevel(a: seq<Glyph>, b: seq<Glyph>)
    requires |a| == |b| && forall i | 0 <= i < |a| :: a[i].level == b[i].level
    ensures MaxLevel(a) == MaxLevel(b)
  {
    if MaxLevel(a) != 0 {
      var i :| 0 <= i < |a| && a[i].level == MaxLevel(a);
      assert b[i].level == MaxLevel(a);
    }
    MaxLevelIs(b, MaxLevel(a));
  }

  /** Section 7 of fribidi_reorder_line: L3 when asked for, then L2. */
  method ArrangeLine<T(0), U(0)>(reorderNsm: bool, types: seq<BidiType>, len: nat, off: nat,
                                 levels: array<nat>, visual: array?<T>, posMap: array?<U>)
    returns (maxLevel: nat)
    requires 0 < len && off + len <= |types| && off + len <= levels.Length
    requires visual != null ==>
               off + len <= visual.Length && (visual as object?) != posMap && (visual as object) != levels
    requires posMap != null ==> off + len <= posMap.Length && (posMap as object) != levels
    modifies visual, posMap
    ensures Holds(visual, old(Contents(visual)), off,
            VisualOrder(types[off..off + len], levels[off..off + len], off, reorderNsm))
    ensures Holds(posMap, old(Contents(posMap)), off,
            VisualOrder(types[off..off + len], levels[off..off + len], off, reorderNsm))
    ensures maxLevel == MaxLevel(Slots(levels[off..off + len], off))
  {
    hide Rearranged;
    hide MaxLevel;
    hide L2;
    hide ReorderMarks;
    ghost var slots := Slots(levels[off..off + len], off);
    ghost var line := slots;
    ghost var text, places := Contents(visual), Contents(posMap);
    if visual != null {
      SlotsRearranged(text, levels[off..off + len], off);
    }
    if posMap != null {
      SlotsRearranged(places, levels[off..off + len], off);
    }
    if reorderNsm {
      MoveMarks(types, len, off, levels, visual, posMap, text, places, line);
      MarksKeepLevels(types[off..off + len], line);
      line := ReorderMarks(types[off..off + len], line);
    }
    SameMaxLevel(line, slots);
    maxLevel := ApplyL2(levels, len, off, visual, posMap, text, places, line);
  }

  lemma EmptyLine<T, U>(text: seq<T>, places: seq<U>, off: nat, reorderNsm: bool)
    ensures MaxLevel(Slots([], off)) == 0
    ensures off <= |text| ==> Rearranged(text, text, off, VisualOrder([], [], off, reorderNsm))
    ensures off <= |places| ==> Rearranged(places, places, off, VisualOrder([], [], off, reorderNsm))
  {
    assert Slots([], off) == [];
    assert L2([], 0) == [];
  }

  /** fribidi_reorder_line, allocation failures apart. */
  method ReorderLine<T(0), U(0)>(reorderNsm: bool, types: seq<BidiType>, len: nat, off: nat, baseDir: BidiType,
                                 levels: array<nat>, visual: array?<T>, posMap: array?<U>)
    returns (result: nat)
    requires off + len <= |types| && off + len <= levels.Length
    requires visual != null ==>
               off + len <= visual.Length && (visual as object?) != posMap && (visual as object) != levels
    requires posMap != null ==> off + len <= posMap.Length && (posMap as object) != levels
    modifies levels, visual, posMap
    ensures forall p | 0 <= p < levels.Length ::
              levels[p] == if off + TrailingStart(types[off..off + len]) <= p < off + len then DirToLevel(baseDir)
                else old(levels[p])
    ensures Holds(visual, old(Contents(visual)), off,
            VisualOrder(types[off..off + len], levels[off..off + len], off, reorderNsm))
    ensures Holds(posMap, old(Contents(posMap)), off,
            VisualOrder(types[off..off + len], levels[off..off + len], off, reorderNsm))
    ensures VisuallyOrdered(types[off..off + len], levels[off..off + len], off, reorderNsm,
              VisualOrder(types[off..off + len], levels[off..off + len], off, reorderNsm))
    ensures result == MaxLevel(Slots(levels[off..off + len], off)) + 1
  {
    hide Rearranged;
    hide VisuallyOrdered;
    hide MaxLevel;
    hide VisualOrder;
    hide TrailingStart;
    if len == 0 {
      assert types[off..off + len] == [] && levels[off..off + len] == [];
      EmptyLine(Contents(visual), Contents(posMap), off, reorderNsm);
      VisualPair([], [], off, reorderNsm);
      return 1;
    }
    ResetTrailing(types, len, off, DirToLevel(baseDir), levels);
    var maxLevel := ArrangeLine(reorderNsm, types, len, off, levels, visual, posMap);
    result := maxLevel + 1;
    VisualPair(types[off..off + len], levels[off..off + len], off, reorderNsm);
  }
}
