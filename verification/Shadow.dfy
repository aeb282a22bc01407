/** shadow_run_list: lays one list of runs over another, either taking the room
    of what it covers or making room of its own. */
module Shadow {
  import opened BidiTypes
  import opened Runs
  import opened Alignment
  import opened Compaction

  // ----- The text that results -----

  /** Laying `q` over the text `s`; with `preserve` everything from q.pos on
      moves behind it. */
  ghost function Lay(s: seq<Spot>, q: Run, preserve: bool): seq<Spot>
    requires q.pos + (if preserve then 0 else q.len) <= |s|
  {
    s[..q.pos] + Repeat(SpotOf(q, Sharp), q.len) + s[q.pos + (if preserve then 0 else q.len)..]
  }

  ghost predicate FitsAt(over: seq<Run>, n: nat, preserve: bool, k: nat)
    requires k < |over|
  {
    over[k].pos + (if preserve then 0 else over[k].len) <= n + (if preserve then Off(over, k) else 0)
    && (preserve ==> over[k].len > 0)
  }

  /** The runs of `over` stand in order, apart, and within a text of `n`
      characters, which with `preserve` grows by each of them. */
  ghost predicate Fits(over: seq<Run>, n: nat, preserve: bool) {
    && (forall k | 0 < k < |over| :: over[k - 1].pos + over[k - 1].len <= over[k].pos)
    && (forall k | 0 <= k < |over| :: FitsAt(over, n, preserve, k))
  }

  /** The first `k` runs of `over` laid over `s`. */
  ghost function Laid(s: seq<Spot>, over: seq<Run>, preserve: bool, k: nat): (r: seq<Spot>)
    requires k <= |over| && Fits(over, |s|, preserve)
    ensures |r| == |s| + if preserve then Off(over, k) else 0
  {
    if k == 0 then s
    else
      assert FitsAt(over, |s|, preserve, k - 1);
      Lay(Laid(s, over, preserve, k - 1), over[k - 1], preserve)
  }

  // ----- Cutting the text at a run -----

  lemma {:induction false} OffIs(list: seq<Run>, i: nat, sight: Sight)
    requires i <= |list|
    ensures |Spots(list[..i], sight)| == Off(list, i)
  {
    if i > 0 {
      OffIs(list, i - 1, sight);
      assert list[..i][..i - 1] == list[..i - 1];
    }
  }

  lemma CutText<T>(a: seq<T>, b: seq<T>, c: seq<T>, d: seq<T>)
    ensures (a + (b + c) + d)[..|a| + |b|] == a + b
    ensures (a + (b + c) + d)[|a| + |b|..] == c + d
  {
  }

  /** The text up to and from a place inside run `i`. */
  lemma SpotsCut(list: seq<Run>, i: nat, x: nat)
    requires i < |list| && Off(list, i) <= x <= Off(list, i) + list[i].len
    ensures x <= |Spots(list, Sharp)|
    ensures Spots(list, Sharp)[..x] == Spots(list[..i], Sharp) + Repeat(SpotOf(list[i], Sharp), x - Off(list, i))
    ensures Spots(list, Sharp)[x..] == Repeat(SpotOf(list[i], Sharp), Off(list, i) + list[i].len - x)
            + Spots(list[i + 1..], Sharp)
  {
    hide Spots;
    hide Off;
    var s := SpotOf(list[i], Sharp);
    OffIs(list, i, Sharp);
    assert list == list[..i] + [list[i]] + list[i + 1..];
    SpotsJoin(list[..i] + [list[i]], list[i + 1..], Sharp);
    SpotsJoin(list[..i], [list[i]], Sharp);
    SpotsOne(list[i], Sharp);
    RepeatJoin(s, x - Off(list, i), Off(list, i) + list[i].len - x);
    CutText(Spots(list[..i], Sharp), Repeat(s, x - Off(list, i)), Repeat(s, Off(list, i) + list[i].len - x),
      Spots(list[i + 1..], Sharp));
  }

  /** The run that holds kept character number `j`. */
  lemma {:induction false} RunOf(list: seq<Run>, m: nat, j: nat) returns (i: nat)
    requires m <= |list| && j < Off(list, m)
    ensures i < m && Off(list, i) <= j < Off(list, i) + list[i].len
  {
    if j >= Off(list, m - 1) {
      i := m - 1;
    } else {
      i := RunOf(list, m - 1, j);
    }
  }

  lemma {:induction false} SpotAt(list: seq<Run>, i: nat, d: nat, sight: Sight)
    requires i < |list| && d < list[i].len
    ensures Off(list, i) + d < |Spots(list, sight)| && Spots(list, sight)[Off(list, i) + d] == SpotOf(list[i], sight)
  {
    hide Off;
    var m := |list| - 1;
    OffIs(list, i, sight);
    OffIs(list, m, sight);
    if i < m {
      SpotAt(list[..m], i, d, sight);
      OffSame(list, list[..m], i);
    }
  }

  // ----- Splicing a run in -----

  /** What is left of run `a` before position `pos`. */
  function Head(a: Run, pos: nat): seq<Run> { if a.pos < pos then [a.(len := pos - a.pos)] else [] }

  /** What is left of run `r` after `q`. */
  function Tail(list: seq<Run>, p: nat, r: nat, q: Run, preserve: bool): seq<Run>
    requires p < |list| && r < |list|
  {
    var end := q.pos + q.len;
    var z := list[r].(len := list[r].len + if preserve then q.len else 0);
    if z.pos + z.len > end then
      (if p == r then [Run(end, z.pos + z.len - end, z.kind, z.level, z.isolateLevel, NoBracket, 0)]
       else [z.(pos := end, len := z.pos + z.len - end)])
    else []
  }

  /** The list with `q` put between what is left of run `p` and what is left of
      run `r`; `p` is -1 when `q` goes before all runs. */
  function Splice(list: seq<Run>, p: int, r: int, q: Run, preserve: bool): seq<Run>
    requires -1 <= p <= r < |list| && (p == -1 ==> r == -1)
  {
    if p == -1 then [q] + list
    else
      var a := if p == r then list[r].(len := list[r].len + if preserve then q.len else 0) else list[p];
      list[..p] + (if a.pos + a.len >= q.pos then Head(a, q.pos) else [a]) + [q] + Tail(list, p, r, q, preserve)
        + list[r + 1..]
  }

  /** What the loop knows of its list: a run is where its number of characters
      puts it, once the codes of `rest` are stepped over; a run cut off right
      before a code may still stand in the code's place. */
  ghost predicate Stands(list: seq<Run>, rest: seq<Run>, i: nat)
    requires i < |list|
  {
    && list[i].len > 0
    && (list[i].pos == KeptPos(rest, Off(list, i)) || (rest != [] && list[i].pos == Off(list, i) == rest[0].pos))
  }

  ghost predicate Standing(list: seq<Run>, rest: seq<Run>) {
    forall i | 0 <= i < |list| :: Stands(list, rest, i)
  }

  /** Run `p` is the last one that starts at or before `pos`. */
  ghost predicate LastAt(list: seq<Run>, p: int, pos: nat) {
    && -1 <= p < |list|
    && (p >= 0 ==> list[p].pos <= pos)
    && (p + 1 < |list| ==> list[p + 1].pos > pos)
  }

  // ----- The text after a splice -----

  /** Around run `p` positions are still counts. */
  ghost predicate Inside(list: seq<Run>, i: int, x: nat) {
    0 <= i < |list| && list[i].pos == Off(list, i) && Off(list, i) <= x <= Off(list, i) + list[i].len
  }

  lemma PieceSpots(a: Run, piece: seq<Run>, n: nat)
    requires n == 0 ==> piece == []
    requires n > 0 ==> |piece| == 1 && piece[0].len == n && SpotOf(piece[0], Sharp) == SpotOf(a, Sharp)
    ensures Spots(piece, Sharp) == Repeat(SpotOf(a, Sharp), n)
  {
    if n > 0 {
      SpotsOne(piece[0], Sharp);
    }
  }

  lemma FivePieces(a: seq<Run>, b: seq<Run>, c: seq<Run>, d: seq<Run>, e: seq<Run>)
    ensures Spots(a + b + c + d + e, Sharp) == Spots(a, Sharp) + Spots(b, Sharp) + Spots(c, Sharp)
            + (Spots(d, Sharp) + Spots(e, Sharp))
  {
    hide Spots;
    SpotsJoin(a + b + c + d, e, Sharp);
    SpotsJoin(a + b + c, d, Sharp);
    SpotsJoin(a + b, c, Sharp);
    SpotsJoin(a, b, Sharp);
  }

  /** Where the kept text goes on after `q`. */
  function Resume(q: Run, preserve: bool): nat { if preserve then q.pos else q.pos + q.len }

  /** A piece of at most one run, `n` characters long. */
  ghost predicate Piece(piece: seq<Run>, pos: nat, n: nat) {
    if n == 0 then piece == [] else |piece| == 1 && piece[0].pos == pos && piece[0].len == n
  }

  lemma SplicePieces(list: seq<Run>, p: int, r: int, q: Run, preserve: bool)
    requires p <= r && Inside(list, p, q.pos) && Inside(list, r, Resume(q, preserve)) && (preserve ==> p == r)
    ensures Splice(list, p, r, q, preserve) == list[..p] + Head(list[p], q.pos) + [q] + Tail(list, p, r, q, preserve)
            + list[r + 1..]
    ensures Piece(Head(list[p], q.pos), list[p].pos, q.pos - list[p].pos)
    ensures Piece(Tail(list, p, r, q, preserve), q.pos + q.len, list[r].pos + list[r].len - Resume(q, preserve))
  {
    hide Off;
  }

  lemma SpliceSpots(list: seq<Run>, p: int, r: int, q: Run, preserve: bool)
    requires p <= r && Inside(list, p, q.pos) && Inside(list, r, Resume(q, preserve)) && (preserve ==> p == r)
             && q.len > 0
    ensures Resume(q, preserve) <= |Spots(list, Sharp)|
    ensures Spots(Splice(list, p, r, q, preserve), Sharp) == Lay(Spots(list, Sharp), q, preserve)
  {
    hide Spots;
    hide Off;
    hide Repeat;
    hide Splice;
    var x, head, tail := Resume(q, preserve), Head(list[p], q.pos), Tail(list, p, r, q, preserve);
    SplicePieces(list, p, r, q, preserve);
    SpotsCut(list, p, q.pos);
    SpotsCut(list, r, x);
    SpotsOne(q, Sharp);
    PieceSpots(list[p], head, q.pos - list[p].pos);
    PieceSpots(list[r], tail, list[r].pos + list[r].len - x);
    FivePieces(list[..p], head, [q], tail, list[r + 1..]);
  }

  // ----- The places after a splice -----

  lemma {:induction false} OffRises(list: seq<Run>, i: nat, j: nat)
    requires i < j <= |list|
    ensures Off(list, i) + list[i].len <= Off(list, j)
  {
    if i < j - 1 {
      OffRises(list, i, j - 1);
    }
  }

  lemma {:induction false} OffJoin(a: seq<Run>, b: seq<Run>, i: nat)
    requires i <= |b|
    ensures Off(a + b, |a| + i) == Off(a, |a|) + Off(b, i)
  {
    if i == 0 {
      OffSame(a, a + b, |a|);
    } else {
      OffJoin(a, b, i - 1);
    }
  }

  lemma {:induction false} KeptPosRises(codes: seq<Run>, j: nat)
    ensures KeptPos(codes, j) >= j
    decreases |codes|
  {
    if codes != [] && j >= codes[0].pos {
      KeptPosRises(codes[1..], j + codes[0].len);
    }
  }

  /** What is still to come when `q` is laid: with `preserve` the codes from `q`
      on, otherwise nothing that counts. */
  ghost predicate Pending(rest: seq<Run>, rest': seq<Run>, q: Run, preserve: bool) {
    && q.len > 0
    && if preserve then rest == [q] + rest' && (rest' != [] ==> rest'[0].pos >= q.pos + q.len) else rest == rest' == []
  }

  /** A run that starts at or before `q` is where its count puts it. */
  lemma Settled0(list: seq<Run>, rest: seq<Run>, rest': seq<Run>, q: Run, preserve: bool, i: nat)
    requires i < |list| && Stands(list, rest, i) && Pending(rest, rest', q, preserve)
    ensures list[i].pos <= q.pos ==> list[i].pos == Off(list, i)
    ensures list[i].pos > q.pos && preserve ==>
              Off(list, i) >= q.pos && list[i].pos == KeptPos(rest', Off(list, i) + q.len) >= q.pos + q.len
    ensures !preserve ==> list[i].pos == Off(list, i)
  {
    hide Off;
    if preserve {
      assert rest[1..] == rest';
      KeptPosRises(rest', Off(list, i) + q.len);
    }
  }

  /** The run found by the search holds the place of `q`. */
  lemma Found(list: seq<Run>, rest: seq<Run>, rest': seq<Run>, q: Run, preserve: bool, p: int)
    requires Standing(list, rest) && Pending(rest, rest', q, preserve) && LastAt(list, p, q.pos) && p >= 0
    requires q.pos <= Off(list, |list|)
    ensures Inside(list, p, q.pos)
    ensures preserve && p + 1 < |list| ==> list[p + 1].pos >= q.pos + q.len
  {
    hide Stands;
    assert Stands(list, rest, p);
    Settled0(list, rest, rest', q, preserve, p);
    if p + 1 < |list| {
      assert Stands(list, rest, p + 1);
      Settled0(list, rest, rest', q, preserve, p + 1);
    }
  }

  /** Before all runs there is room only at the start of the text. */
  lemma FoundNone(list: seq<Run>, rest: seq<Run>, rest': seq<Run>, q: Run, preserve: bool)
    requires Standing(list, rest) && Pending(rest, rest', q, preserve) && LastAt(list, -1, q.pos)
    requires q.pos + (if preserve then 0 else q.len) <= Off(list, |list|)
    ensures preserve && q.pos == 0
  {
    if list != [] {
      assert Stands(list, rest, 0);
    }
  }

  /** In a text without gaps the last run that starts before `end` holds it. */
  lemma FoundLast(list: seq<Run>, q: Run, p: int, r: int)
    requires Standing(list, []) && 0 <= p <= r < |list| && LastAt(list, p, q.pos) && q.len > 0
    requires r > p ==> list[r].pos < q.pos + q.len
    requires r + 1 < |list| ==> list[r + 1].pos >= q.pos + q.len
    requires q.pos + q.len <= Off(list, |list|)
    ensures Inside(list, r, q.pos + q.len)
  {
    assert Stands(list, [], r);
    if r + 1 < |list| {
      assert Stands(list, [], r + 1);
    }
  }

  lemma HeadStands(list: seq<Run>, rest: seq<Run>, rest': seq<Run>, q: Run, preserve: bool, i: nat, res: seq<Run>)
    requires i < |list| && Stands(list, rest, i) && Pending(rest, rest', q, preserve) && Off(list, i) < q.pos
    requires i < |res| && res[i].pos == list[i].pos && res[i].len > 0 && Off(res, i) == Off(list, i)
    ensures Stands(res, rest', i)
  {
    hide Off;
    if preserve {
      assert rest[0] == q;
    }
  }

  lemma NewStands(rest: seq<Run>, rest': seq<Run>, q: Run, preserve: bool, i: nat, res: seq<Run>)
    requires Pending(rest, rest', q, preserve) && i < |res| && res[i].len > 0
    requires res[i].pos == Off(res, i) && (Off(res, i) == q.pos || Off(res, i) == q.pos + q.len)
    ensures Stands(res, rest', i)
  {
    hide Off;
  }

  lemma TailStands(list: seq<Run>, rest: seq<Run>, rest': seq<Run>, q: Run, preserve: bool, j: nat, res: seq<Run>,
                   i: nat)
    requires j < |list| && Stands(list, rest, j) && Pending(rest, rest', q, preserve) && list[j].pos > q.pos
    requires i < |res| && res[i] == list[j] && Off(res, i) == Off(list, j) + if preserve then q.len else 0
    ensures Stands(res, rest', i)
  {
    hide Off;
    Settled0(list, rest, rest', q, preserve, j);
    if !preserve {
      assert KeptPos(rest', Off(list, j)) == Off(list, j);
    }
  }

  lemma OffOne(q: Run)
    ensures Off([q], 1) == q.len
  {
  }

  /** The counts along a list with `head`, `q` and `tail` in place of runs `p` to `r`. */
  lemma PieceOffs(list: seq<Run>, p: nat, r: nat, head: seq<Run>, q: Run, tail: seq<Run>, m: nat)
    requires p <= r < |list| && m <= |list| - r - 1
    ensures var res, h, t := list[..p] + head + [q] + tail + list[r + 1..], Off(head, |head|), Off(tail, |tail|);
            && (forall i | 0 <= i <= p :: Off(res, i) == Off(list, i))
            && Off(res, p + |head|) == Off(list, p) + h
            && Off(res, p + |head| + 1) == Off(list, p) + h + q.len
            && Off(res, p + |head| + 1 + |tail| + m)
               == Off(list, p) + h + q.len + t + (Off(list, r + 1 + m) - Off(list, r + 1))
  {
    hide Off;
    var a, e := list[..p], list[r + 1..];
    var res := a + head + [q] + tail + e;
    forall i | 0 <= i <= p ensures Off(res, i) == Off(list, i) {
      OffSame(res, list, i);
    }
    OffSame(a, list, p);
    OffJoin(a, head, |head|);
    OffJoin(a + head, [q], 1);
    OffOne(q);
    OffJoin(a + head + [q], tail, |tail|);
    OffJoin(a + head + [q] + tail, e, m);
    OffSame(res, a + head, p + |head|);
    OffSame(res, a + head + [q], p + |head| + 1);
    assert list == list[..r + 1] + e;
    OffJoin(list[..r + 1], e, m);
    OffJoin(list[..r + 1], e, 0);
    OffStart(e);
  }

  lemma PieceOff(piece: seq<Run>, pos: nat, n: nat)
    requires Piece(piece, pos, n)
    ensures Off(piece, |piece|) == n
  {
    if n > 0 {
      OffOne(piece[0]);
      assert piece == [piece[0]];
    }
  }

  lemma OffNext(list: seq<Run>, r: nat)
    requires r < |list|
    ensures Off(list, r + 1) == Off(list, r) + list[r].len
  {
  }

  lemma StandsLen(list: seq<Run>, rest: seq<Run>, i: nat)
    requires i < |list| && Stands(list, rest, i)
    ensures list[i].len > 0
  {
  }

  /** All runs after the found one start beyond `q`. */
  lemma LaterStarts(list: seq<Run>, rest: seq<Run>, rest': seq<Run>, q: Run, preserve: bool, p: nat, j: nat)
    requires Standing(list, rest) && Pending(rest, rest', q, preserve) && LastAt(list, p, q.pos) && p < j < |list|
    ensures Stands(list, rest, j) && list[j].pos > q.pos
  {
    hide Off;
    assert Stands(list, rest, p + 1) && Stands(list, rest, j);
    Settled0(list, rest, rest', q, preserve, p + 1);
    Settled0(list, rest, rest', q, preserve, j);
    if j > p + 1 {
      OffRises(list, p + 1, j);
    }
  }

  /** Each run of the new list stands where it should. */
  lemma PiecesStand(list: seq<Run>, rest: seq<Run>, rest': seq<Run>, p: nat, r: nat, head: seq<Run>, q: Run,
                    tail: seq<Run>,
                    preserve: bool, i: nat)
    requires p <= r && Standing(list, rest) && Pending(rest, rest', q, preserve)
    requires Inside(list, p, q.pos) && Inside(list, r, Resume(q, preserve)) && (preserve ==> p == r)
             && LastAt(list, p, q.pos)
    requires Piece(head, list[p].pos, q.pos - list[p].pos)
    requires Piece(tail, q.pos + q.len, list[r].pos + list[r].len - Resume(q, preserve))
    requires i <= p + |head| + |tail| + |list| - r - 1
    ensures Stands(list[..p] + head + [q] + tail + list[r + 1..], rest', i)
  {
    hide Off;
    hide Stands;
    var res, n := list[..p] + head + [q] + tail + list[r + 1..], p + |head|;
    PieceOff(head, list[p].pos, q.pos - list[p].pos);
    PieceOff(tail, q.pos + q.len, list[r].pos + list[r].len - Resume(q, preserve));
    OffNext(list, r);
    if i < n {
      PieceOffs(list, p, r, head, q, tail, 0);
      assert Stands(list, rest, i);
      if i < p {
        OffRises(list, i, p);
        StandsLen(list, rest, i);
      }
      HeadStands(list, rest, rest', q, preserve, i, res);
    } else if i <= n + |tail| {
      PieceOffs(list, p, r, head, q, tail, 0);
      NewStands(rest, rest', q, preserve, i, res);
    } else {
      var m := i - n - 1 - |tail|;
      PieceOffs(list, p, r, head, q, tail, m);
      LaterStarts(list, rest, rest', q, preserve, p, r + 1 + m);
      TailStands(list, rest, rest', q, preserve, r + 1 + m, res, i);
    }
  }

  /** The two searches ended at `p` and `r`. */
  ghost predicate Bracketed(list: seq<Run>, p: int, r: int, q: Run) {
    && LastAt(list, p, q.pos) && p <= r < |list|
    && (r > p ==> list[p + 1].pos < q.pos + q.len && list[r].pos < q.pos + q.len)
    && (r + 1 < |list| ==> list[r + 1].pos >= q.pos + q.len)
  }

  lemma FirstStarts(list: seq<Run>, rest: seq<Run>, rest': seq<Run>, q: Run)
    requires Standing(list, rest) && Pending(rest, rest', q, true) && LastAt(list, -1, q.pos)
    ensures list != [] ==> list[0].pos >= q.pos + q.len
  {
    hide Off;
    if list != [] {
      assert Stands(list, rest, 0);
      Settled0(list, rest, rest', q, true, 0);
    }
  }

  lemma RoomFor(list: seq<Run>, rest: seq<Run>, rest': seq<Run>, p: int, r: int, q: Run, preserve: bool)
    requires Standing(list, rest) && Pending(rest, rest', q, preserve) && Bracketed(list, p, r, q)
    requires q.pos + (if preserve then 0 else q.len) <= Off(list, |list|)
    ensures p >= 0 ==> Inside(list, p, q.pos) && Inside(list, r, Resume(q, preserve))
    ensures p == -1 ==> q.pos == 0 && preserve && r == -1
    ensures preserve ==> p == r
  {
    hide Off;
    hide Standing;
    if p >= 0 {
      Found(list, rest, rest', q, preserve, p);
      if !preserve {
        FoundLast(list, q, p, r);
      }
    } else {
      FoundNone(list, rest, rest', q, preserve);
      FirstStarts(list, rest, rest', q);
    }
  }

  lemma SpliceFirst(list: seq<Run>, rest: seq<Run>, rest': seq<Run>, q: Run)
    requires Standing(list, rest) && Pending(rest, rest', q, true) && LastAt(list, -1, q.pos) && q.pos == 0
    ensures Standing([q] + list, rest') && Spots([q] + list, Sharp) == Lay(Spots(list, Sharp), q, true)
  {
    hide Off;
    hide Spots;
    var res := [q] + list;
    SpotsJoin([q], list, Sharp);
    SpotsOne(q, Sharp);
    assert Spots(list, Sharp)[..0] == [] && Spots(list, Sharp)[0..] == Spots(list, Sharp);
    OffStart(res);
    OffOne(q);
    NewStands(rest, rest', q, true, 0, res);
    forall i | 0 < i < |res| ensures Stands(res, rest', i) {
      OffJoin([q], list, i - 1);
      assert Stands(list, rest, i - 1);
      if i > 1 {
        assert Stands(list, rest, 0);
        Settled0(list, rest, rest', q, true, 0);
        Settled0(list, rest, rest', q, true, i - 1);
        OffRises(list, 0, i - 1);
      }
      TailStands(list, rest, rest', q, true, i - 1, res, i);
    }
  }

  lemma StandingAll(res: seq<Run>, rest: seq<Run>)
    requires forall i | 0 <= i < |res| :: Stands(res, rest, i)
    ensures Standing(res, rest)
  {
  }

  lemma SpliceStands(list: seq<Run>, rest: seq<Run>, rest': seq<Run>, p: nat, r: nat, q: Run, preserve: bool)
    requires p <= r && Standing(list, rest) && Pending(rest, rest', q, preserve)
    requires Inside(list, p, q.pos) && Inside(list, r, Resume(q, preserve)) && (preserve ==> p == r)
             && LastAt(list, p, q.pos)
    ensures Standing(Splice(list, p, r, q, preserve), rest')
  {
    hide Off;
    hide Stands;
    hide Standing;
    hide Pending;
    hide Splice;
    hide Piece;
    hide Head;
    hide Tail;
    var head, tail := Head(list[p], q.pos), Tail(list, p, r, q, preserve);
    SplicePieces(list, p, r, q, preserve);
    var res := list[..p] + head + [q] + tail + list[r + 1..];
    forall i | 0 <= i < |res| ensures Stands(res, rest', i) {
      PiecesStand(list, rest, rest', p, r, head, q, tail, preserve, i);
    }
    StandingAll(res, rest');
  }

  /** One run of `over`: the text is laid over and everything stands right. */
  lemma SpliceStep(list: seq<Run>, rest: seq<Run>, rest': seq<Run>, p: int, r: int, q: Run, preserve: bool)
    requires Standing(list, rest) && Pending(rest, rest', q, preserve) && Bracketed(list, p, r, q)
    requires q.pos + (if preserve then 0 else q.len) <= |Spots(list, Sharp)|
    ensures p == -1 ==> r == -1
    ensures var res := Splice(list, p, r, q, preserve);
            Standing(res, rest') && Spots(res, Sharp) == Lay(Spots(list, Sharp), q, preserve)
  {
    hide Off;
    hide Spots;
    hide Standing;
    hide Stands;
    OffIs(list, |list|, Sharp);
    assert list[..|list|] == list;
    RoomFor(list, rest, rest', p, r, q, preserve);
    if p == -1 {
      SpliceFirst(list, rest, rest', q);
    } else {
      SpliceSpots(list, p, r, q, preserve);
      SpliceStands(list, rest, rest', p, r, q, preserve);
    }
  }

  // ----- The loop -----

  lemma StandingStart(list: seq<Run>, codes: seq<Run>, n: nat)
    requires Aligned(list, codes, n)
    ensures Standing(list, codes) && |Spots(list, Sharp)| == n
  {
    hide Off;
    hide KeptPos;
    OffIs(list, |list|, Sharp);
    assert list[..|list|] == list;
    forall i | 0 <= i < |list| ensures Stands(list, codes, i) {
      assert RunAligned(list, codes, i);
    }
  }

  lemma StandingEnd(list: seq<Run>)
    requires Standing(list, [])
    ensures Aligned(list, [], |Spots(list, Sharp)|)
  {
    hide Off;
    OffIs(list, |list|, Sharp);
    assert list[..|list|] == list;
    forall i | 0 <= i < |list| ensures RunAligned(list, [], i) {
      assert Stands(list, [], i);
    }
  }

  /** What is still to come after `k` runs of `over`. */
  ghost function Rest(over: seq<Run>, k: nat, preserve: bool): seq<Run>
    requires k <= |over|
  {
    if preserve then over[k..] else []
  }

  lemma NextPending(over: seq<Run>, n: nat, preserve: bool, k: nat)
    requires k < |over| && Fits(over, n, preserve) && over[k].len > 0
    ensures Pending(Rest(over, k, preserve), Rest(over, k + 1, preserve), over[k], preserve)
  {
  }

  lemma LaidNext(s: seq<Spot>, over: seq<Run>, preserve: bool, k: nat)
    requires k < |over| && Fits(over, |s|, preserve)
    ensures var t := Laid(s, over, preserve, k);
            && over[k].pos + (if preserve then 0 else over[k].len) <= |t|
            && Laid(s, over, preserve, k + 1) == Lay(t, over[k], preserve)
            && (preserve ==> over[k].len > 0)
            && (over[k].len == 0 ==> Lay(t, over[k], preserve) == t)
  {
    assert FitsAt(over, |s|, preserve, k);
  }

  lemma OrderedNext(over: seq<Run>, n: nat, preserve: bool, k: nat)
    requires 0 < k < |over| && Fits(over, n, preserve)
    ensures over[k - 1].pos + over[k - 1].len <= over[k].pos
  {
  }

  lemma SkipsOnly(over: seq<Run>, k: nat, preserve: bool)
    requires k < |over| && !preserve
    ensures Rest(over, k, preserve) == Rest(over, k + 1, preserve)
  {
  }

  lemma LaidStart(s: seq<Spot>, over: seq<Run>, preserve: bool)
    requires Fits(over, |s|, preserve)
    ensures Laid(s, over, preserve, 0) == s
  {
  }

  lemma EarlierStarts(list: seq<Run>, rest: seq<Run>, rest': seq<Run>, p: nat, q: Run, preserve: bool)
    requires Standing(list, rest) && Pending(rest, rest', q, preserve) && 0 < p && Inside(list, p, q.pos)
    ensures list[p - 1].pos <= q.pos
  {
    hide Off;
    assert Stands(list, rest, p - 1);
    OffRises(list, p - 1, p);
    Settled0(list, rest, rest', q, preserve, p - 1);
  }

  /** The run that the next search starts from. */
  lemma BackStep(list: seq<Run>, rest: seq<Run>, rest': seq<Run>, p: int, r: int, q: Run, preserve: bool)
    requires Standing(list, rest) && Pending(rest, rest', q, preserve) && Bracketed(list, p, r, q)
             && (p == -1 ==> r == -1)
    requires q.pos + (if preserve then 0 else q.len) <= |Spots(list, Sharp)|
    ensures var res, p' := Splice(list, p, r, q, preserve), if p >= 0 && list[p].pos >= q.pos then p - 1 else p;
            p' < |res| && (p' >= 0 ==> res[p'].pos <= q.pos)
  {
    hide Off;
    hide Spots;
    hide Standing;
    hide Stands;
    OffIs(list, |list|, Sharp);
    assert list[..|list|] == list;
    RoomFor(list, rest, rest', p, r, q, preserve);
    if p > 0 {
      EarlierStarts(list, rest, rest', p, q, preserve);
    }
  }

  /** The body of the loop. */
  method LayOne(list0: seq<Run>, p0: int, q: Run, preserve: bool, ghost rest: seq<Run>, ghost rest': seq<Run>)
    returns (p: int, list: seq<Run>)
    requires Standing(list0, rest) && Pending(rest, rest', q, preserve)
    requires q.pos + (if preserve then 0 else q.len) <= |Spots(list0, Sharp)|
    requires -1 <= p0 < |list0| && (p0 >= 0 ==> list0[p0].pos <= q.pos)
    ensures Standing(list, rest') && Spots(list, Sharp) == Lay(Spots(list0, Sharp), q, preserve)
    ensures -1 <= p < |list| && (p >= 0 ==> list[p].pos <= q.pos)
  {
    hide Standing;
    hide Pending;
    hide Spots;
    hide Lay;
    list, p := list0, p0;
    while p + 1 < |list| && list[p + 1].pos <= q.pos
      invariant -1 <= p < |list| && (p >= 0 ==> list[p].pos <= q.pos)
      decreases |list| - p
    {
      p := p + 1;
    }
    var end, r := q.pos + q.len, p;
    while r + 1 < |list| && list[r + 1].pos < end
      invariant p <= r < |list| && (r > p ==> list[p + 1].pos < end && list[r].pos < end)
      decreases |list| - r
    {
      r := r + 1;
    }
    SpliceStep(list, rest, rest', p, r, q, preserve);
    BackStep(list, rest, rest', p, r, q, preserve);
    list := Splice(list, p, r, q, preserve);
    if p >= 0 && list0[p].pos >= q.pos {
      p := p - 1;
    }
  }

  /** shadow_run_list.  The runs of `base` after the removed codes of `over`,
      or, without `preserve`, side by side, become one list of runs side by
      side, with the text of `over` laid over that of `base`. */
  method ShadowRunList(base: seq<Run>, over: seq<Run>, preserve: bool, ghost n: nat) returns (list: seq<Run>)
    requires Aligned(base, if preserve then over else [], n) && Fits(over, n, preserve)
    ensures |Spots(base, Sharp)| == n
    ensures Spots(list, Sharp) == Laid(Spots(base, Sharp), over, preserve, |over|)
    ensures Aligned(list, [], |Spots(list, Sharp)|)
  {
    hide Aligned;
    hide Fits;
    hide Standing;
    hide Laid;
    hide Lay;
    hide Spots;
    hide Splice;
    list := base;
    StandingStart(base, if preserve then over else [], n);
    assert preserve ==> over[0..] == over;
    ghost var s := Spots(base, Sharp);
    LaidStart(s, over, preserve);
    var p, pos := -1, 0;
    for k := 0 to |over|
      invariant Spots(list, Sharp) == Laid(s, over, preserve, k)
      invariant Standing(list, Rest(over, k, preserve))
      invariant -1 <= p < |list| && (p >= 0 ==> list[p].pos <= pos)
      invariant k == 0 ==> pos == 0
      invariant k > 0 ==> pos <= over[k - 1].pos
    {
      var q := over[k];
      LaidNext(s, over, preserve, k);
      if k > 0 {
        OrderedNext(over, n, preserve, k);
      }
      assert q.pos >= pos;
      if q.len > 0 && q.pos >= pos {
        NextPending(over, n, preserve, k);
        pos := q.pos;
        p, list := LayOne(list, p, q, preserve, Rest(over, k, preserve), Rest(over, k + 1, preserve));
      } else {
        SkipsOnly(over, k, preserve);
      }
    }
    StandingEnd(list);
  }
}
