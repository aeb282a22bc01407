/** Explicit codes in matching terms: what is opened and closed again leaves no
    trace, a PDF or PDI that closes nothing has no effect, and a character has the
    level and override of the innermost code that is open around it. */
module CodeMatching {
  import opened BidiTypes
  import opened ExplicitRules
  import opened IsolateMatching
  import opened ParagraphDirection

  predicate IsEmbedding(t: BidiType) { t.LRE? || t.RLE? || t.LRO? || t.RLO? }

  // ----- Isolates that do not cross -----

  /** An isolate opened inside another is closed inside it. */
  lemma ClosedInside(types: seq<BidiType>, i: nat, j: nat, a: nat) returns (b: nat)
    requires Matches(types, i, j) && i < a < j && types[a].IsInitiator()
    ensures a < b < j && Matches(types, a, b)
  {
    BalanceSplit(types, i + 1, a, j);
    InitiatorOpens(types, a, j);
    b := FirstFall(types, a, j);
  }

  lemma MatchOnce(types: seq<BidiType>, i: nat, j: nat, k: nat)
    requires Matches(types, i, j) && Matches(types, i, k)
    ensures j == k
  {
    FallsAt(types, i, j);
    FallsAt(types, i, k);
  }

  lemma OpenerOnce(types: seq<BidiType>, i: nat, k: nat, j: nat)
    requires Matches(types, i, j) && Matches(types, k, j)
    ensures i == k
  {
    if i < k {
      var b := ClosedInside(types, i, j, k);
      MatchOnce(types, k, b, j);
    } else if k < i {
      var b := ClosedInside(types, k, j, i);
      MatchOnce(types, i, b, j);
    }
  }

  ghost predicate ClosedBy(types: seq<BidiType>, i: nat, b: nat) {
    exists j :: 0 <= j < b && Matches(types, i, j)
  }

  /** No isolate reaches into the part from `a` to `b` or out of it. */
  ghost predicate Whole(types: seq<BidiType>, a: nat, b: nat)
    requires b <= |types|
  {
    && (forall i | a <= i < b && types[i].IsInitiator() :: ClosedBy(types, i, b))
    && (forall i: nat, j: nat | Matches(types, i, j) && a <= j < b :: a <= i)
  }

  /** Character `j` closes no isolate. */
  ghost predicate ClosesNone(types: seq<BidiType>, j: nat) {
    forall i | 0 <= i < j :: !Matches(types, i, j)
  }

  /** The part up to an ordinary character, or a PDI that closes nothing. */
  lemma WholeShorter(types: seq<BidiType>, a: nat, b: nat)
    requires a < b <= |types| && Whole(types, a, b) && ClosesNone(types, b - 1)
    ensures Whole(types, a, b - 1) && !types[b - 1].IsInitiator()
  {
    forall i | a <= i < b && types[i].IsInitiator() ensures ClosedBy(types, i, b - 1) {
      assert ClosedBy(types, i, b);
    }
    var e: nat := b - 1;
    assert types[e].IsInitiator() ==> ClosedBy(types, e, b);
  }

  lemma WholeLonger(types: seq<BidiType>, a: nat, b: nat)
    requires a <= b < |types| && Whole(types, a, b) && !types[b].IsInitiator() && ClosesNone(types, b)
    ensures Whole(types, a, b + 1)
  {
    forall i | a <= i < b + 1 && types[i].IsInitiator() ensures ClosedBy(types, i, b + 1) {
      assert ClosedBy(types, i, b);
    }
  }

  /** The part before a whole isolate at the end. */
  lemma WholeBefore(types: seq<BidiType>, a: nat, i: nat, j: nat)
    requires Matches(types, i, j) && a <= i && Whole(types, a, j + 1)
    ensures Whole(types, a, i)
  {
    forall c | a <= c < i && types[c].IsInitiator() ensures ClosedBy(types, c, i) {
      assert ClosedBy(types, c, j + 1);
      var d :| 0 <= d < j + 1 && Matches(types, c, d);
      if d > i {
        var b := ClosedInside(types, c, d, i);
        MatchOnce(types, i, b, j);
      }
    }
  }

  lemma WholeAfter(types: seq<BidiType>, a: nat, i: nat, j: nat)
    requires Matches(types, i, j) && a <= i && Whole(types, a, i)
    ensures Whole(types, a, j + 1)
  {
    forall c | a <= c < j + 1 && types[c].IsInitiator() ensures ClosedBy(types, c, j + 1) {
      if c < i {
        assert ClosedBy(types, c, i);
      } else if c > i {
        var b := ClosedInside(types, i, j, c);
      }
    }
    forall c: nat, d: nat | Matches(types, c, d) && a <= d < j + 1 ensures a <= c {
      if d == j {
        OpenerOnce(types, i, c, j);
      } else if d > i && c < i {
        var b := ClosedInside(types, c, d, i);
        MatchOnce(types, i, b, j);
      }
    }
  }

  // ----- Embeddings that are open -----

  /** Character `x` is inside an isolate opened at `a` or later. */
  ghost predicate Enclosed(types: seq<BidiType>, a: nat, x: nat) {
    exists i: nat, j: nat :: a <= i < x < j && Matches(types, i, j)
  }

  ghost function Opens(t: BidiType): int {
    if IsEmbedding(t) then 1 else if t.PDF? then -1 else 0
  }

  /** Embeddings and overrides minus PDFs from `a` to `b`, those inside isolates
      of that part left out. */
  ghost function Embeddings(types: seq<BidiType>, a: nat, b: nat): int
    requires a <= b <= |types|
    decreases b
  {
    if a == b then 0
    else Embeddings(types, a, b - 1) + if Enclosed(types, a, b - 1) then 0 else Opens(types[b - 1])
  }

  /** No PDF in the part closes what was open before it. */
  ghost predicate NoneClosed(types: seq<BidiType>, a: nat, b: nat)
    requires b <= |types|
  {
    forall k | a <= k <= b :: Embeddings(types, a, k) >= 0
  }

  /** What is inside an isolate does not count. */
  lemma {:induction false} IsolateCounts(types: seq<BidiType>, a: nat, i: nat, j: nat, k: nat)
    requires Matches(types, i, j) && a <= i < k <= j + 1
    ensures Embeddings(types, a, k) == Embeddings(types, a, i)
    decreases k
  {
    if k > i + 1 {
      IsolateCounts(types, a, i, j, k - 1);
      assert k - 1 < j ==> Enclosed(types, a, k - 1);
    }
  }

  /** The state in a part with `n` of its embeddings still open, from the state
      before it: they have entries of their own or are counted as overflow. */
  ghost predicate Within(s0: XState, s: XState, n: int) {
    && s0.stack != [] && |s.stack| >= |s0.stack| && s.stack[..|s0.stack|] == s0.stack && n >= 0
    && s.overflowIsolates == s0.overflowIsolates && s.validIsolates == s0.validIsolates
    && (s0.overflowIsolates > 0 ==> s == s0)
    && (s0.overflowIsolates == 0 ==>
          && s.overflowEmbeddings >= s0.overflowEmbeddings
          && |s.stack| - |s0.stack| + s.overflowEmbeddings - s0.overflowEmbeddings == n
          && (s0.overflowEmbeddings > 0 ==> s.stack == s0.stack)
          && forall k | |s0.stack| <= k < |s.stack| :: !s.stack[k].isolate)
  }

  lemma WithinStep(s0: XState, s: XState, n: int, t: BidiType, rtl: bool)
    requires Within(s0, s, n) && n + Opens(t) >= 0 && !t.IsIsolate()
    ensures Within(s0, Step(s, t, rtl), n + Opens(t))
  {
    var r, m := Step(s, t, rtl), |s0.stack|;
    if |r.stack| > |s.stack| {
      assert r.stack[..m] == s.stack[..m];
    } else if |r.stack| < |s.stack| {
      assert r.stack[..m] == s.stack[..m];
    }
  }

  lemma WithinEnd(s0: XState, s: XState)
    requires Within(s0, s, 0)
    ensures s == s0
  {
    assert s.stack[..|s.stack|] == s.stack;
  }

  // ----- Isolates and the state -----

  /** The counters of open isolates are the depth of BD9. */
  lemma {:induction false} DepthCounts(types: seq<BidiType>, base: nat, x: nat)
    requires x <= |types|
    ensures var s := Before(types, base, x); s.validIsolates + s.overflowIsolates == Depth(types, x)
    decreases x
  {
    hide NextLevel;
    hide DropEmbeddings;
    hide FsiLevel;
    if x > 0 {
      DepthCounts(types, base, x - 1);
    }
  }

  lemma MatchesHere(types: seq<BidiType>, i: nat, j: nat)
    requires i < j < |types| && types[i].IsInitiator() && types[j].PDI?
    requires Balance(types, i + 1, j) == 0 && NeverNegative(types, i + 1, j)
    ensures Matches(types, i, j) && !ClosesNone(types, j)
  {
    assert Matches(types, i, j);
  }

  /** A PDI closes nothing exactly when it matches no initiator; then it has no
      effect. */
  lemma PdiIdle(types: seq<BidiType>, base: nat, j: nat)
    requires j < |types| && types[j].PDI? && ClosesNone(types, j)
    ensures Before(types, base, j + 1) == Before(types, base, j)
    ensures Depth(types, j) == 0
  {
    hide Depth;
    hide FsiLevel;
    hide DropEmbeddings;
    if Depth(types, j) > 0 {
      var a := DepthReached(types, j);
      var i := OpenAt(types, a, j);
      MatchesHere(types, i, j);
    }
    DepthCounts(types, base, j);
  }

  /** An unmatched PDI keeps the level around it and becomes neutral. */
  lemma UnmatchedPdi(types: seq<BidiType>, base: nat, j: nat)
    requires j < |types| && types[j].PDI? && ClosesNone(types, j)
    ensures Result(types, base, j) == Kept(Top(Before(types, base, j)).level, ON, 0)
  {
    hide Depth;
    hide Before;
    PdiIdle(types, base, j);
    DepthCounts(types, base, j);
  }

  // ----- What is closed again leaves no trace -----

  lemma NoMatchUnlessPdi(types: seq<BidiType>, j: nat)
    requires j < |types| && !types[j].PDI?
    ensures ClosesNone(types, j)
  {
  }

  lemma NotEnclosed(types: seq<BidiType>, a: nat, x: nat)
    requires x < |types| && Whole(types, a, x + 1)
    ensures !Enclosed(types, a, x)
  {
    if Enclosed(types, a, x) {
      var i, j :| a <= i < x < j && Matches(types, i, j);
      assert ClosedBy(types, i, x + 1);
      var k :| 0 <= k < x + 1 && Matches(types, i, k);
      MatchOnce(types, i, j, k);
    }
  }

  lemma NoneClosedShorter(types: seq<BidiType>, a: nat, b: nat, c: nat)
    requires a <= c <= b <= |types| && NoneClosed(types, a, b)
    ensures NoneClosed(types, a, c) && Embeddings(types, a, c) >= 0
  {
  }

  lemma WithinStart(s: XState)
    requires s.stack != []
    ensures Within(s, s, 0)
  {
  }

  lemma OpenerInside(types: seq<BidiType>, a: nat, b: nat, i: nat)
    requires a < b <= |types| && Whole(types, a, b) && Matches(types, i, b - 1)
    ensures a <= i
  {
  }

  lemma {:induction false} WithinPart(types: seq<BidiType>, base: nat, a: nat, b: nat)
    requires a <= b <= |types| && Whole(types, a, b) && NoneClosed(types, a, b)
    ensures Within(Before(types, base, a), Before(types, base, b), Embeddings(types, a, b))
    decreases b
  {
    hide Within;
    hide Whole;
    hide NoneClosed;
    hide Step;
    hide FsiLevel;
    NoneClosedShorter(types, a, b, b);
    var e := b - 1;
    if a == b {
      WithinStart(Before(types, base, a));
    } else if i: nat :| i < e && Matches(types, i, e) {
      OpenerInside(types, a, b, i);
      WholeBefore(types, a, i, b - 1);
      NoneClosedShorter(types, a, b, i);
      WithinPart(types, base, a, i);
      IsolateRestores(types, base, i, b - 1);
      IsolateCounts(types, a, i, b - 1, b);
    } else {
      WholeShorter(types, a, b);
      NoneClosedShorter(types, a, b, b - 1);
      WithinPart(types, base, a, b - 1);
      NotEnclosed(types, a, b - 1);
      if types[b - 1].PDI? {
        PdiIdle(types, base, b - 1);
      } else {
        WithinStep(Before(types, base, a), Before(types, base, b - 1), Embeddings(types, a, b - 1), types[b - 1],
                   FsiLevel(types, b - 1) == 1);
      }
    }
  }

  /** A part that isolates do not cross and that closes all it opens, and no more,
      leaves the state as it was. */
  ghost predicate ClosesAll(types: seq<BidiType>, a: nat, b: nat)
    requires a <= b <= |types|
  {
    Whole(types, a, b) && NoneClosed(types, a, b) && Embeddings(types, a, b) == 0
  }

  lemma ClosedRestores(types: seq<BidiType>, base: nat, a: nat, b: nat)
    requires a <= b <= |types| && ClosesAll(types, a, b)
    ensures Before(types, base, b) == Before(types, base, a)
  {
    hide Within;
    hide Whole;
    hide NoneClosed;
    WithinPart(types, base, a, b);
    WithinEnd(Before(types, base, a), Before(types, base, b));
  }

  // ----- Matching PDFs -----

  /** The embedding opened at `i` is open at `x`, and the innermost one. */
  ghost predicate OpenUpTo(types: seq<BidiType>, i: nat, x: nat) {
    && i < x <= |types| && IsEmbedding(types[i]) && Whole(types, i, x)
    && Embeddings(types, i, x) == 1 && forall k | i < k <= x :: Embeddings(types, i, k) >= 1
  }

  /** `j` is the PDF that closes the embedding opened at `i`. */
  ghost predicate PdfMatches(types: seq<BidiType>, i: nat, j: nat) {
    j < |types| && types[j].PDF? && OpenUpTo(types, i, j)
  }

  lemma OpenBounds(types: seq<BidiType>, i: nat, x: nat)
    requires OpenUpTo(types, i, x)
    ensures i < x <= |types| && IsEmbedding(types[i]) && Whole(types, i, x) && Embeddings(types, i, x) == 1
    ensures NoneClosed(types, i, x)
  {
    assert Embeddings(types, i, i) == 0;
  }

  lemma PdfCloses(types: seq<BidiType>, i: nat, j: nat)
    requires PdfMatches(types, i, j)
    ensures i < j < |types| && ClosesAll(types, i, j + 1)
  {
    hide Whole;
    OpenBounds(types, i, j);
    NoMatchUnlessPdi(types, j);
    WholeLonger(types, i, j);
    NotEnclosed(types, i, j);
  }

  /** After the PDF that matches an embedding or override, everything is as it was
      before that code, whether it took effect or overflowed. */
  lemma PdfRestores(types: seq<BidiType>, base: nat, i: nat, j: nat)
    requires PdfMatches(types, i, j)
    ensures Before(types, base, j + 1) == Before(types, base, i)
  {
    hide ClosesAll;
    hide PdfMatches;
    PdfCloses(types, i, j);
    ClosedRestores(types, base, i, j + 1);
  }

  /** A PDF would close something in this state. */
  ghost predicate CanClose(s: XState) {
    && s.overflowIsolates == 0 && s.stack != []
    && (s.overflowEmbeddings > 0 || (|s.stack| >= 2 && !Top(s).isolate))
  }

  lemma CloseIdle(s: XState)
    requires s.stack != []
    ensures EndEmbedding(s) != s <==> CanClose(s)
  {
  }

  lemma WholeJoin(types: seq<BidiType>, i: nat, a: nat, b: nat)
    requires i <= a <= b <= |types| && Whole(types, i, a) && Whole(types, a, b)
    ensures Whole(types, i, b)
  {
    forall c | i <= c < b && types[c].IsInitiator() ensures ClosedBy(types, c, b) {
      if c < a {
        assert ClosedBy(types, c, a);
      }
    }
  }

  lemma EnclosedJoin(types: seq<BidiType>, i: nat, a: nat, x: nat)
    requires i <= a <= x < |types| && Whole(types, i, a)
    ensures Enclosed(types, i, x) == Enclosed(types, a, x)
  {
    if Enclosed(types, i, x) {
      var c, d :| i <= c < x < d && Matches(types, c, d);
      if c < a {
        assert ClosedBy(types, c, a);
        var e :| 0 <= e < a && Matches(types, c, e);
        MatchOnce(types, c, d, e);
      }
      assert Enclosed(types, a, x);
    }
  }

  lemma {:induction false} JoinCounts(types: seq<BidiType>, i: nat, a: nat, k: nat, b: nat)
    requires i <= a <= k <= b <= |types| && Whole(types, i, a)
    ensures Embeddings(types, i, k) == Embeddings(types, i, a) + Embeddings(types, a, k)
    decreases k
  {
    hide Whole;
    hide Enclosed;
    if a < k {
      JoinCounts(types, i, a, k - 1, b);
      EnclosedJoin(types, i, a, k - 1);
    }
  }

  /** What follows an open embedding and closes all it opens leaves it open. */
  lemma OpenLonger(types: seq<BidiType>, i: nat, a: nat, b: nat)
    requires OpenUpTo(types, i, a) && a <= b <= |types| && ClosesAll(types, a, b)
    ensures OpenUpTo(types, i, b)
  {
    hide Enclosed;
    hide Whole;
    OpenBounds(types, i, a);
    WholeJoin(types, i, a, b);
    forall k | a <= k <= b ensures Embeddings(types, i, k) == 1 + Embeddings(types, a, k) {
      JoinCounts(types, i, a, k, b);
    }
  }

  lemma CodeOpen(types: seq<BidiType>, i: nat)
    requires i < |types| && IsEmbedding(types[i])
    ensures OpenUpTo(types, i, i + 1)
  {
    NoMatchUnlessPdi(types, i);
    assert !Enclosed(types, i, i);
    assert Embeddings(types, i, i) == 0;
  }

  lemma IsolateCloses(types: seq<BidiType>, i: nat, j: nat)
    requires Matches(types, i, j)
    ensures ClosesAll(types, i, j + 1)
  {
    WholeAfter(types, i, i, j);
    forall k | i <= k <= j + 1 ensures Embeddings(types, i, k) == 0 {
      if k > i {
        IsolateCounts(types, i, i, j, k);
      }
    }
  }

  lemma PdiCloses(types: seq<BidiType>, j: nat)
    requires j < |types| && Opens(types[j]) == 0 && !types[j].IsInitiator() && ClosesNone(types, j)
    ensures ClosesAll(types, j, j + 1)
  {
    assert Embeddings(types, j, j) == 0;
  }

  lemma NothingOpen(base: nat)
    ensures !CanClose(Initial(base))
  {
  }

  lemma PdfLeaves(types: seq<BidiType>, base: nat, j: nat)
    requires j < |types| && types[j].PDF? && CanClose(Before(types, base, j + 1))
    ensures CanClose(Before(types, base, j))
  {
    hide FsiLevel;
    CloseIdle(Before(types, base, j));
  }

  lemma OthersIdle(types: seq<BidiType>, base: nat, j: nat)
    requires j < |types| && !IsEmbedding(types[j]) && !types[j].PDF? && CanClose(Before(types, base, j + 1))
    requires ClosesNone(types, j)
    ensures !types[j].IsInitiator() && CanClose(Before(types, base, j))
  {
    hide FsiLevel;
    hide NextLevel;
    if types[j].PDI? {
      PdiIdle(types, base, j);
    }
  }

  /** If a PDF would close something here, there is an embedding open for it. */
  lemma {:induction false} OpenEmbedding(types: seq<BidiType>, base: nat, x: nat) returns (i: nat)
    requires x <= |types| && CanClose(Before(types, base, x))
    ensures OpenUpTo(types, i, x)
    decreases x
  {
    hide OpenUpTo;
    hide ClosesAll;
    hide FsiLevel;
    hide CanClose;
    hide Step;
    hide Matches;
    var e := x - 1;
    if x == 0 {
      NothingOpen(base);
      assert false;
    } else if IsEmbedding(types[e]) {
      i := e;
      CodeOpen(types, i);
    } else if a: nat :| a < e && Matches(types, a, e) {
      IsolateRestores(types, base, a, x - 1);
      i := OpenEmbedding(types, base, a);
      IsolateCloses(types, a, x - 1);
      OpenLonger(types, i, a, x);
    } else if types[x - 1].PDF? {
      PdfLeaves(types, base, x - 1);
      var a := OpenEmbedding(types, base, x - 1);
      PdfRestores(types, base, a, x - 1);
      PdfCloses(types, a, x - 1);
      i := OpenEmbedding(types, base, a);
      OpenLonger(types, i, a, x);
    } else {
      OthersIdle(types, base, x - 1);
      i := OpenEmbedding(types, base, x - 1);
      PdiCloses(types, x - 1);
      OpenLonger(types, i, x - 1, x);
    }
  }

  lemma ItMatches(types: seq<BidiType>, i: nat, j: nat)
    requires j < |types| && types[j].PDF? && OpenUpTo(types, i, j)
    ensures i < j && PdfMatches(types, i, j)
  {
  }

  /** A PDF that matches no embedding or override has no effect. */
  lemma PdfIdle(types: seq<BidiType>, base: nat, j: nat)
    requires j < |types| && types[j].PDF? && forall i | 0 <= i < j :: !PdfMatches(types, i, j)
    ensures Before(types, base, j + 1) == Before(types, base, j)
  {
    hide FsiLevel;
    hide OpenUpTo;
    CloseIdle(Before(types, base, j));
    if CanClose(Before(types, base, j)) {
      var i := OpenEmbedding(types, base, j);
      ItMatches(types, i, j);
    }
  }

  // ----- Inside a code -----

  /** The direction that a code gives to what it opens. */
  ghost predicate OpensRtl(types: seq<BidiType>, i: nat)
    requires i < |types|
  {
    types[i].RLE? || types[i].RLO? || types[i].RLI? || (types[i].FSI? && FsiLevel(types, i) == 1)
  }

  /** The entry on top after a code that opens something. */
  lemma Opened(s: XState, t: BidiType, fsiRtl: bool)
    requires s.stack != [] && (IsEmbedding(t) || t.IsInitiator())
    ensures var r, level := Step(s, t, fsiRtl), NextLevel(Top(s).level, t.RLE? || t.RLO? || t.RLI?
            || (t.FSI? && fsiRtl));
            if level <= MAX_EXPLICIT_LEVEL && s.overflowIsolates == 0 && s.overflowEmbeddings == 0 then
              && Top(r) == Entry(level, if t.LRO? then LTR else if t.RLO? then RTL else ON, t.IsInitiator())
              && r.validIsolates == if t.IsInitiator() then s.validIsolates + 1 else s.validIsolates
            else Top(r) == Top(s) && r.validIsolates == s.validIsolates
  {
    hide NextLevel;
  }

  /** What a state gives to an ordinary character. */
  lemma StandsIn(types: seq<BidiType>, base: nat, x: nat)
    requires x < |types| && !types[x].IsExplicitOrBn() && !types[x].PDI? && !types[x].BS?
    ensures var s := Before(types, base, x);
            Result(types, base, x)
            == Kept(Top(s).level, if Top(s).override == ON then types[x] else Top(s).override, s.validIsolates)
  {
    hide Before;
  }

  /** A character with nothing but closed codes between it and the code at `i`:
      if that code fits, the character is on the least higher level of the code's
      direction, and an override gives its direction to it; if not, the character
      is treated as if the code were not there. */
  lemma InsideCode(types: seq<BidiType>, base: nat, i: nat, x: nat)
    requires i < x < |types| && (IsEmbedding(types[i]) || types[i].IsInitiator()) && ClosesAll(types, i + 1, x)
    requires !types[x].IsExplicitOrBn() && !types[x].PDI? && !types[x].BS?
    ensures var s, t := Before(types, base, i), types[i];
            var level := NextLevel(Top(s).level, OpensRtl(types, i));
            Result(types, base, x) ==
              if level <= MAX_EXPLICIT_LEVEL && s.overflowIsolates == 0 && s.overflowEmbeddings == 0 then
                Kept(level, if t.LRO? then LTR else if t.RLO? then RTL else types[x],
                     if t.IsInitiator() then s.validIsolates + 1 else s.validIsolates)
              else Kept(Top(s).level, if Top(s).override == ON then types[x] else Top(s).override, s.validIsolates)
  {
    hide ClosesAll;
    hide FsiLevel;
    hide NextLevel;
    hide Step;
    ClosedRestores(types, base, i + 1, x);
    Opened(Before(types, base, i), types[i], FsiLevel(types, i) == 1);
    StandsIn(types, base, x);
  }
}
