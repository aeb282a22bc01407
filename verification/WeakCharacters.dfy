/** Weak types where isolates nest, character by character. */
module WeakCharacters {
  import opened BidiTypes
  import opened Runs
  import opened Nesting
  import opened Alignment
  import opened Compaction
  import opened Shadow
  import opened WeakShape
  import opened WeakPass1
  import opened WeakProof1
  import opened WeakPass2
  import opened WeakProof2
  import opened WeakStretches
  import opened WeakChains

  // ----- Chains of characters -----

  /** The characters on isolate level `d`, in order. */
  ghost function OfDepth(s: seq<Spot>, d: nat): seq<Spot> {
    if s == [] then []
    else
      var n := |s| - 1;
      OfDepth(s[..n], d) + if s[n].isolateLevel == d then [s[n].(isolateLevel := 0)] else []
  }

  /** Characters `b` to `e` are all that is inside an isolate of depth `d`, with
      the isolates nested in it. */
  ghost predicate Isolated(s: seq<Spot>, b: nat, e: nat, d: nat) {
    && b < e <= |s| && s[b].isolateLevel == d
    && (forall m | b <= m < e :: s[m].isolateLevel >= d)
    && (b > 0 ==> s[b - 1].isolateLevel < d) && (e < |s| ==> s[e].isolateLevel < d)
  }

  lemma {:induction false} DepthJoin(a: seq<Spot>, b: seq<Spot>, d: nat)
    ensures OfDepth(a + b, d) == OfDepth(a, d) + OfDepth(b, d)
  {
    if b == [] {
      assert a + b == a;
    } else {
      var n := |b| - 1;
      DepthJoin(a, b[..n], d);
      assert (a + b)[..|a| + n] == a + b[..n];
    }
  }

  lemma DepthNothing(d: nat)
    ensures OfDepth([], d) == []
  {
  }

  lemma {:induction false} DepthRepeat(x: Spot, n: nat, d: nat)
    ensures OfDepth(Repeat(x, n), d) == if x.isolateLevel == d then Repeat(x.(isolateLevel := 0), n) else []
    decreases n
  {
    if n > 0 {
      DepthRepeat(x, n - 1, d);
      var y := x.(isolateLevel := 0);
      assert Repeat(x, n)[..n - 1] == Repeat(x, n - 1) && Repeat(y, n) == Repeat(y, n - 1) + [y];
    }
  }

  /** One more run, on its own and in the text. */
  lemma PickedRun(s: seq<Run>, r: Run, d: nat)
    requires Spots(Pick(s, d), Sharp) == OfDepth(Spots(s, Sharp), d)
    ensures Spots(Pick(s + [r], d), Sharp) == OfDepth(Spots(s + [r], Sharp), d)
  {
    hide OfDepth;
    hide Repeat;
    hide Spots;
    hide Pick;
    var x := SpotOf(r, Sharp);
    PickJoin(s, [r], d);
    PickOne(r, d);
    SpotsJoin(s, [r], Sharp);
    SpotsOne(r, Sharp);
    DepthJoin(Spots(s, Sharp), Repeat(x, r.len), d);
    DepthRepeat(x, r.len, d);
    if r.isolateLevel == d {
      SpotsJoin(Pick(s, d), [Alone(r)], Sharp);
      SpotsOne(Alone(r), Sharp);
      assert SpotOf(Alone(r), Sharp) == x.(isolateLevel := 0);
    } else {
      assert Pick(s, d) + [] == Pick(s, d) && OfDepth(Spots(s, Sharp), d) + [] == OfDepth(Spots(s, Sharp), d);
    }
  }

  lemma {:induction false} PickedSpots(s: seq<Run>, d: nat)
    ensures Spots(Pick(s, d), Sharp) == OfDepth(Spots(s, Sharp), d)
  {
    hide Pick;
    hide Spots;
    hide OfDepth;
    if s == [] {
      SpotsNothing(Sharp);
      PickNothing(d);
      DepthNothing(d);
    } else {
      var n := |s| - 1;
      PickedSpots(s[..n], d);
      PickedRun(s[..n], s[n], d);
      assert s[..n] + [s[n]] == s;
    }
  }

  /** The characters of some of the runs. */
  lemma SpotsPart(runs: seq<Run>, lo: nat, hi: nat)
    requires lo <= hi <= |runs|
    ensures Off(runs, lo) <= Off(runs, hi) <= |Spots(runs, Sharp)|
    ensures Spots(runs, Sharp)[Off(runs, lo)..Off(runs, hi)] == Spots(runs[lo..hi], Sharp)
  {
    hide Spots;
    hide Off;
    assert runs == runs[..hi] + runs[hi..] && runs[..hi] == runs[..lo] + runs[lo..hi];
    SpotsJoin(runs[..hi], runs[hi..], Sharp);
    SpotsJoin(runs[..lo], runs[lo..hi], Sharp);
    OffIs(runs, hi, Sharp);
    OffIs(runs, lo, Sharp);
  }

  ghost predicate NoneEmpty(runs: seq<Run>) {
    forall m | 0 <= m < |runs| :: runs[m].len > 0
  }

  /** A change of isolate level is the start of a run. */
  lemma RunStarts(runs: seq<Run>, b: nat) returns (i: nat)
    requires NoneEmpty(runs) && b < |Spots(runs, Sharp)|
    requires b > 0 ==> Spots(runs, Sharp)[b - 1].isolateLevel != Spots(runs, Sharp)[b].isolateLevel
    ensures i < |runs| && Off(runs, i) == b && runs[i].isolateLevel == Spots(runs, Sharp)[b].isolateLevel
    ensures i > 0 ==> b > 0 && runs[i - 1].isolateLevel == Spots(runs, Sharp)[b - 1].isolateLevel
    ensures i == 0 ==> b == 0
  {
    hide Spots;
    hide Off;
    assert runs[..|runs|] == runs;
    OffIs(runs, |runs|, Sharp);
    i := RunOf(runs, |runs|, b);
    SpotAt(runs, i, b - Off(runs, i), Sharp);
    if Off(runs, i) < b {
      SpotAt(runs, i, b - 1 - Off(runs, i), Sharp);
    }
    OffStart(runs);
    if i > 0 {
      OffNext(runs, i - 1);
      SpotAt(runs, i - 1, runs[i - 1].len - 1, Sharp);
    }
  }

  lemma RunInside(runs: seq<Run>, lo: nat, hi: nat, m: nat, d: nat)
    requires NoneEmpty(runs) && lo <= m < hi <= |runs|
    requires Off(runs, hi) <= |Spots(runs, Sharp)|
    requires forall j | Off(runs, lo) <= j < Off(runs, hi) :: Spots(runs, Sharp)[j].isolateLevel >= d
    ensures runs[m].isolateLevel >= d
  {
    hide Spots;
    hide Off;
    OffRises(runs, m, hi);
    if lo < m {
      OffRises(runs, lo, m);
    }
    SpotAt(runs, m, 0, Sharp);
    assert Spots(runs, Sharp)[Off(runs, m)].isolateLevel >= d;
  }

  /** The runs of an isolate. */
  lemma FindStretch(runs: seq<Run>, b: nat, e: nat, d: nat) returns (lo: nat, hi: nat)
    requires NoneEmpty(runs) && Isolated(Spots(runs, Sharp), b, e, d)
    ensures Stretch(runs, lo, hi, d) && Off(runs, lo) == b && Off(runs, hi) == e
  {
    hide Spots;
    hide Off;
    var s := Spots(runs, Sharp);
    assert runs[..|runs|] == runs;
    OffIs(runs, |runs|, Sharp);
    lo := RunStarts(runs, b);
    hi := |runs|;
    if e < |s| {
      hi := RunStarts(runs, e);
    }
    if hi < lo {
      OffRises(runs, hi, lo);
    }
    forall m: nat | lo <= m < hi ensures runs[m].isolateLevel >= d {
      RunInside(runs, lo, hi, m, d);
    }
  }

  // ----- The theorem on lists -----

  function Kinds(s: seq<Spot>): (ks: seq<BidiType>)
    ensures |ks| == |s|
  {
    seq(|s|, i requires 0 <= i < |s| => s[i].kind)
  }

  function Levels(s: seq<Spot>): (ls: seq<int>)
    ensures |ls| == |s|
  {
    seq(|s|, i requires 0 <= i < |s| => s[i].level)
  }

  lemma SpotsSpell(runs: seq<Run>)
    ensures Spells(runs, Kinds(Spots(runs, Sharp)), Levels(Spots(runs, Sharp)))
  {
    hide Spots;
    hide Off;
    var s := Spots(runs, Sharp);
    assert runs[..|runs|] == runs;
    OffIs(runs, |runs|, Sharp);
    forall i | 0 <= i < |runs| ensures RunSpells(runs, i, Kinds(s), Levels(s)) {
      OffNext(runs, i);
      if i + 1 < |runs| {
        OffRises(runs, i, |runs|);
      }
      forall q | Off(runs, i) <= q < Off(runs, i) + runs[i].len
        ensures Kinds(s)[q] == runs[i].kind && Levels(s)[q] == runs[i].level {
        SpotAt(runs, i, q - Off(runs, i), Sharp);
      }
    }
  }

  /** A list is spelled in one way only. */
  lemma SpelledOnce(runs: seq<Run>, ks: seq<BidiType>, ls: seq<int>)
    requires Spells(runs, ks, ls)
    ensures Kinds(Spots(runs, Sharp)) == ks && Levels(Spots(runs, Sharp)) == ls
  {
    hide Spots;
    hide Off;
    var s := Spots(runs, Sharp);
    assert runs[..|runs|] == runs;
    OffIs(runs, |runs|, Sharp);
    forall q | 0 <= q < |s| ensures s[q].kind == ks[q] && s[q].level == ls[q] {
      var i := RunOf(runs, |runs|, q);
      assert RunSpells(runs, i, ks, ls);
      SpotAt(runs, i, q - Off(runs, i), Sharp);
    }
  }

  lemma {:induction false} DepthFirst(s: seq<Spot>, d: nat)
    requires s != [] && s[0].isolateLevel == d
    ensures var f := OfDepth(s, d); f != [] && f[0].level == s[0].level
    decreases |s|
  {
    if |s| > 1 {
      DepthFirst(s[..|s| - 1], d);
    }
  }

  lemma SameLength(a: seq<Run>, b: seq<Run>, base: nat, codes: seq<Run>, places: seq<Spot>)
    requires Sound(a, base, codes, places) && Sound(b, base, codes, places)
    ensures |Spots(a, Sharp)| == |Spots(b, Sharp)| == |places|
  {
    hide Spots;
    hide Off;
    hide KeptPos;
    hide Shaped;
    assert a[..|a|] == a && b[..|b|] == b;
    OffIs(a, |a|, Sharp);
    OffIs(b, |b|, Sharp);
  }

  /** The first run of the isolate is the first one of the chain. */
  lemma FirstAlone(runs: seq<Run>, lo: nat, hi: nat, d: nat)
    requires Lasting(runs) && Stretch(runs, lo, hi, d)
    ensures lo < hi <= |runs|
    ensures var s := Spots(Pick(runs[lo..hi], d), Sharp); s != [] && s[0].level == runs[lo].level
  {
    hide Spots;
    hide Pick;
    hide Stretch;
    hide OfDepth;
    StretchBounds(runs, lo, hi, d);
    var s := runs[lo..hi];
    PickedSpots(s, d);
    assert s[0].len > 0;
    OffStart(s);
    SpotAt(s, 0, 0, Sharp);
    DepthFirst(Spots(s, Sharp), d);
  }

  /** A chain on its own is a list for the theorem on lists without isolates. */
  lemma AlonePlain(runs: seq<Run>, lo: nat, hi: nat, d: nat, before: nat, base: nat)
    requires Shaped(runs, base) && Lasting(runs) && Quiet(runs) && Stretch(runs, lo, hi, d)
    requires Joined(runs, |runs|, false) && PlainBrackets(runs) && runs[lo].level >= before
    ensures lo < hi <= |runs|
    ensures var p := Pick(runs[lo..hi], d); var s := Spots(p, Sharp); Plain(p, Kinds(s), Levels(s), before)
  {
    hide Shaped;
    hide Lasting;
    hide Quiet;
    hide Joined;
    hide PlainBrackets;
    hide Spots;
    hide Pick;
    hide Stretch;
    hide Free;
    hide Calm;
    hide OfDepth;
    StretchBounds(runs, lo, hi, d);
    LastingPart(runs, lo, hi);
    PickFree(runs[lo..hi], d);
    AloneCalm(runs, lo, hi, d, base);
    SpotsSpell(Pick(runs[lo..hi], d));
    FirstAlone(runs, lo, hi, d);
  }

  lemma LastingRuns(runs: seq<Run>)
    requires Lasting(runs)
    ensures NoneEmpty(runs)
  {
  }

  lemma StretchLevel(runs: seq<Run>, lo: nat, hi: nat, d: nat, b: nat)
    requires NoneEmpty(runs) && Stretch(runs, lo, hi, d) && Off(runs, lo) == b
    ensures lo < hi <= |runs| && b < |Spots(runs, Sharp)| && Spots(runs, Sharp)[b].level == runs[lo].level
  {
    hide Spots;
    hide Off;
    SpotAt(runs, lo, 0, Sharp);
  }

  /** The first level of a chain is above the levels outside its isolate, and so
      decides the type of the start of the sequence alone. */
  lemma WeakOfChain(runs: seq<Run>, baseDir: BidiType, b: nat, e: nat, d: nat, before: nat, base: nat,
                    codes: seq<Run>, places: seq<Spot>)
    requires Sound(runs, base, codes, places) && Quiet(runs) && Joined(runs, |runs|, false) && PlainBrackets(runs)
    requires var s := Spots(runs, Sharp); Isolated(s, b, e, d) && s[b].level >= before
    ensures IsolatesFit(runs) && |Spots(Weakened(runs, baseDir), Sharp)| == |Spots(runs, Sharp)|
    ensures var s, w := OfDepth(Spots(runs, Sharp)[b..e], d), OfDepth(Spots(Weakened(runs, baseDir), Sharp)[b..e], d);
            Kinds(w) == Weak(Kinds(s), Levels(s), before) && Levels(w) == Levels(s)
  {
    hide Sound;
    hide Quiet;
    hide Joined;
    hide PlainBrackets;
    hide Spots;
    hide Off;
    hide OfDepth;
    hide Pick;
    hide Stretch;
    hide Weakened;
    hide Weak;
    hide Spells;
    hide Calm;
    hide Free;
    SoundLasting(runs, base, codes, places);
    WeakenedSound(runs, baseDir, base, codes, places);
    hide IsolatesFit;
    var w := Weakened(runs, baseDir);
    SameLength(runs, w, base, codes, places);
    LastingRuns(runs);
    hide NoneEmpty;
    hide Lasting;
    var lo, hi := FindStretch(runs, b, e, d);
    StretchLevel(runs, lo, hi, d, b);
    var l, h := WeakenedAlone(runs, baseDir, lo, hi, d, base, codes, places);
    var p := Pick(runs[lo..hi], d);
    SpotsPart(runs, lo, hi);
    SpotsPart(w, l, h);
    PickedSpots(runs[lo..hi], d);
    PickedSpots(w[l..h], d);
    AlonePlain(runs, lo, hi, d, before, base);
    var ks, ls := Kinds(Spots(p, Sharp)), Levels(Spots(p, Sharp));
    WeakenedPlain(p, baseDir, ks, ls, before);
    SpelledOnce(Weakened(p, baseDir), Weak(ks, ls, before), ls);
  }
}
