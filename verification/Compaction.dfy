/** Merging neighbouring runs (merge_with_prev, compact_list, compact_neutrals):
    the isolate chains, the nesting and the text survive. */
module Compaction {
  import opened BidiTypes
  import opened Runs
  import opened Chains
  import opened NextRunCache
  import opened IsolateLinks
  import opened Nesting
  import opened Alignment

  // ----- Nesting after a merge -----

  lemma InnerMerged(runs: seq<Run>, k: nat, i: nat, j: nat)
    requires Mergeable(runs, k) && i < j < |runs| - 1 && Inner(MergeWithPrev(runs, k), i, j)
    ensures j < k ==> Inner(runs, i, j)
    ensures j >= k ==> Inner(runs, if i < k - 1 then i else i + 1, j + 1)
  {
    var i', j' := if i < k - 1 then i else i + 1, if j < k then j else j + 1;
    MergedAt(runs, k, i');
    forall m | i' < m <= j' ensures runs[m].isolateLevel > runs[i'].isolateLevel {
      MergedAt(runs, k, m);
    }
  }

  lemma NestedMergedAt(runs: seq<Run>, k: nat, i: nat, base: nat)
    requires Mergeable(runs, k) && Nested(runs, base) && i < |runs| - 1
    ensures NestedAt(MergeWithPrev(runs, k), i, base)
  {
    hide Nested;
    hide PrevFrom;
    hide NextFrom;
    hide Inner;
    hide MergeWithPrev;
    var r, o := MergeWithPrev(runs, k), if i < k then i else i + 1;
    NestedIs(runs, o, base);
    NestedIs(runs, k, base);
    MergeChain(runs, k, i);
    MergedAt(runs, k, o);
    if i > 0 {
      MergedAt(runs, k, o - 1);
    }
    if Prev(runs, o) >= 0 {
      MergedAt(runs, k, Prev(runs, o));
    }
    forall j | 0 <= j < i && Inner(r, j, i) && !r[i].kind.BS? ensures r[i].level > r[j].level {
      InnerMerged(runs, k, j, i);
      MergedAt(runs, k, if i < k || j < k - 1 then j else j + 1);
    }
  }

  /** Merging keeps the shape of the list. */
  lemma ShapedMerged(runs: seq<Run>, k: nat, base: nat)
    requires Mergeable(runs, k) && Shaped(runs, base)
    ensures Shaped(MergeWithPrev(runs, k), base)
  {
    hide Nested;
    hide MergeWithPrev;
    var r := MergeWithPrev(runs, k);
    forall i | 0 <= i < |r| ensures NestedAt(r, i, base) {
      NestedMergedAt(runs, k, i, base);
    }
    NestedAll(r, base);
    forall i | 0 <= i < |r|
      ensures r[i].pos == runs[if i < k then i else i + 1].pos
      ensures r[i].level == runs[if i < k then i else i + 1].level
      ensures r[i].kind == runs[if i < k then i else i + 1].kind
      ensures r[i].isolateLevel == runs[if i < k then i else i + 1].isolateLevel {
      MergedAt(runs, k, if i < k then i else i + 1);
    }
  }

  // ----- The text after a merge -----

  /** A character as the phases see it. */
  datatype Spot = Spot(kind: BidiType, level: int, isolateLevel: nat, bracket: Bracket)

  /** How closely characters are looked at: only `Full` sees brackets, `Soft`
      takes all neutral types for one, `Blind` sees no types. */
  datatype Sight = Full | Sharp | Soft | Blind

  function SpotOf(r: Run, sight: Sight): Spot {
    Spot(if sight.Blind? || (sight.Soft? && r.kind.IsNeutral()) then ON else r.kind, r.level, r.isolateLevel,
         if sight.Full? then r.bracket else NoBracket)
  }

  function Repeat<T>(x: T, n: nat): (s: seq<T>)
    ensures |s| == n && forall i | 0 <= i < n :: s[i] == x
  {
    seq(n, i => x)
  }

  /** The characters the list stands for, in order. */
  ghost function Spots(runs: seq<Run>, sight: Sight): seq<Spot> {
    if runs == [] then []
    else var n := |runs| - 1; Spots(runs[..n], sight) + Repeat(SpotOf(runs[n], sight), runs[n].len)
  }

  lemma SpotsNothing(sight: Sight)
    ensures Spots([], sight) == []
  {
  }

  lemma SpotsLast(runs: seq<Run>, sight: Sight)
    requires runs != []
    ensures var n := |runs| - 1;
            Spots(runs, sight) == Spots(runs[..n], sight) + Repeat(SpotOf(runs[n], sight), runs[n].len)
  {
  }

  lemma {:induction false} SpotsJoin(a: seq<Run>, b: seq<Run>, sight: Sight)
    ensures Spots(a + b, sight) == Spots(a, sight) + Spots(b, sight)
  {
    hide Spots;
    hide Repeat;
    hide SpotOf;
    if b == [] {
      assert Spots(b, sight) == [] by { SpotsNothing(sight); }
      assert a + b == a;
    } else {
      var n := |b| - 1;
      SpotsJoin(a, b[..n], sight);
      SpotsLast(a + b, sight);
      SpotsLast(b, sight);
      assert (a + b)[..|a| + n] == a + b[..n];
    }
  }

  lemma SpotsOne(r: Run, sight: Sight)
    ensures Spots([r], sight) == Repeat(SpotOf(r, sight), r.len)
  {
    assert [r][..0] == [];
  }

  lemma RepeatJoin<T>(x: T, m: nat, n: nat)
    ensures Repeat(x, m) + Repeat(x, n) == Repeat(x, m + n)
  {
  }

  /** Types do not matter to the blind. */
  lemma {:induction false} SpotsBlind(a: seq<Run>, b: seq<Run>)
    requires SameFrame(a, b)
    ensures Spots(a, Blind) == Spots(b, Blind)
  {
    if a != [] {
      SpotsBlind(a[..|a| - 1], b[..|a| - 1]);
    }
  }

  /** Merging runs that look alike changes no character. */
  lemma SpotsMerged(runs: seq<Run>, k: nat, sight: Sight)
    requires 0 < k < |runs| && SpotOf(runs[k - 1], sight) == SpotOf(runs[k], sight)
    ensures Spots(MergeWithPrev(runs, k), sight) == Spots(runs, sight)
  {
    hide Spots;
    hide Repeat;
    var a, b, m := runs[k - 1], runs[k], runs[k - 1].(len := runs[k - 1].len + runs[k].len);
    assert runs == runs[..k - 1] + ([a] + ([b] + runs[k + 1..]));
    assert MergeWithPrev(runs, k) == runs[..k - 1] + ([m] + runs[k + 1..]);
    SpotsJoin(runs[..k - 1], [a] + ([b] + runs[k + 1..]), sight);
    SpotsJoin([a], [b] + runs[k + 1..], sight);
    SpotsJoin([b], runs[k + 1..], sight);
    SpotsJoin(runs[..k - 1], [m] + runs[k + 1..], sight);
    SpotsJoin([m], runs[k + 1..], sight);
    SpotsOne(a, sight);
    SpotsOne(b, sight);
    SpotsOne(m, sight);
    RepeatJoin(SpotOf(a, sight), a.len, b.len);
  }

  // ----- The loops -----

  function SightOf(blur: bool): Sight { if blur then Soft else Sharp }

  /** What joins in compact_list, or with `blur` in compact_neutrals. */
  predicate Joins(a: Run, b: Run, blur: bool) {
    && a.level == b.level && a.isolateLevel == b.isolateLevel
    && (a.kind == b.kind || (blur && a.kind.IsNeutral() && b.kind.IsNeutral()))
    && a.bracket == NoBracket && b.bracket == NoBracket
  }

  predicate SettledKind(t: BidiType) { t.IsNeutral() || t.LTR? || t.RTL? || t.IsNumber() }

  /** Every run is neutral, L, R or a number once W and N0 are done. */
  ghost predicate Settled(runs: seq<Run>) {
    forall k | 0 <= k < |runs| :: SettledKind(runs[k].kind)
  }

  ghost predicate NoCodes(runs: seq<Run>) {
    forall i | 0 <= i < |runs| :: !runs[i].kind.IsExplicitOrBn()
  }

  /** Brackets are of type ON, or have taken the type of an override. */
  ghost predicate PlainBrackets(runs: seq<Run>) {
    forall k | 0 <= k < |runs| && runs[k].bracket != NoBracket ::
          runs[k].kind.ON? || runs[k].kind.LTR? || runs[k].kind.RTL?
  }

  /** Brackets stand alone, and no run is empty. */
  ghost predicate SingleBrackets(runs: seq<Run>) {
    forall k | 0 <= k < |runs| :: runs[k].len > 0 && (runs[k].bracket != NoBracket ==> runs[k].len == 1)
  }

  ghost predicate NoBrackets(runs: seq<Run>) {
    forall k | 0 <= k < |runs| :: runs[k].bracket == NoBracket
  }

  /** What holds of the list before and after. */
  ghost predicate Compacts(runs0: seq<Run>, runs: seq<Run>, blur: bool, base: nat, codes: seq<Run>, n: nat) {
    && Spots(runs, SightOf(blur)) == Spots(runs0, SightOf(blur)) && Spots(runs, Blind) == Spots(runs0, Blind)
    && (Shaped(runs0, base) ==> Shaped(runs, base))
    && (Settled(runs0) ==> Settled(runs))
    && (NoBrackets(runs0) ==> NoBrackets(runs)) && (NoCodes(runs0) ==> NoCodes(runs))
    && (PlainBrackets(runs0) ==> PlainBrackets(runs)) && (SingleBrackets(runs0) ==> SingleBrackets(runs))
    && (!blur ==> Spots(runs, Full) == Spots(runs0, Full))
    && (Aligned(runs0, codes, n) ==> Aligned(runs, codes, n))
  }

  lemma TypesMerged(runs: seq<Run>, k: nat)
    requires 0 < k < |runs|
    ensures Settled(runs) ==> Settled(MergeWithPrev(runs, k))
    ensures NoBrackets(runs) ==> NoBrackets(MergeWithPrev(runs, k))
    ensures NoCodes(runs) ==> NoCodes(MergeWithPrev(runs, k))
    ensures PlainBrackets(runs) ==> PlainBrackets(MergeWithPrev(runs, k))
  {
    hide SettledKind;
    var r := MergeWithPrev(runs, k);
    forall i | 0 <= i < |r|
      ensures r[i].kind == runs[if i < k then i else i + 1].kind
              && r[i].bracket == runs[if i < k then i else i + 1].bracket {
    }
  }

  lemma SingleMerged(runs: seq<Run>, k: nat)
    requires 0 < k < |runs| && runs[k - 1].bracket == NoBracket
    ensures SingleBrackets(runs) ==> SingleBrackets(MergeWithPrev(runs, k))
  {
    var r := MergeWithPrev(runs, k);
    forall i | 0 <= i < |r| && SingleBrackets(runs)
      ensures r[i].len > 0 && (r[i].bracket != NoBracket ==> r[i].len == 1) {
      assert runs[if i < k then i else i + 1].len > 0;
    }
  }

  lemma CompactsMerge(runs0: seq<Run>, runs: seq<Run>, blur: bool, base: nat, codes: seq<Run>, n: nat, k: nat)
    requires Compacts(runs0, runs, blur, base, codes, n) && 0 < k < |runs| && Joins(runs[k - 1], runs[k], blur)
    ensures Compacts(runs0, MergeWithPrev(runs, k), blur, base, codes, n)
  {
    hide Spots;
    hide Shaped;
    hide Settled;
    hide NoBrackets;
    hide NoCodes;
    hide PlainBrackets;
    hide SingleBrackets;
    hide Aligned;
    hide MergeWithPrev;
    SpotsMerged(runs, k, SightOf(blur));
    SpotsMerged(runs, k, Blind);
    if !blur {
      SpotsMerged(runs, k, Full);
    }
    SingleMerged(runs, k);
    if Shaped(runs, base) {
      ShapedMerged(runs, k, base);
    }
    TypesMerged(runs, k);
    if Aligned(runs, codes, n) {
      AlignedMerged(runs, k, codes, n);
    }
  }

  /** No neighbours before run `k` are left to join. */
  ghost predicate Joined(runs: seq<Run>, k: nat, blur: bool) {
    forall i | 0 < i < k && i < |runs| :: !Joins(runs[i - 1], runs[i], blur)
  }

  lemma JoinedMerge(runs: seq<Run>, k: nat, blur: bool)
    requires 0 < k < |runs| && Joined(runs, k, blur)
    ensures Joined(MergeWithPrev(runs, k), k, blur)
  {
    var r := MergeWithPrev(runs, k);
    forall i | 0 < i < k && i < |r| ensures !Joins(r[i - 1], r[i], blur) {
      assert !Joins(runs[i - 1], runs[i], blur);
    }
  }

  lemma JoinedStart(runs: seq<Run>, blur: bool, base: nat, codes: seq<Run>, n: nat)
    ensures Compacts(runs, runs, blur, base, codes, n) && Joined(runs, 1, blur)
  {
  }

  lemma JoinedNext(runs: seq<Run>, k: nat, blur: bool)
    requires 0 < k < |runs| && Joined(runs, k, blur) && !Joins(runs[k - 1], runs[k], blur)
    ensures Joined(runs, k + 1, blur)
  {
  }

  lemma JoinedEnd(runs: seq<Run>, k: nat, blur: bool)
    requires Joined(runs, k, blur) && k >= |runs|
    ensures Joined(runs, |runs|, blur)
  {
  }

  /** The list that joining from run `k` on leaves. */
  ghost function CompactFrom(runs: seq<Run>, k: nat, blur: bool): (r: seq<Run>)
    ensures IsolatesFit(runs) ==> IsolatesFit(r)
    decreases |runs| - k
  {
    if k == 0 || k >= |runs| then runs
    else if Joins(runs[k - 1], runs[k], blur) then
      assert IsolatesFit(runs) ==> IsolatesFit(MergeWithPrev(runs, k)) by {
        if IsolatesFit(runs) {
          MergeFits(runs, k);
        }
      }
      CompactFrom(MergeWithPrev(runs, k), k, blur)
    else CompactFrom(runs, k + 1, blur)
  }

  /** Joining keeps the text, the alignment and the shape, and leaves no
      neighbours to join. */
  lemma {:induction false} CompactKeeps(runs0: seq<Run>, runs: seq<Run>, k: nat, blur: bool, base: nat, codes: seq<Run>,
                                        n: nat)
    requires 0 < k && Compacts(runs0, runs, blur, base, codes, n) && Joined(runs, k, blur)
    ensures var r := CompactFrom(runs, k, blur); Compacts(runs0, r, blur, base, codes, n) && Joined(r, |r|, blur)
    decreases |runs| - k
  {
    hide Compacts;
    hide Joined;
    hide MergeWithPrev;
    hide IsolatesFit;
    if k >= |runs| {
      JoinedEnd(runs, k, blur);
    } else if Joins(runs[k - 1], runs[k], blur) {
      CompactsMerge(runs0, runs, blur, base, codes, n, k);
      JoinedMerge(runs, k, blur);
      CompactKeeps(runs0, MergeWithPrev(runs, k), k, blur, base, codes, n);
    } else {
      JoinedNext(runs, k, blur);
      CompactKeeps(runs0, runs, k + 1, blur, base, codes, n);
    }
  }

  lemma CompactAll(runs: seq<Run>, blur: bool, base: nat, codes: seq<Run>, n: nat)
    ensures var r := CompactFrom(runs, 1, blur); Compacts(runs, r, blur, base, codes, n) && Joined(r, |r|, blur)
  {
    hide Compacts;
    hide Joined;
    JoinedStart(runs, blur, base, codes, n);
    CompactKeeps(runs, runs, 1, blur, base, codes, n);
  }

  /** compact_list, and compact_neutrals with `blur`. */
  method Compact(runs0: seq<Run>, links0: Links, blur: bool) returns (runs: seq<Run>, links: Links)
    requires Agree(runs0, links0)
    ensures runs == CompactFrom(runs0, 1, blur) && Agree(runs, links)
  {
    hide MergeWithPrev;
    hide Agree;
    hide IsolatesFit;
    runs, links := runs0, links0;
    var k := 1;
    while k < |runs|
      invariant 1 <= k && Agree(runs, links) && CompactFrom(runs, k, blur) == CompactFrom(runs0, 1, blur)
      decreases |runs| - k
    {
      if Joins(runs[k - 1], runs[k], blur) {
        runs, links := MergeRuns(runs, links, k);
      } else {
        k := k + 1;
      }
    }
  }

  /** Neighbours on one isolate level and level are not both neutral. */
  ghost predicate Compacted(runs: seq<Run>) {
    forall k | 0 < k < |runs| && runs[k - 1].level == runs[k].level
        && runs[k - 1].isolateLevel == runs[k].isolateLevel ::
      !(runs[k - 1].kind.IsNeutral() && runs[k].kind.IsNeutral())
  }

  /** Once the brackets are cleared, compact_neutrals leaves no two neutral
      neighbours. */
  lemma JoinedIsCompacted(runs: seq<Run>)
    requires Joined(runs, |runs|, true) && NoBrackets(runs)
    ensures Compacted(runs)
  {
    forall k | 0 < k < |runs| && runs[k - 1].level == runs[k].level && runs[k - 1].isolateLevel == runs[k].isolateLevel
      ensures !(runs[k - 1].kind.IsNeutral() && runs[k].kind.IsNeutral()) {
      assert !Joins(runs[k - 1], runs[k], true);
    }
  }
}
