/** Rules N1 and N2 of UAX #9 and the loop that applies them run by run. */
module Neutrals {
  import opened BidiTypes
  import opened Runs
  import opened Chains
  import opened NextRunCache
  import opened IsolateLinks
  import opened Nesting
  import opened Compaction
  import opened BracketPairs
  import opened BracketRules
  import opened BracketPhase

  // ----- The rules -----

  /** Run `k` is not the last of its isolating run sequence. */
  predicate Resumes(runs: seq<Run>, k: nat)
    requires k < |runs|
  {
    Next(runs, k) >= 0 && runs[Next(runs, k)].level == runs[k].level
  }

  /** X10: the direction after an isolating run sequence that ends at `k`.  When
      the next run lies deeper the sequence ends in an isolate initiator without
      a matching PDI, and the base level takes the place of the level after. */
  ghost function EosDir(runs: seq<Run>, k: nat, base: nat): int
    requires k < |runs|
  {
    Parity(Max(runs[k].level,
               if k + 1 < |runs| && runs[k + 1].isolateLevel <= runs[k].isolateLevel then runs[k + 1].level else base))
  }

  /** The direction on the left of the neutrals around run `k`. */
  ghost function LeftDir(runs: seq<Run>, k: nat, base: nat): int
    requires k < |runs|
  {
    if !Continues(runs, k) then SosDir(runs, k, base)
    else
      var p := Prev(runs, k);
      if runs[p].kind.IsNeutral() then LeftDir(runs, p, base) else StrongDir(runs[p])
  }

  ghost function RightDir(runs: seq<Run>, k: nat, base: nat): int
    requires k < |runs|
    decreases |runs| - k
  {
    if !Resumes(runs, k) then EosDir(runs, k, base)
    else
      var n := Next(runs, k);
      if runs[n].kind.IsNeutral() then RightDir(runs, n, base) else StrongDir(runs[n])
  }

  /** N1 and N2: neutrals take the direction on both sides if the sides agree,
      and the embedding direction otherwise. */
  ghost function Resolved(runs: seq<Run>, k: nat, base: nat): BidiType
    requires k < |runs|
  {
    if !runs[k].kind.IsNeutral() then runs[k].kind
    else if LeftDir(runs, k, base) == RightDir(runs, k, base) then DirType(LeftDir(runs, k, base))
    else LevelToDir(runs[k].level)
  }

  /** The links of the chain are inverse to each other, forwards too. */
  lemma PrevOfNextRun(runs: seq<Run>, k: nat)
    requires k < |runs| && Next(runs, k) >= 0
    ensures Prev(runs, Next(runs, k)) == k && runs[Next(runs, k)].isolateLevel == runs[k].isolateLevel
  {
    hide PrevFrom;
    hide NextFrom;
    PrevOfNext(runs, runs[k].isolateLevel, k, Next(runs, k) - 1);
  }

  /** Runs of one maximal stretch of neutrals look out at the same two sides. */
  lemma StretchAgrees(runs: seq<Run>, k: nat, base: nat)
    requires k < |runs| && Resumes(runs, k) && runs[k].kind.IsNeutral() && runs[Next(runs, k)].kind.IsNeutral()
    ensures LeftDir(runs, k, base) == LeftDir(runs, Next(runs, k), base)
    ensures RightDir(runs, k, base) == RightDir(runs, Next(runs, k), base)
    ensures Resolved(runs, k, base) == Resolved(runs, Next(runs, k), base)
  {
    hide Prev;
    hide NextFrom;
    PrevOfNextRun(runs, k);
  }

  // ----- What the shape of the list gives -----

  /** Within a sequence a neutral run is followed by another only where a PDI
      comes after nested isolates. */
  lemma NeutralsMeet(runs: seq<Run>, k: nat, base: nat)
    requires Nested(runs, base) && Compacted(runs) && k < |runs|
    requires Resumes(runs, k) && runs[k].kind.IsNeutral() && runs[Next(runs, k)].kind.IsNeutral()
    ensures runs[Next(runs, k)].kind.PDI?
  {
    hide Prev;
    hide NextFrom;
    hide Nested;
    PrevOfNextRun(runs, k);
    if Next(runs, k) != k + 1 {
      GapIsPdi(runs, Next(runs, k), base);
    }
  }

  /** A PDI run has the level of the run before it in the chain. */
  lemma PdiResumes(runs: seq<Run>, k: nat, base: nat)
    requires Nested(runs, base) && k < |runs| && Next(runs, k) >= 0 && runs[Next(runs, k)].kind.PDI?
    ensures Resumes(runs, k)
  {
    hide PrevFrom;
    hide NextFrom;
    hide Inner;
    PrevOfNextRun(runs, k);
    assert NestedAt(runs, Next(runs, k), base);
  }

  /** The run after a finished isolate is the PDI at the lower level outside. */
  lemma LowerAfter(runs: seq<Run>, k: nat, base: nat)
    requires Nested(runs, base) && k + 1 < |runs| && runs[k + 1].isolateLevel < runs[k].isolateLevel
    ensures runs[k + 1].level < runs[k].level
  {
    hide PrevFrom;
    hide Nested;
    NoSkip(runs, base, runs[k + 1].isolateLevel, k);
    GapIsPdi(runs, k + 1, base);
    NotSeparator(runs, k, base);
    InnerHigher(runs, Prev(runs, k + 1), k, base);
  }

  /** Where a sequence ends, the chain tells the level after it. */
  lemma EndLevel(runs: seq<Run>, k: nat, base: nat)
    requires Nested(runs, base) && LevelsFit(runs) && AboveBase(runs, base)
    requires k < |runs| && !runs[k].kind.BS? && !Resumes(runs, k)
    ensures EosDir(runs, k, base) == Parity(Max(LevelAt(runs, Next(runs, k)), runs[k].level))
  {
    hide Prev;
    hide Nested;
    var n := Next(runs, k);
    if n >= 0 {
      PrevOfNextRun(runs, k);
      if n != k + 1 {
        GapIsPdi(runs, n, base);
      }
    } else if k + 1 < |runs| && runs[k + 1].isolateLevel <= runs[k].isolateLevel {
      LowerAfter(runs, k, base);
    }
  }

  // ----- The loop -----

  lemma {:induction false} LeftRange(runs: seq<Run>, k: nat, base: nat)
    requires Settled(runs) && k < |runs|
    ensures 0 <= LeftDir(runs, k, base) <= 1
  {
    hide PrevFrom;
    if Continues(runs, k) && runs[Prev(runs, k)].kind.IsNeutral() {
      LeftRange(runs, Prev(runs, k), base);
    }
  }

  lemma {:induction false} RightRange(runs: seq<Run>, k: nat, base: nat)
    requires Settled(runs) && k < |runs|
    ensures 0 <= RightDir(runs, k, base) <= 1
    decreases |runs| - k
  {
    hide NextFrom;
    if Resumes(runs, k) && runs[Next(runs, k)].kind.IsNeutral() {
      RightRange(runs, Next(runs, k), base);
    }
  }

  /** The type the loop compares: numbers count as R. */
  function SideType(runs: seq<Run>, k: nat, j: int): BidiType
    requires k < |runs| && -1 <= j < |runs|
  {
    NumberToRtl(TypeSeen(runs, k, j))
  }

  /** What the forward search finds is what the neutrals of the stretch have on
      their right, PDIs or not. */
  lemma {:induction false} RightSeen(runs: seq<Run>, k: nat, base: nat)
    requires Nested(runs, base) && LevelsFit(runs) && AboveBase(runs, base) && Compacted(runs) && Settled(runs)
    requires k < |runs| && runs[k].kind.IsNeutral() && !runs[k].kind.BS?
    ensures SideType(runs, k, NextSkippingPdi(runs, k)) == DirType(RightDir(runs, k, base))
    decreases |runs| - k
  {
    hide Nested;
    hide Next;
    hide Prev;
    hide Compacted;
    hide AboveBase;
    hide EosDir;
    var n := Next(runs, k);
    if n >= 0 && runs[n].kind.PDI? {
      PdiResumes(runs, k, base);
      RightSeen(runs, n, base);
    } else if Resumes(runs, k) {
      if runs[n].kind.IsNeutral() {
        NeutralsMeet(runs, k, base);
      }
    } else {
      EndLevel(runs, k, base);
    }
  }

  predicate Decided(t: BidiType) { t.LTR? || t.RTL? || t.IsNumber() }

  /** The list while the loop stands at run `k`: everything behind it is
      resolved. */
  ghost predicate StateN(runs0: seq<Run>, runs: seq<Run>, k: nat, base: nat) {
    && SameShape(runs0, runs) && k <= |runs|
    && (forall i | 0 <= i < k :: Decided(runs[i].kind))
    && (forall i | 0 <= i < k && !runs0[i].kind.BS? :: runs[i].kind == Resolved(runs0, i, base))
    && (forall i | k <= i < |runs| :: runs[i] == runs0[i])
  }

  /** What the loop sees on the left: the direction of the stretch, or the
      embedding direction if an earlier part of the stretch has taken that. */
  lemma LeftSeen(runs0: seq<Run>, runs: seq<Run>, k: nat, base: nat)
    requires Nested(runs0, base) && LevelsFit(runs0) && Settled(runs0) && StateN(runs0, runs, k, base)
    requires k < |runs| && runs[k].kind.IsNeutral() && !runs[k].kind.BS?
    ensures var s := SideType(runs, k, Prev(runs, k));
            s == DirType(LeftDir(runs0, k, base)) ||
            (s == LevelToDir(runs0[k].level) && LeftDir(runs0, k, base) != RightDir(runs0, k, base))
  {
    hide Nested;
    hide PrevFrom;
    hide NextFrom;
    ContinuesSame(runs0, runs, k);
    var p := Prev(runs0, k);
    if !Continues(runs0, k) {
      StartLevel(runs0, base, k);
    } else {
      NextOfPrev(runs0, k);
      NotSeparator(runs0, p, base);
      assert runs[p].kind == Resolved(runs0, p, base);
      if runs0[p].kind.IsNeutral() {
        StretchAgrees(runs0, p, base);
        LeftRange(runs0, p, base);
      }
    }
  }

  /** The body of the loop. */
  function TurnN(runs: seq<Run>, k: nat, prev: int, next: int): BidiType
    requires k < |runs| && -1 <= prev < |runs| && -1 <= next < |runs|
  {
    var prevType, nextType := SideType(runs, k, prev), SideType(runs, k, next);
    if NumberToRtl(runs[k].kind).IsNeutral() then (if prevType == nextType then prevType else LevelToDir(runs[k].level))
    else runs[k].kind
  }

  /** One turn settles run `k` as N1 and N2 do. */
  lemma TurnNKind(runs0: seq<Run>, runs: seq<Run>, k: nat, base: nat)
    requires Nested(runs0, base) && LevelsFit(runs0) && AboveBase(runs0, base) && Compacted(runs0) && Settled(runs0)
    requires StateN(runs0, runs, k, base) && k < |runs| && !runs[k].kind.BS?
    ensures TurnN(runs, k, Prev(runs, k), NextSkippingPdi(runs, k)) == Resolved(runs0, k, base)
  {
    hide Nested;
    hide Prev;
    hide NextSkippingPdi;
    hide Compacted;
    hide AboveBase;
    if runs0[k].kind.IsNeutral() {
      RightSeen(runs0, k, base);
      SearchSame(runs0, runs, k, k);
      LeftSeen(runs0, runs, k, base);
      LeftRange(runs0, k, base);
      RightRange(runs0, k, base);
    }
  }

  /** No turn leaves a neutral, not even for a paragraph separator. */
  lemma TurnNNeutral(runs0: seq<Run>, runs: seq<Run>, k: nat, base: nat, next: int)
    requires StateN(runs0, runs, k, base) && LevelsFit(runs0) && Settled(runs0) && k < |runs| && -1 <= next < |runs|
    ensures Decided(TurnN(runs, k, Prev(runs, k), next))
  {
    hide PrevFrom;
    var p := Prev(runs, k);
    if p >= 0 {
      assert Decided(runs[p].kind);
    }
  }

  lemma TurnNState(runs0: seq<Run>, runs: seq<Run>, k: nat, base: nat)
    requires Nested(runs0, base) && LevelsFit(runs0) && AboveBase(runs0, base) && Compacted(runs0) && Settled(runs0)
    requires StateN(runs0, runs, k, base) && k < |runs|
    ensures StateN(runs0, SetKind(runs, k, TurnN(runs, k, Prev(runs, k), NextSkippingPdi(runs, k))), k + 1, base)
  {
    hide Nested;
    hide LevelsFit;
    hide AboveBase;
    hide Compacted;
    hide Settled;
    hide TurnN;
    hide NextSkippingPdi;
    hide Resolved;
    TurnNNeutral(runs0, runs, k, base, NextSkippingPdi(runs, k));
    if !runs[k].kind.BS? {
      TurnNKind(runs0, runs, k, base);
    }
  }

  lemma StartN(runs: seq<Run>, base: nat)
    ensures StateN(runs, runs, 0, base)
  {
  }

  lemma EndN(runs0: seq<Run>, runs: seq<Run>, base: nat)
    requires StateN(runs0, runs, |runs0|, base)
    ensures SameShape(runs0, runs)
    ensures forall i | 0 <= i < |runs0| && !runs0[i].kind.BS? :: runs[i].kind == Resolved(runs0, i, base)
    ensures forall i | 0 <= i < |runs0| :: Decided(runs[i].kind)
  {
  }

  /** What the loop for N1 and N2 leaves from run `k` on. */
  ghost function NeutralsFrom(runs: seq<Run>, k: nat): (r: seq<Run>)
    ensures SameShape(runs, r)
    decreases |runs| - k
  {
    if k >= |runs| then runs
    else NeutralsFrom(SetKind(runs, k, TurnN(runs, k, Prev(runs, k), NextSkippingPdi(runs, k))), k + 1)
  }

  lemma StateNBounds(runs0: seq<Run>, runs: seq<Run>, k: nat, base: nat)
    requires StateN(runs0, runs, k, base)
    ensures k <= |runs| == |runs0|
  {
  }

  /** Every run gets what N1 and N2 give it, and no neutral is left. */
  lemma {:induction false} NeutralsResolve(runs0: seq<Run>, runs: seq<Run>, k: nat, base: nat)
    requires Nested(runs0, base) && LevelsFit(runs0) && AboveBase(runs0, base) && Compacted(runs0) && Settled(runs0)
    requires StateN(runs0, runs, k, base)
    ensures var r := NeutralsFrom(runs, k);
            && |r| == |runs0|
            && (forall i | 0 <= i < |runs0| && !runs0[i].kind.BS? :: r[i].kind == Resolved(runs0, i, base))
            && (forall i | 0 <= i < |runs0| :: Decided(r[i].kind))
    decreases |runs| - k
  {
    hide Nested;
    hide LevelsFit;
    hide AboveBase;
    hide Compacted;
    hide Settled;
    hide TurnN;
    hide StateN;
    hide NextSkippingPdi;
    hide Resolved;
    StateNBounds(runs0, runs, k, base);
    if k < |runs| {
      TurnNState(runs0, runs, k, base);
      NeutralsResolve(runs0, SetKind(runs, k, TurnN(runs, k, Prev(runs, k), NextSkippingPdi(runs, k))), k + 1, base);
    } else {
      EndN(runs0, runs, base);
    }
  }

  lemma LevelsSlots(runs: seq<Run>, k: nat)
    requires LevelsFit(runs) && k < |runs|
    ensures runs[k].isolateLevel < CACHE_SLOTS
  {
  }

  lemma KindLinks(runs: seq<Run>, k: nat, kind: BidiType, links: Links)
    requires Agree(runs, links) && LevelsFit(runs) && k < |runs|
    ensures Agree(SetKind(runs, k, kind), links) && LevelsFit(SetKind(runs, k, kind))
  {
    hide Agree;
    AgreeSame(runs, SetKind(runs, k, kind), links);
  }

  /** The loop for N1 and N2; `nextRun` is the cache of the forward search. */
  method ResolveNeutrals(runs0: seq<Run>, links: Links) returns (runs: seq<Run>)
    requires Agree(runs0, links) && LevelsFit(runs0)
    ensures runs == NeutralsFrom(runs0, 0) && SameShape(runs0, runs) && Agree(runs, links)
  {
    hide LevelsFit;
    hide TurnN;
    hide CacheOk;
    hide NextSkippingPdi;
    hide Prev;
    hide Agree;
    runs := runs0;
    var nextRun := new int[CACHE_SLOTS](i => EMPTY);
    CacheStart(runs, nextRun[..]);
    for k := 0 to |runs|
      invariant SameShape(runs0, runs) && LevelsFit(runs) && CacheOk(runs, k, nextRun[..]) && Agree(runs, links)
      invariant NeutralsFrom(runs, k) == NeutralsFrom(runs0, 0)
    {
      LevelsSlots(runs, k);
      var prev := GetAdjacentRun(runs, links, k, false);
      var next := GetNextRunCached(runs, links, k, nextRun);
      var kind := TurnN(runs, k, prev, next);
      KindStep(runs0, runs, k, kind, nextRun[..]);
      KindLinks(runs, k, kind, links);
      runs := SetKind(runs, k, kind);
    }
  }
}
