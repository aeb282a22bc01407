/** How the bracket pairs of a paragraph lie: each bracket belongs to at most
    one pair, both ends share an isolating run sequence, and any two pairs are
    nested or disjoint, whatever sequences they belong to. */
module BracketStructure {
  import opened BidiTypes
  import opened Runs
  import opened Chains
  import opened NextRunCache
  import opened BracketPairs

  /** Run `o` is an earlier run, or the same run, of the isolating run sequence
      of `c`. */
  ghost predicate Reaches(runs: seq<Run>, c: nat, o: nat)
    requires c < |runs|
  {
    c == o || (Continues(runs, c) && Reaches(runs, Prev(runs, c), o))
  }

  lemma {:induction false} ReachesBack(runs: seq<Run>, c: nat, o: nat)
    requires c < |runs| && Reaches(runs, c, o)
    ensures o <= c
    decreases c
  {
    if c != o {
      ReachesBack(runs, Prev(runs, c), o);
    }
  }

  /** Between two runs of a sequence lie only runs of that sequence and of
      isolates nested in it. */
  lemma {:induction false} Between(runs: seq<Run>, o: nat, m: nat, c: nat)
    requires c < |runs| && Reaches(runs, c, o) && o <= m <= c
    ensures o <= c && runs[o].isolateLevel == runs[c].isolateLevel && runs[o].level == runs[c].level
    ensures runs[m].isolateLevel >= runs[o].isolateLevel
    ensures runs[m].isolateLevel == runs[o].isolateLevel ==> Reaches(runs, c, m) && Reaches(runs, m, o)
    decreases c
  {
    if c != o {
      var p := Prev(runs, c);
      ReachesBack(runs, p, o);
      if m <= p {
        Between(runs, o, m, p);
      } else {
        Between(runs, o, p, p);
      }
    }
  }

  /** Every bracket on the stack belongs to the sequence. */
  lemma {:induction false} StackReaches(runs: seq<Run>, k: nat, x: nat)
    requires k < |runs| && x in SearchAt(runs, k).stack
    ensures Reaches(runs, k, x)
    decreases k
  {
    hide SearchAt;
    hide Match;
    SearchNext(runs, k);
    if Continues(runs, k) && x != k {
      StackReaches(runs, Prev(runs, k), x);
    }
  }

  /** A pair lies in one isolating run sequence. */
  lemma PairReaches(runs: seq<Run>, o: nat, c: nat)
    requires Paired(runs, o, c)
    ensures o < c && Reaches(runs, c, o) && Continues(runs, c) && Reaches(runs, Prev(runs, c), o)
    ensures IsBracket(runs[o]) && runs[o].bracket.open && IsBracket(runs[c]) && !runs[c].bracket.open
  {
    hide SearchAt;
    hide PrevFrom;
    SearchStack(runs, c);
    StackReaches(runs, Prev(runs, c), o);
  }

  /** What is on the stack now was there before or is newer. */
  lemma {:induction false} StackLater(runs: seq<Run>, v: nat, c: nat, x: nat)
    requires c <= v < |runs| && Reaches(runs, v, c) && x in SearchAt(runs, v).stack
    ensures x > c || x in SearchAt(runs, c).stack
    decreases v
  {
    hide SearchAt;
    hide Match;
    hide PrevFrom;
    if v != c {
      SearchNext(runs, v);
      ReachesBack(runs, Prev(runs, v), c);
      if x != v {
        StackLater(runs, Prev(runs, v), c, x);
      }
    }
  }

  /** Closing a pair takes its opening bracket and all later ones off the stack. */
  lemma ClosedOff(runs: seq<Run>, o: nat, c: nat, x: nat)
    requires Paired(runs, o, c) && x in SearchAt(runs, c).stack
    ensures x < o
  {
    hide SearchAt;
    hide PrevFrom;
    SearchNext(runs, c);
    SearchStack(runs, c);
    SearchStack(runs, Prev(runs, c));
  }

  /** No later closing bracket finds a bracket that a pair has taken or skipped. */
  lemma NotAgain(runs: seq<Run>, o1: nat, c1: nat, o2: nat, c2: nat)
    requires Paired(runs, o1, c1) && o1 <= o2 < c1 < c2 < |runs| && Reaches(runs, c2, c1)
    ensures !Paired(runs, o2, c2)
  {
    hide SearchAt;
    hide PrevFrom;
    SearchStack(runs, c2);
    if Paired(runs, o2, c2) {
      ReachesBack(runs, Prev(runs, c2), c1);
      StackLater(runs, Prev(runs, c2), c1, o2);
      ClosedOff(runs, o1, c1, o2);
    }
  }

  /** An opening bracket has one partner. */
  lemma OpenOnce(runs: seq<Run>, o: nat, c1: nat, c2: nat)
    requires Paired(runs, o, c1) && Paired(runs, o, c2)
    ensures c1 == c2
  {
    hide SearchAt;
    PairReaches(runs, o, c1);
    PairReaches(runs, o, c2);
    if c1 < c2 {
      Between(runs, o, c1, c2);
      Between(runs, o, c1, c1);
      NotAgain(runs, o, c1, o, c2);
    } else if c2 < c1 {
      Between(runs, o, c2, c1);
      Between(runs, o, c2, c2);
      NotAgain(runs, o, c2, o, c1);
    }
  }

  /** Any two pairs of the paragraph are nested or disjoint. */
  lemma NestedOrDisjoint(runs: seq<Run>, o1: nat, c1: nat, o2: nat, c2: nat)
    requires Paired(runs, o1, c1) && Paired(runs, o2, c2) && o1 < o2
    ensures c1 < o2 || c2 < c1
  {
    hide SearchAt;
    PairReaches(runs, o1, c1);
    PairReaches(runs, o2, c2);
    if o2 < c1 <= c2 {
      Between(runs, o1, o2, c1);
      Between(runs, o1, c1, c1);
      Between(runs, o2, c1, c2);
      NotAgain(runs, o1, c1, o2, c2);
    }
  }
}
