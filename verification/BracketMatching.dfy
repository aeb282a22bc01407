/** Which brackets are pairs, told by positions alone: a closing bracket takes the
    latest opening bracket of its kind that is still waiting for a partner. */
module BracketMatching {
  import opened BidiTypes
  import opened Runs
  import opened Chains
  import opened BracketPairs
  import opened BracketStructure

  ghost predicate Opening(r: Run) { IsBracket(r) && r.bracket.open }

  ghost predicate Closing(r: Run) { IsBracket(r) && !r.bracket.open }

  /** Run `o` is the opening bracket of a pair completed in the sequence of run `k`
      up to `k`, or inside such a pair. */
  ghost predicate Taken(runs: seq<Run>, k: nat, o: nat)
    requires k < |runs|
  {
    exists a: nat, c: nat :: Reaches(runs, k, c) && Paired(runs, a, c) && a <= o < c
  }

  /** An opening bracket in the sequence of run `k` that waits for a partner. */
  ghost predicate Pending(runs: seq<Run>, k: nat, o: nat)
    requires k < |runs|
  {
    o <= k && Reaches(runs, k, o) && Opening(runs[o]) && !Taken(runs, k, o)
  }

  ghost function Waiting(runs: seq<Run>, k: nat): set<nat>
    requires k < |runs|
  {
    set o: nat | 0 <= o <= k && Pending(runs, k, o)
  }

  /** All opening brackets in the sequence of run `k`, up to `k`. */
  ghost function Openings(runs: seq<Run>, k: nat): set<nat>
    requires k < |runs|
  {
    set o: nat | 0 <= o <= k && Reaches(runs, k, o) && Opening(runs[o])
  }

  ghost predicate TooMany(runs: seq<Run>, m: nat)
    requires m < |runs|
  {
    Opening(runs[m]) && Continues(runs, m) && |Waiting(runs, Prev(runs, m))| >= MAX_NESTED_BRACKET_PAIRS
  }

  /** Somewhere in the sequence of run `k`, up to `k`, an opening bracket found 63
      others waiting. */
  ghost predicate Overflows(runs: seq<Run>, k: nat)
    requires k < |runs|
  {
    exists m: nat :: m <= k && Reaches(runs, k, m) && TooMany(runs, m)
  }

  // ----- One run more -----

  lemma TakenNext(runs: seq<Run>, k: nat, o: nat)
    requires k < |runs|
    ensures Taken(runs, k, o) <==>
              || (SearchAt(runs, k).found >= 0 && SearchAt(runs, k).found <= o < k)
              || (Continues(runs, k) && Taken(runs, Prev(runs, k), o))
  {
    hide SearchAt;
    hide PrevFrom;
    if SearchAt(runs, k).found >= 0 && SearchAt(runs, k).found <= o < k {
      assert Reaches(runs, k, k);
      assert Paired(runs, SearchAt(runs, k).found, k);
    }
    if Continues(runs, k) && Taken(runs, Prev(runs, k), o) {
      var a: nat, c: nat :| Reaches(runs, Prev(runs, k), c) && Paired(runs, a, c) && a <= o < c;
      assert Reaches(runs, k, c);
    }
  }

  lemma TakenLater(runs: seq<Run>, k: nat, o: nat)
    requires k < |runs|
    ensures Taken(runs, k, o) ==> o < k
  {
    hide Paired;
    if Taken(runs, k, o) {
      var a: nat, c: nat :| Reaches(runs, k, c) && Paired(runs, a, c) && a <= o < c;
      ReachesBack(runs, k, c);
    }
  }

  lemma PendingNext(runs: seq<Run>, k: nat, o: nat)
    requires k < |runs|
    ensures Pending(runs, k, o) <==>
              || (o == k && Opening(runs[k]))
              || (Continues(runs, k) && Pending(runs, Prev(runs, k), o)
                  && (SearchAt(runs, k).found >= 0 ==> o < SearchAt(runs, k).found))
  {
    hide SearchAt;
    hide PrevFrom;
    hide Taken;
    TakenNext(runs, k, o);
    if Continues(runs, k) {
      TakenLater(runs, Prev(runs, k), o);
      if Reaches(runs, Prev(runs, k), o) {
        ReachesBack(runs, Prev(runs, k), o);
      }
    }
    SearchStack(runs, k);
  }

  // ----- The stack holds what waits -----

  lemma SearchStep(runs: seq<Run>, k: nat)
    requires k < |runs|
    ensures var before := if Continues(runs, k) then SearchAt(runs, Prev(runs, k)) else Search([], false, -1);
            && SearchAt(runs, k) == Bd16Step(runs, before, k) && OpenBrackets(runs, before.stack, k)
            && |before.stack| <= MAX_NESTED_BRACKET_PAIRS
  {
    hide SearchAt;
    hide PrevFrom;
    hide Bd16Step;
    SearchNext(runs, k);
    if Continues(runs, k) {
      SearchStack(runs, Prev(runs, k));
    }
  }

  /** The members of the stack after a step, by those before it. */
  lemma StepMembers(runs: seq<Run>, st: Search, k: nat, o: nat)
    requires k < |runs| && OpenBrackets(runs, st.stack, k) && !Bd16Step(runs, st, k).stopped
    ensures var r := Bd16Step(runs, st, k);
            && !st.stopped
            && (o in r.stack <==>
                  (o == k && Opening(runs[k])) || (o in st.stack && (r.found >= 0 ==> o < r.found)))
  {
    hide Match;
    var r := Bd16Step(runs, st, k);
    if r.found >= 0 {
      var m := Match(runs, st.stack, runs[k].bracket.id);
      if o in st.stack {
        var i :| 0 <= i < |st.stack| && st.stack[i] == o;
        assert o < st.stack[m] <==> i < m;
      }
    }
  }

  lemma {:induction false} StackWaits(runs: seq<Run>, k: nat, o: nat)
    requires k < |runs| && !SearchAt(runs, k).stopped
    ensures o in SearchAt(runs, k).stack <==> Pending(runs, k, o)
    decreases k
  {
    hide SearchAt;
    hide PrevFrom;
    hide Bd16Step;
    hide Pending;
    hide OpenBrackets;
    hide Opening;
    SearchStep(runs, k);
    PendingNext(runs, k, o);
    var before := if Continues(runs, k) then SearchAt(runs, Prev(runs, k)) else Search([], false, -1);
    StepMembers(runs, before, k, o);
    if Continues(runs, k) {
      StackWaits(runs, Prev(runs, k), o);
    }
  }

  lemma {:induction false} RisingSize(s: seq<nat>) returns (m: set<nat>)
    requires forall i, j | 0 <= i < j < |s| :: s[i] < s[j]
    ensures |m| == |s| && forall x :: x in m <==> x in s
  {
    if s == [] {
      m := {};
    } else {
      var n := |s| - 1;
      m := RisingSize(s[..n]);
      assert s == s[..n] + [s[n]];
      m := m + {s[n]};
    }
  }

  lemma PendingBounds(runs: seq<Run>, k: nat, o: nat)
    requires k < |runs|
    ensures Pending(runs, k, o) ==> o <= k && Reaches(runs, k, o) && Opening(runs[o])
  {
  }

  lemma WaitingSize(runs: seq<Run>, k: nat)
    requires k < |runs| && !SearchAt(runs, k).stopped
    ensures |Waiting(runs, k)| == |SearchAt(runs, k).stack|
  {
    hide SearchAt;
    hide Pending;
    SearchStack(runs, k);
    var m := RisingSize(SearchAt(runs, k).stack);
    forall x: nat ensures x in m <==> x in Waiting(runs, k) {
      StackWaits(runs, k, x);
      PendingBounds(runs, k, x);
    }
    assert m == Waiting(runs, k);
  }

  lemma OverflowsNext(runs: seq<Run>, k: nat)
    requires k < |runs|
    ensures Overflows(runs, k) <==> TooMany(runs, k) || (Continues(runs, k) && Overflows(runs, Prev(runs, k)))
  {
    hide TooMany;
    hide PrevFrom;
    assert Reaches(runs, k, k);
    if Continues(runs, k) && Overflows(runs, Prev(runs, k)) {
      var m: nat :| m <= Prev(runs, k) && Reaches(runs, Prev(runs, k), m) && TooMany(runs, m);
      assert Reaches(runs, k, m);
    }
    if Overflows(runs, k) && !TooMany(runs, k) {
      var m: nat :| m <= k && Reaches(runs, k, m) && TooMany(runs, m);
      ReachesBack(runs, Prev(runs, k), m);
    }
  }

  /** The search gives a sequence up exactly where an opening bracket finds no
      room. */
  lemma {:induction false} StoppedAt(runs: seq<Run>, k: nat)
    requires k < |runs|
    ensures SearchAt(runs, k).stopped <==> Overflows(runs, k)
    decreases k
  {
    hide SearchAt;
    hide PrevFrom;
    hide Waiting;
    hide Match;
    SearchStep(runs, k);
    OverflowsNext(runs, k);
    if Continues(runs, k) {
      StoppedAt(runs, Prev(runs, k));
      if !SearchAt(runs, Prev(runs, k)).stopped {
        WaitingSize(runs, Prev(runs, k));
      }
    }
  }

  // ----- Pairs -----

  /** The search tries the stack from the top. */
  lemma {:induction false} MatchLast(runs: seq<Run>, stack: seq<nat>, id: nat)
    requires forall i | 0 <= i < |stack| :: stack[i] < |runs| && runs[stack[i]].bracket != NoBracket
    ensures var m := Match(runs, stack, id);
            forall i | m < i < |stack| :: runs[stack[i]].bracket.id != id
  {
    if stack != [] {
      MatchLast(runs, stack[..|stack| - 1], id);
    }
  }

  /** Run `o` waits for a closing bracket like run `c`, which comes next. */
  ghost predicate Fits(runs: seq<Run>, o: nat, c: nat)
    requires c < |runs| && Continues(runs, c) && runs[c].bracket != NoBracket
  {
    Pending(runs, Prev(runs, c), o) && runs[o].bracket.id == runs[c].bracket.id
  }

  /** The match is the latest bracket of the kind on the stack. */
  lemma LatestOnStack(runs: seq<Run>, stack: seq<nat>, c: nat)
    requires c < |runs| && OpenBrackets(runs, stack, c) && runs[c].bracket != NoBracket
    ensures var m := Match(runs, stack, runs[c].bracket.id);
            if m >= 0 then
              && stack[m] < |runs| && runs[stack[m]].bracket.id == runs[c].bracket.id
              && forall x: nat | x in stack && runs[x].bracket.id == runs[c].bracket.id :: x <= stack[m]
            else forall x: nat | x in stack :: runs[x].bracket.id != runs[c].bracket.id
  {
    hide Match;
    MatchLast(runs, stack, runs[c].bracket.id);
  }

  /** BD16: a closing bracket makes a pair with the latest opening bracket of its
      kind that waits for one in the same isolating run sequence, unless the
      sequence has been given up before; nothing else makes a pair. */
  lemma PairedIs(runs: seq<Run>, o: nat, c: nat)
    requires c < |runs|
    ensures Paired(runs, o, c) <==>
              && Closing(runs[c]) && Continues(runs, c) && !Overflows(runs, Prev(runs, c))
              && Fits(runs, o, c) && forall x: nat | Fits(runs, x, c) :: x <= o
  {
    hide SearchAt;
    hide PrevFrom;
    hide Pending;
    hide Overflows;
    hide Match;
    SearchStep(runs, c);
    SearchStack(runs, c);
    if Closing(runs[c]) && Continues(runs, c) {
      var p := Prev(runs, c);
      var st := SearchAt(runs, p);
      StoppedAt(runs, p);
      if !st.stopped {
        forall x: nat ensures Fits(runs, x, c) <==> x in st.stack && runs[x].bracket.id == runs[c].bracket.id {
          StackWaits(runs, p, x);
        }
        MatchLast(runs, st.stack, runs[c].bracket.id);
        LatestOnStack(runs, st.stack, c);
      }
    }
  }

  lemma {:induction false} ReachesThrough(runs: seq<Run>, k: nat, m: nat, o: nat)
    requires k < |runs| && m < |runs| && Reaches(runs, k, m) && Reaches(runs, m, o)
    ensures Reaches(runs, k, o)
    decreases k
  {
    if k != m {
      ReachesThrough(runs, Prev(runs, k), m, o);
    }
  }

  lemma {:induction false} Subset(a: set<nat>, b: set<nat>)
    requires a <= b
    ensures |a| <= |b|
  {
    if a != {} {
      var x :| x in a;
      Subset(a - {x}, b - {x});
    }
  }

  /** With at most 63 opening brackets in a sequence nothing overflows. */
  lemma FewBrackets(runs: seq<Run>, k: nat)
    requires k < |runs| && |Openings(runs, k)| <= MAX_NESTED_BRACKET_PAIRS
    ensures !Overflows(runs, k)
  {
    hide PrevFrom;
    hide Taken;
    hide Pending;
    if Overflows(runs, k) {
      var m: nat :| m <= k && Reaches(runs, k, m) && TooMany(runs, m);
      var all := Openings(runs, k);
      var p := Prev(runs, m);
      var w := Waiting(runs, p);
      forall o | o in w ensures o in all && o != m {
        PendingBounds(runs, p, o);
        ReachesThrough(runs, k, m, o);
      }
      assert m !in w && m in all;
      Subset(w + {m}, all);
    }
  }

  // ----- The list of pairs is complete -----

  /** Every pair of the paragraph is on the list, with its flags, and nothing
      else is. */
  lemma {:induction false} PairsListed(runs: seq<Run>, k: nat, o: nat, c: nat)
    requires k <= |runs| && c < k && Paired(runs, o, c)
    ensures o < c && PairingAt(runs, o, c) in PairsBefore(runs, k)
    decreases k
  {
    hide SearchAt;
    PairReaches(runs, o, c);
    if c < k - 1 {
      PairsListed(runs, k - 1, o, c);
    }
  }
}
