/** Matching isolates: BD9 of UAX #9 against the counters of rules X5a to X6a. */
module IsolateMatching {
  import opened BidiTypes
  import opened ExplicitRules

  ghost function Nesting(t: BidiType): int {
    if t.IsInitiator() then 1 else if t.PDI? then -1 else 0
  }

  /** Isolate initiators minus PDIs among types[a..b]. */
  ghost function Balance(types: seq<BidiType>, a: nat, b: nat): int
    requires a <= b <= |types|
    decreases b
  {
    if a == b then 0
    else Balance(types, a, b - 1) + Nesting(types[b - 1])
  }

  ghost predicate NeverNegative(types: seq<BidiType>, a: nat, b: nat)
    requires b <= |types|
  {
    forall k | a <= k <= b :: Balance(types, a, k) >= 0
  }

  /** BD9: `j` is the first PDI after the initiator `i` at which every isolate
      opened in between is closed. */
  ghost predicate Matches(types: seq<BidiType>, i: nat, j: nat) {
    && i < j < |types| && types[i].IsInitiator() && types[j].PDI?
    && Balance(types, i + 1, j) == 0
    && NeverNegative(types, i + 1, j)
  }

  /** Isolate entries at index `n` and above. */
  ghost function IsolatesFrom(stack: seq<Entry>, n: nat): nat {
    if |stack| <= n then 0
    else IsolatesFrom(stack[..|stack| - 1], n) + if stack[|stack| - 1].isolate then 1 else 0
  }

  /** Dropping embeddings stops at the topmost isolate entry. */
  lemma {:induction false} DropStops(stack: seq<Entry>, n: nat)
    requires 0 < n < |stack| && stack[n].isolate
    ensures IsolatesFrom(stack, n + 1) == 0 ==> DropEmbeddings(stack) == stack[..n + 1]
    ensures IsolatesFrom(stack, n + 1) > 0 ==>
              var kept := DropEmbeddings(stack);
              && |kept| > n + 1 && kept[|kept| - 1].isolate
              && IsolatesFrom(kept[..|kept| - 1], n + 1) == IsolatesFrom(stack, n + 1) - 1
  {
    if |stack| > n + 1 && !stack[|stack| - 1].isolate {
      var s := stack[..|stack| - 1];
      DropStops(s, n);
      assert s[..n + 1] == stack[..n + 1];
    }
  }

  /** The state while the isolate opened in state `s0` is still open, with
      `nested` more isolates open inside it: either it overflowed, and nothing
      but isolates has counted since, or it has an entry of its own. */
  ghost predicate Inside(s0: XState, s: XState, nested: int) {
    && s.stack != [] && s0.stack != [] && nested >= 0
    && (|| s == s0.(overflowIsolates := s0.overflowIsolates + 1 + nested)
        || (s0.overflowIsolates == 0 && s0.overflowEmbeddings == 0
            && |s.stack| > |s0.stack| && s.stack[..|s0.stack|] == s0.stack && s.stack[|s0.stack|].isolate
            && IsolatesFrom(s.stack, |s0.stack| + 1) + s.overflowIsolates == nested
            && s.validIsolates == s0.validIsolates + 1 + IsolatesFrom(s.stack, |s0.stack| + 1)))
  }

  lemma InsideStart(s0: XState, t: BidiType, rtl: bool)
    requires s0.stack != [] && t.IsInitiator()
    ensures Inside(s0, Step(s0, t, rtl), 0)
  {
    var s := Step(s0, t, rtl);
    if |s.stack| > |s0.stack| {
      assert s.stack[..|s0.stack|] == s0.stack;
    }
  }

  lemma InsidePdi(s0: XState, s: XState, nested: int)
    requires Inside(s0, s, nested) && nested > 0
    ensures Inside(s0, EndIsolate(s), nested - 1)
  {
    if s.overflowIsolates == 0 {
      hide DropEmbeddings;
      var n := |s0.stack|;
      DropStops(s.stack, n);
      var kept := DropEmbeddings(s.stack);
      assert kept[..|kept| - 1][..n] == s.stack[..n];
    }
  }

  lemma InsidePush(s0: XState, s: XState, nested: int, e: Entry)
    requires Inside(s0, s, nested) && |s.stack| > |s0.stack|
    ensures (s.stack + [e])[..|s0.stack|] == s0.stack && (s.stack + [e])[|s0.stack|].isolate
    ensures IsolatesFrom(s.stack + [e], |s0.stack| + 1) == IsolatesFrom(s.stack, |s0.stack| + 1) + if e.isolate then 1
            else 0
  {
    assert (s.stack + [e])[..|s.stack|] == s.stack;
  }

  lemma InsidePop(s0: XState, s: XState, nested: int)
    requires Inside(s0, s, nested) && |s.stack| > |s0.stack| && !s.stack[|s.stack| - 1].isolate
    ensures Inside(s0, s.(stack := s.stack[..|s.stack| - 1]), nested)
  {
    assert s.stack[..|s.stack| - 1][..|s0.stack|] == s0.stack;
  }

  lemma InsideStep(s0: XState, s: XState, nested: int, t: BidiType, rtl: bool)
    requires Inside(s0, s, nested) && nested + Nesting(t) >= 0
    ensures Inside(s0, Step(s, t, rtl), nested + Nesting(t))
  {
    hide NextLevel;
    hide EndIsolate;
    hide IsolatesFrom;
    var r := Step(s, t, rtl);
    if t.PDI? {
      InsidePdi(s0, s, nested);
    } else if |r.stack| > |s.stack| {
      InsidePush(s0, s, nested, r.stack[|s.stack|]);
    } else if |r.stack| < |s.stack| {
      InsidePop(s0, s, nested);
    }
  }

  lemma {:induction false} InsideAll(types: seq<BidiType>, base: nat, i: nat, k: nat)
    requires i < k <= |types| && types[i].IsInitiator()
    requires NeverNegative(types, i + 1, k)
    ensures Inside(Before(types, base, i), Before(types, base, k), Balance(types, i + 1, k))
    decreases k
  {
    hide Inside;
    hide Step;
    hide FsiLevel;
    hide Nesting;
    if k == i + 1 {
      InsideStart(Before(types, base, i), types[i], FsiLevel(types, i) == 1);
    } else {
      InsideAll(types, base, i, k - 1);
      assert Balance(types, i + 1, k) >= 0;
      InsideStep(Before(types, base, i), Before(types, base, k - 1), Balance(types, i + 1, k - 1),
                 types[k - 1], FsiLevel(types, k - 1) == 1);
    }
  }

  lemma InsideEnd(s0: XState, s: XState)
    requires Inside(s0, s, 0)
    ensures EndIsolate(s) == s0 && (s.overflowIsolates > 0 || s.validIsolates > 0)
  {
    if |s.stack| > |s0.stack| {
      DropStops(s.stack, |s0.stack|);
      assert s.stack[..|s0.stack| + 1][..|s0.stack|] == s0.stack;
    }
  }

  /** After the PDI that matches an initiator, everything is as it was before that
      initiator, whether it opened a valid isolate or overflowed. */
  lemma IsolateRestores(types: seq<BidiType>, base: nat, i: nat, j: nat)
    requires Matches(types, i, j)
    ensures Before(types, base, j + 1) == Before(types, base, i)
  {
    hide Inside;
    hide NeverNegative;
    InsideAll(types, base, i, j);
    InsideEnd(Before(types, base, i), Before(types, base, j));
  }

  /** A PDI gets the level of the isolate initiator it matches, whether that
      initiator opened a valid isolate or overflowed, and stays a PDI. */
  lemma MatchingPdiLevel(types: seq<BidiType>, base: nat, i: nat, j: nat)
    requires Matches(types, i, j)
    ensures Result(types, base, i).Kept? && Result(types, base, j).Kept?
    ensures Result(types, base, j).level == Result(types, base, i).level
    ensures Result(types, base, j).kind == PDI
  {
    hide Inside;
    hide NeverNegative;
    IsolateRestores(types, base, i, j);
    InsideAll(types, base, i, j);
    InsideEnd(Before(types, base, i), Before(types, base, j));
  }
}
