/** When the explicit phase is over, the kept runs are aligned with the text
    and the list of removed codes. */
module ExplicitAlignment {
  import opened BidiTypes
  import opened Runs
  import opened Alignment
  import opened Compaction
  import opened Shadow
  import opened ExplicitRules
  import opened ExplicitLevels
  import opened ExplicitPhase

  /** Where run `n` starts, or the text ends. */
  ghost function StartOf(runs: seq<Run>, n: nat, end: nat): nat
    requires n <= |runs|
  {
    if n < |runs| then runs[n].pos else end
  }

  lemma StartNext(runs: seq<Run>, n: nat, end: nat)
    requires Tiled(runs, end) && n < |runs|
    ensures StartOf(runs, n + 1, end) == runs[n].pos + runs[n].len && runs[n].len > 0
  {
  }

  lemma TextStart(runs: seq<Run>, end: nat)
    requires Tiled(runs, end)
    ensures StartOf(runs, 0, end) == 0
  {
  }

  lemma NothingPassed()
    ensures Survivors([]) == [] && Codes([]) == [] && Passed([], 0)
  {
  }

  lemma OffAppend(a: seq<Run>, r: Run)
    ensures Off(a + [r], |a|) == Off(a, |a|) && Off(a + [r], |a| + 1) == Off(a, |a|) + r.len
  {
    OffSame(a, a + [r], |a|);
  }

  lemma PassedAppend(a: seq<Run>, r: Run, j: nat)
    requires Passed(a, j) && r.pos <= j + Off(a, |a|)
    ensures Passed(a + [r], j)
  {
    hide Off;
    forall i | 0 <= i <= |a| ensures (a + [r])[i].pos <= j + Off(a + [r], i) {
      OffSame(a, a + [r], i);
    }
  }

  lemma PassedLater(a: seq<Run>, j: nat, d: nat)
    requires Passed(a, j)
    ensures Passed(a, j + d)
  {
    hide Off;
  }

  /** Kept and removed characters together fill the text. */
  lemma {:induction false} KeptAndRemoved(runs: seq<Run>, n: nat, end: nat)
    requires Tiled(runs, end) && n <= |runs|
    ensures var kept, codes := Survivors(runs[..n]), Codes(runs[..n]);
            && Off(kept, |kept|) + Off(codes, |codes|) == StartOf(runs, n, end)
            && Passed(codes, Off(kept, |kept|))
  {
    hide Passed;
    hide Survivors;
    hide Codes;
    hide Off;
    hide Tiled;
    if n == 0 {
      assert runs[..0] == [];
      NothingPassed();
      OffStart([]);
      TextStart(runs, end);
    } else {
      StartNext(runs, n - 1, end);
      KeptAndRemoved(runs, n - 1, end);
      SurvivorsNext(runs, n - 1);
      var kept, codes, r := Survivors(runs[..n - 1]), Codes(runs[..n - 1]), runs[n - 1];
      assert kept + [] == kept && codes + [] == codes;
      if r.kind.IsExplicitOrBn() {
        OffAppend(codes, r);
        PassedAppend(codes, r, Off(kept, |kept|));
      } else {
        OffAppend(kept, r);
        PassedLater(codes, Off(kept, |kept|), r.len);
      }
    }
  }

  /** The codes `rest` all stand at or after `p`. */
  ghost predicate Ahead(rest: seq<Run>, p: nat) {
    forall i | 0 <= i < |rest| :: rest[i].pos >= p
  }

  lemma KeptPosHere(rest: seq<Run>, p: nat)
    requires Ahead(rest, p + 1)
    ensures KeptPos(rest, p) == p
  {
  }

  /** Character number `d` of kept run `i` stands `d` positions after the run's
      first character. */
  lemma {:induction false} KeptAligned(runs: seq<Run>, n: nat, end: nat, rest: seq<Run>, i: nat, d: nat)
    requires Tiled(runs, end) && n <= |runs| && Ahead(rest, StartOf(runs, n, end))
    requires i < |Survivors(runs[..n])| && (d == 0 || d < Survivors(runs[..n])[i].len)
    ensures var kept := Survivors(runs[..n]);
            kept[i].len > 0 && KeptPos(Codes(runs[..n]) + rest, Off(kept, i) + d) == kept[i].pos + d
    decreases n
  {
    hide Survivors;
    hide Codes;
    hide KeptPos;
    hide Passed;
    hide Off;
    hide Tiled;
    if n == 0 {
      assert runs[..0] == [];
      NothingPassed();
    } else {
      SurvivorsNext(runs, n - 1);
      StartNext(runs, n - 1, end);
      KeptAndRemoved(runs, n - 1, end);
      var kept, codes, r := Survivors(runs[..n - 1]), Codes(runs[..n - 1]), runs[n - 1];
      assert kept + [] == kept && codes + [] == codes;
      if r.kind.IsExplicitOrBn() {
        assert codes + [r] + rest == codes + ([r] + rest);
        KeptAligned(runs, n - 1, end, [r] + rest, i, d);
      } else {
        OffSame(kept, kept + [r], i);
        if i < |kept| {
          KeptAligned(runs, n - 1, end, rest, i, d);
        } else {
          PassedLater(codes, Off(kept, |kept|), d);
          KeptPosPassed(codes, rest, Off(kept, |kept|) + d);
          KeptPosHere(rest, r.pos + d);
        }
      }
    }
  }

  lemma {:induction false} ShelvedSame(codes: seq<Run>, shelved: seq<Run>, j: nat)
    requires AllShelved(codes, shelved)
    ensures KeptPos(shelved, j) == KeptPos(codes, j)
    decreases |codes|
  {
    if codes != [] {
      assert Shelved(codes[0], shelved[0]);
      assert AllShelved(codes[1..], shelved[1..]) by {
        forall k | 0 <= k < |codes[1..]| ensures Shelved(codes[1..][k], shelved[1..][k]) {
          assert Shelved(codes[k + 1], shelved[k + 1]);
        }
      }
      if j >= codes[0].pos {
        ShelvedSame(codes[1..], shelved[1..], j + codes[0].len);
      }
    }
  }

  lemma OffPlaced(kept: seq<Run>, list: seq<Run>, types: seq<BidiType>, base: nat)
    requires AllPlaced(kept, list, types, base)
    ensures Off(list, |list|) == Off(kept, |kept|)
    ensures forall i | 0 <= i < |kept| :: kept[i].len == list[i].len
  {
    forall i | 0 <= i < |kept| ensures kept[i].len == list[i].len {
      assert Placed(kept[i], list[i], types, base);
    }
    OffSame(kept, list, |kept|);
  }

  lemma OffShelved(codes: seq<Run>, shelved: seq<Run>)
    requires AllShelved(codes, shelved)
    ensures Off(shelved, |shelved|) == Off(codes, |codes|)
  {
    forall i | 0 <= i < |codes| ensures codes[i].len == shelved[i].len {
      assert Shelved(codes[i], shelved[i]);
    }
    OffSame(codes, shelved, |codes|);
  }

  /** The kept runs hold every character that is not removed, in place. */
  lemma AlignedAfterX(runs: seq<Run>, types: seq<BidiType>, base: nat, list: seq<Run>, codes: seq<Run>)
    requires Tiled(runs, |types|) && AllPlaced(Survivors(runs), list, types, base) && AllShelved(Codes(runs), codes)
    ensures Off(codes, |codes|) <= |types| && Aligned(list, codes, |types| - Off(codes, |codes|))
  {
    hide Survivors;
    hide Codes;
    hide KeptPos;
    hide Passed;
    var kept, n := Survivors(runs), |runs|;
    assert runs[..n] == runs;
    KeptAndRemoved(runs, n, |types|);
    OffPlaced(kept, list, types, base);
    OffShelved(Codes(runs), codes);
    forall i | 0 <= i < |list| ensures RunAligned(list, codes, i) {
      assert Codes(runs) + [] == Codes(runs);
      KeptAligned(runs, n, |types|, [], i, 0);
      assert Placed(kept[i], list[i], types, base);
      OffSame(kept, list, i);
      ShelvedSame(Codes(runs), codes, Off(kept, i));
    }
  }

  // ----- Single characters -----

  /** Kept character number `j` has the level, type and isolate level that the
      standard's rules X1 to X8 give to the character at its position. */
  lemma KeptCharacter(runs: seq<Run>, types: seq<BidiType>, base: nat, list: seq<Run>, codes: seq<Run>, j: nat)
    requires Tiled(runs, |types|) && AllPlaced(Survivors(runs), list, types, base) && AllShelved(Codes(runs), codes)
    requires Shallow(types, base) && j < Off(list, |list|)
    ensures j < |Spots(list, Sharp)|
    ensures var x, s := KeptPos(codes, j), Spots(list, Sharp)[j];
            x < |types| && s.level >= 0 && Result(types, base, x) == Kept(s.level, s.kind, s.isolateLevel)
  {
    hide Survivors;
    hide Codes;
    hide KeptPos;
    hide Off;
    hide Spots;
    hide Before;
    hide Shallow;
    var kept := Survivors(runs);
    assert runs[..|runs|] == runs && Codes(runs) + [] == Codes(runs);
    var i := RunOf(list, |list|, j);
    var d := j - Off(list, i);
    assert Placed(kept[i], list[i], types, base);
    OffPlaced(kept, list, types, base);
    OffSame(kept, list, i);
    KeptAligned(runs, |runs|, |types|, [], i, d);
    ShelvedSame(Codes(runs), codes, j);
    SpotAt(list, i, d, Sharp);
    assert KeptPos(codes, j) == kept[i].pos + d;
    assert Result(types, base, kept[i].pos + d).Kept?;
  }
}
