/** Rules I1 and I2 of UAX #9. */
module ImplicitLevels {
  import opened BidiTypes
  import opened Runs

  /** I1 and I2: on an even level R goes up one and numbers two; on an odd level
      all but R go up one. */
  function Implicit(level: nat, t: BidiType): (r: nat)
    ensures level <= r <= level + 2
    ensures t.LTR? || t.RTL? || t.IsNumber() ==> (LevelIsRtl(r) <==> t.RTL?)
    ensures t.LTR? || t.RTL? ==> r <= level + 1
    ensures t.IsNumber() ==> r > level
    ensures level <= MAX_EXPLICIT_LEVEL ==> r <= MAX_EXPLICIT_LEVEL + 1
  {
    if LevelIsRtl(level) then (if t.LTR? || t.IsNumber() then level + 1 else level)
    else if t.RTL? then level + 1
    else if t.IsNumber() then level + 2
    else level
  }

  ghost predicate Resolvable(runs: seq<Run>) {
    forall k | 0 <= k < |runs| :: 0 <= runs[k].level <= MAX_EXPLICIT_LEVEL
        && (runs[k].kind.LTR? || runs[k].kind.RTL? || runs[k].kind.IsNumber())
  }

  /** The loop of I1 and I2, and the highest level it meets. */
  method ResolveImplicit(runs0: seq<Run>, baseLevel: nat) returns (runs: seq<Run>, maxLevel: nat)
    requires Resolvable(runs0)
    ensures |runs| == |runs0| && forall k | 0 <= k < |runs0| ::
              runs[k] == runs0[k].(level := Implicit(runs0[k].level, runs0[k].kind))
    ensures maxLevel >= baseLevel && forall k | 0 <= k < |runs| :: runs[k].level <= maxLevel
    ensures maxLevel == baseLevel || exists k :: 0 <= k < |runs| && runs[k].level == maxLevel
    ensures maxLevel <= Max(baseLevel, MAX_EXPLICIT_LEVEL + 1)
  {
    runs, maxLevel := runs0, baseLevel;
    for k := 0 to |runs|
      invariant |runs| == |runs0| && forall i | k <= i < |runs| :: runs[i] == runs0[i]
      invariant forall i | 0 <= i < k :: runs[i] == runs0[i].(level := Implicit(runs0[i].level, runs0[i].kind))
      invariant maxLevel >= baseLevel && forall i | 0 <= i < k :: runs[i].level <= maxLevel
      invariant maxLevel == baseLevel || exists i :: 0 <= i < k && runs[i].level == maxLevel
      invariant maxLevel <= Max(baseLevel, MAX_EXPLICIT_LEVEL + 1)
    {
      var t, level := runs[k].kind, runs[k].level;
      var next := if t.IsNumber() then (level + 2) / 2 * 2
                  else level + if LevelIsRtl(level) != (DirToLevel(t) == 1) then 1 else 0;
      assert next == Implicit(level, t);
      runs := runs[k := runs[k].(level := next)];
      if next > maxLevel {
        maxLevel := next;
      }
    }
  }
}
