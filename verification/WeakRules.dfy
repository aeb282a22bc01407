/** Rules W1 to W7 of UAX #9 (section 3.3.4) as seven passes over the characters
    on one isolate level of an isolate, each pass reading the types the one before
    it left.  `ks` are the types and `ls` the explicit levels after X9. */
module WeakRules {
  import opened BidiTypes

  /** Character `i` starts a level run. */
  predicate Starts(ls: seq<int>, i: nat)
    requires i < |ls|
  {
    i == 0 || ls[i - 1] != ls[i]
  }

  /** X10: the type before a level run, from the higher of the levels on both
      sides of its start. */
  function Sos(ls: seq<int>, base: nat, i: nat): BidiType
    requires i < |ls|
  {
    LevelToDir(Max(if i == 0 then base else ls[i - 1], ls[i]))
  }

  /** The strong type that governs position `i`: searching backward in the
      level run for the first R, L, AL or the start of the run. */
  function Strong(ks: seq<BidiType>, ls: seq<int>, base: nat, i: nat): BidiType
    requires i < |ls| == |ks|
  {
    if Starts(ls, i) then Sos(ls, base, i)
    else if ks[i - 1].IsStrong() then ks[i - 1]
    else Strong(ks, ls, base, i - 1)
  }

  function W1At(ks: seq<BidiType>, ls: seq<int>, base: nat, i: nat): BidiType
    requires i < |ls| == |ks|
  {
    if !ks[i].NSM? then ks[i]
    else if Starts(ls, i) then Sos(ls, base, i)
    else W1At(ks, ls, base, i - 1)
  }

  function W1(ks: seq<BidiType>, ls: seq<int>, base: nat): (r: seq<BidiType>)
    requires |ls| == |ks|
    ensures |r| == |ks|
  {
    seq(|ks|, i requires 0 <= i < |ks| => W1At(ks, ls, base, i))
  }

  function W2At(ks: seq<BidiType>, ls: seq<int>, base: nat, i: nat): BidiType
    requires i < |ls| == |ks|
  {
    if ks[i].EN? && Strong(ks, ls, base, i).AL? then AN else ks[i]
  }

  function W2(ks: seq<BidiType>, ls: seq<int>, base: nat): (r: seq<BidiType>)
    requires |ls| == |ks|
    ensures |r| == |ks|
  {
    seq(|ks|, i requires 0 <= i < |ks| => W2At(ks, ls, base, i))
  }

  function W3Kind(k: BidiType): BidiType { if k.AL? then RTL else k }

  function W3(ks: seq<BidiType>): (r: seq<BidiType>)
    ensures |r| == |ks|
  {
    seq(|ks|, i requires 0 <= i < |ks| => W3Kind(ks[i]))
  }

  /** The next character belongs to the same level run. */
  predicate FollowsOn(ls: seq<int>, i: nat)
    requires i < |ls|
  {
    i + 1 < |ls| && ls[i + 1] == ls[i]
  }

  /** W4 runs left to right, so the character before has had its turn. */
  function W4At(ks: seq<BidiType>, ls: seq<int>, i: nat): BidiType
    requires i < |ls| == |ks|
  {
    if (ks[i].ES? || ks[i].CS?) && !Starts(ls, i) && FollowsOn(ls, i) then
      var prev, next := W4At(ks, ls, i - 1), ks[i + 1];
      if prev.EN? && next.EN? then EN
      else if ks[i].CS? && prev.AN? && next.AN? then AN
      else ks[i]
    else ks[i]
  }

  function W4(ks: seq<BidiType>, ls: seq<int>): (r: seq<BidiType>)
    requires |ls| == |ks|
    ensures |r| == |ks|
  {
    seq(|ks|, i requires 0 <= i < |ks| => W4At(ks, ls, i))
  }

  /** A sequence of ETs that ends just before `i` follows an EN. */
  predicate EnBefore(ks: seq<BidiType>, ls: seq<int>, i: nat)
    requires i < |ls| == |ks|
  {
    !Starts(ls, i) && (ks[i - 1].EN? || (ks[i - 1].ET? && EnBefore(ks, ls, i - 1)))
  }

  predicate EnAfter(ks: seq<BidiType>, ls: seq<int>, i: nat)
    requires i < |ls| == |ks|
    decreases |ks| - i
  {
    FollowsOn(ls, i) && (ks[i + 1].EN? || (ks[i + 1].ET? && EnAfter(ks, ls, i + 1)))
  }

  function W5At(ks: seq<BidiType>, ls: seq<int>, i: nat): BidiType
    requires i < |ls| == |ks|
  {
    if ks[i].ET? && (EnBefore(ks, ls, i) || EnAfter(ks, ls, i)) then EN else ks[i]
  }

  function W5(ks: seq<BidiType>, ls: seq<int>): (r: seq<BidiType>)
    requires |ls| == |ks|
    ensures |r| == |ks|
  {
    seq(|ks|, i requires 0 <= i < |ks| => W5At(ks, ls, i))
  }

  function W6Kind(k: BidiType): BidiType { if k.IsSeparatorOrTerminator() then ON else k }

  function W6(ks: seq<BidiType>): (r: seq<BidiType>)
    ensures |r| == |ks|
  {
    seq(|ks|, i requires 0 <= i < |ks| => W6Kind(ks[i]))
  }

  function W7At(ks: seq<BidiType>, ls: seq<int>, base: nat, i: nat): BidiType
    requires i < |ls| == |ks|
  {
    if ks[i].EN? && Strong(ks, ls, base, i).LTR? then LTR else ks[i]
  }

  function W7(ks: seq<BidiType>, ls: seq<int>, base: nat): (r: seq<BidiType>)
    requires |ls| == |ks|
    ensures |r| == |ks|
  {
    seq(|ks|, i requires 0 <= i < |ks| => W7At(ks, ls, base, i))
  }

  function W1ToW2(ks: seq<BidiType>, ls: seq<int>, base: nat): (r: seq<BidiType>)
    requires |ls| == |ks|
    ensures |r| == |ks|
  {
    W2(W1(ks, ls, base), ls, base)
  }

  function W3ToW7(ks: seq<BidiType>, ls: seq<int>, base: nat): (r: seq<BidiType>)
    requires |ls| == |ks|
    ensures |r| == |ks|
  {
    W7(W6(W5(W4(W3(ks), ls), ls)), ls, base)
  }
}
