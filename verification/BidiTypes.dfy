/** Bidirectional character types and the queries the library asks about them
    (lib/fribidi-bidi-types.h).  The bit masks of the C enum become one
    constructor per type; a query is true for exactly the types whose mask has
    the queried bit. */
module BidiTypes {
  datatype BidiType =
    | LTR | RTL | AL
    | LRE | RLE | LRO | RLO | PDF
    | EN | AN | ES | ET | CS | NSM | BN
    | BS | SS | WS | ON
    | LRI | RLI | FSI | PDI
  {
    predicate IsStrong() { LTR? || RTL? || AL? || LRE? || RLE? || LRO? || RLO? }
    predicate IsLetter() { LTR? || RTL? || AL? }
    predicate IsNumber() { EN? || AN? }
    predicate IsSeparatorOrTerminator() { ES? || ET? || CS? }
    predicate IsNeutral() { BS? || SS? || WS? || ON? || LRI? || RLI? || FSI? || PDI? }
    predicate IsExplicit() { LRE? || RLE? || LRO? || RLO? || PDF? }
    predicate IsExplicitOrBn() { IsExplicit() || BN? }
    /** LRI, RLI, FSI and PDI alike: one mask bit covers all four. */
    predicate IsIsolate() { LRI? || RLI? || FSI? || PDI? }
    predicate IsInitiator() { LRI? || RLI? || FSI? }
    predicate IsSeparator() { BS? || SS? }
    predicate IsOverride() { LRO? || RLO? }
    predicate IsRtl() { RTL? || AL? || RLE? || RLO? || RLI? }
    /** What L1 may reset: codes removed by X9, separators, white space, isolates. */
    predicate IsL1Resettable() { IsExplicitOrBn() || IsSeparator() || WS? || IsIsolate() }
  }

  const MAX_EXPLICIT_LEVEL := 125

  const MAX_NESTED_BRACKET_PAIRS := 63

  predicate LevelIsRtl(level: int) { level % 2 == 1 }

  function LevelToDir(level: int): BidiType {
    if LevelIsRtl(level) then RTL else LTR
  }

  function DirToLevel(t: BidiType): nat {
    if t.IsRtl() then 1 else 0
  }

  function Max(a: int, b: int): int {
    if a > b then a else b
  }

  function NumberToRtl(t: BidiType): BidiType {
    if t.IsNumber() then RTL else t
  }
}
