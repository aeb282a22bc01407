# FriBidi: the bidirectional algorithm, modelled and proved

FriBidi implements the Unicode Bidirectional Algorithm (UAX #9). This project
models its algorithmic core and proves that the fast and fused forms the library
uses compute what the simple rules of the standard say.

A paragraph goes through these modules, in the order of the library's phases:

- `Runs` encodes it as a list of runs; `ExplicitRules` is UAX #9 section 3.3.2 as
  the standard words it, and `ExplicitState`, `ExplicitLevels`, `ExplicitPhase`
  refine it by the registers, the fixed-size stack and the loop over runs;
  `IsolateMatching`, `CodeMatching` and `ParagraphDirection` relate it, and rules P2
  and P3, to matching isolates (BD9) and matching embedding codes.
- `Chains` says what the isolate links mean; `IsolateLinks` builds the stored links,
  patches them at every merge and follows them; `NextRunCache` is the cached forward
  search. `Nesting` and `ExplicitShape` say how runs nest in isolates and that the
  explicit phase leaves them so; `Alignment` and `ExplicitAlignment` say where the
  runs stand while removed codes are kept apart; `Compaction` merges runs.
- `WeakRules` is W1 to W7 as seven passes, told by positions in `WeakMeaning`;
  `WeakPass1`, `WeakPass2`, `WeakProof1`, `WeakProof2`, `WeakShape`, `WeakEffects` are
  the two fused loops. `WeakStretches` and `WeakChains` prove that the loops treat the
  runs on one isolate level of an isolate as if they stood alone, `WeakCharacters` and
  `WeakTexts` what that means for a text; `PlainTexts` is about texts without isolates.
- `BracketPairs`, `BracketStructure`, `BracketRules`, `BracketPhase` are BD16 and N0,
  and `BracketMatching` says which brackets pair; `Neutrals` is N1 and N2;
  `SequenceRules` tells N0, N1 and N2 by what stands nearest in the isolating run
  sequence; `ImplicitLevels` is I1 and I2; `Resolution` runs the phases from X10 to N2
  one after the other.
- `Shadow` and `Overlay` lay one run list over another; `FinalLevels` reinserts
  removed codes and applies L1.
- `KeptRuns`, `TextLevels` and `ParagraphLevels` put everything together.
  `TextLevels.ParLevels` gives the levels of a paragraph from its characters, without
  a run list: the kept characters by rules X1 to X9, their directions from the phases
  on one run per character, I1 and I2, the codes, L1. The method for the whole call
  returns it. `Similarity` and `BnDeletion` prove from it that a BN character is
  invisible to the rest of the text.
- `LineOrder` is rule L2 as the standard words it; `LinearReorder` and `ReorderLine`
  are the one-pass reordering of a line, with L1 part 4 and L3; `VisualRules` and
  `VisualPairs` say which of two characters of a line ends up on the left.
- `Log2Vis` and `BidiMarks` are the position maps; `ArabicJoining`, `Utf8` stand on
  their own.

Run lists are sequences of records that the loops reassign; the tables, stacks and
text buffers the loops write to are arrays. Loops that walk and change a run list
keep its order of steps and carry the isolate links along, as indices into the list.
Each loop is proved to compute a recursive function of the list (`CompactFrom`,
`MarksFrom`, `NumbersFrom`, `NeutralsFrom`, `N0`), and the rules are proved about
that function. The library's comment on merge_with_prev calls one of its assignments
a rare case; with the links as they are built and patched it never arises.
get_adjacent_run has a third parameter that no caller sets, and it is left out.

What is assumed of the input, because the statements fail outside it: one
paragraph (a paragraph separator may only be the last character), at most 124 valid
isolates open at once, and, for the statement about W1 to W7 alone, no overflowing
isolate and brackets only on characters of type ON, which is where the library looks
for them. Where code and standard differ, the model follows the code: a matched PDI
keeps type PDI under an override, an unmatched one becomes ON, a separator stays at
level 0 until L1, a mark joined to a PDI takes its type, and the forward search of the
weak-type loops steps over PDIs, which shows only where an isolate has overflowed.

To check everything: `dafny verify dfyconfig.toml`.

## Model

| member | source | states |
|---|---|---|
| `LineOrder.L2Split` | lib/fribidi-bidi.c:1715-1768 | If the lowest level of a line is met at a boundary, L2 orders the two parts on their own and exchanges them exactly when that level is odd: the law that lets ranges of runs stand for repeated reversal |
| `LineOrder.L2Multiset` | lib/fribidi-bidi.c:1715-1768 | Naive L2 neither loses nor doubles a character |
| `LineOrder.L2SameLevel` | lib/fribidi-bidi.c:1902-1913 | A stretch of one level is turned around once if the level is odd and not at all otherwise |
| `LineOrder.L2TopIrrelevant` | lib/fribidi-bidi.c:1852-1860 | Starting the reversals above the highest level present changes nothing |
| `LinearReorder.MergeRangeWithPrevious` | lib/fribidi-bidi.c:1669-1701 | The three writes: the right end of the left part is linked to the left end of the right part, and the range below takes over both ends; which part is left depends on the parity of the lower level |
| `LinearReorder.MergedState` | lib/fribidi-bidi.c:1669-1701 | After these writes the stack of ranges is again linked and strictly rising, and the merged range holds the runs of both in L2 order |
| `LinearReorder.CloseDeeperRanges` | lib/fribidi-bidi.c:1727-1730 | After the inner loop no range below the top is as deep as the next run; stacked levels still strictly increase |
| `LinearReorder.PlaceRun` | lib/fribidi-bidi.c:1732-1757 | A run is attached to the top range or opens one, and the ranges again spell the line so far in L2 order |
| `LinearReorder.CloseAllRanges` | lib/fribidi-bidi.c:1760-1762 | One range is left, and its list is the whole line in L2 order |
| `LinearReorder.LinearReorder` | lib/fribidi-bidi.c:1714-1768 | Following `next` from the returned run spells, with each odd run turned once, the line that reversing every maximal stretch from the highest level down to 1 gives |
| `ReorderLine.ReverseInPlace` | lib/fribidi-bidi.c:1611-1646 | The buffer part is reversed and the rest of the buffer is unchanged |
| `ReorderLine.ResetTrailing` | lib/fribidi-bidi.c:1801-1811 | Exactly the trailing white space and removed codes of the line take the base level |
| `ReorderLine.MoveMarks` | lib/fribidi-bidi.c:1820-1849 | Both buffers hold the line with every mark sequence of an odd level turned around together with its base |
| `VisualPairs.ClusterWhole` | lib/fribidi-bidi.c:1832-1840 | The sequence turned is as long as it can be: it starts with a base or with the first character of its level |
| `VisualPairs.MarksPair` | lib/fribidi-bidi.c:1813-1849 | L3 exchanges two characters exactly when they are in one cluster of a right-to-left level, and moves each only among characters of its level |
| `VisualPairs.L2Pair` | lib/fribidi-bidi.c:1852-1970 | Under L2 the first of two characters stands on the left exactly when the lowest level from the one to the other is even |
| `VisualPairs.VisualPair` | lib/fribidi-bidi.c:1771-1980 | The order of a whole line, L3 on or off: of any two characters the first stands on the left exactly when the lowest level between them is even, or both are in one mark cluster of an odd level, which L3 has turned |
| `VisualPairs.BaseBeforeMark` | lib/fribidi-bidi.c:1813-1849 | With L3, the base of a right-to-left mark stands on the left of the mark |
| `ReorderLine.FillRuns` | lib/fribidi-bidi.c:1889-1917 | The run records describe the maximal runs of one level, the highest level is found, and odd runs are turned in both buffers |
| `ReorderLine.CopyOut` | lib/fribidi-bidi.c:1943-1962 | Copying run after run along the links leaves the line in the order of the list |
| `ReorderLine.ApplyL2` | lib/fribidi-bidi.c:1852-1970 | Both buffers hold the line reordered by naive L2 |
| `ReorderLine.ReorderLine` | lib/fribidi-bidi.c:1771-1980 | Levels after L1 part 4; both optional buffers in an order in which any two characters of the line stand as L2 and L3 (if asked for) want them; everything outside the line unchanged; result one above the highest level of the line |
| `Runs.EncodeRuns` | lib/fribidi-run.c:204-270 | The runs tile the text, each is uniform in type and bracket, isolate codes and brackets stand alone, neighbours differ; `has_isolate` is exact |
| `ExplicitRules.StepOk` | lib/fribidi-bidi.c:380-419 | Every step of X1 to X8 keeps levels strictly increasing from the base level, at most 125, and the valid isolate count equal to the isolate entries on the stack |
| `ExplicitRules.BeforeOk` | lib/fribidi-bidi.c:741-902 | The same for every state reached on the way through a paragraph |
| `ExplicitState.LevelsCount` | lib/fribidi-bidi.c:388-393 | At most 125 entries are ever saved, so the fixed-size stack suffices |
| `ExplicitState.EmbedTracks` | lib/fribidi-bidi.c:380-398 | PUSH_STATUS with a new level for LRE, RLE, LRO or RLO moves the saved entries plus current state as X2 to X5 move the standard stack and counters, and keeps the registers well-formed, `first_interval` at 0 among them |
| `ExplicitState.PopTracks` | lib/fribidi-bidi.c:402-419 | POP_STATUS takes back exactly the entry last pushed by an embedding |
| `ExplicitState.EndEmbeddingTracks` | lib/fribidi-bidi.c:779-796 | The PDF branch pops, or counts an overflow down, exactly when X7 does |
| `CodeMatching.PdfRestores` | lib/fribidi-bidi.c:779-796 | After the PDF that matches an embedding or override code, by balance between whole isolates, the state is that before the code, whether the code took effect or overflowed |
| `CodeMatching.PdfIdle` | lib/fribidi-bidi.c:779-796 | A PDF that matches no code changes nothing |
| `CodeMatching.ClosedRestores` | lib/fribidi-bidi.c:754-902 | A part of the text in which every code and isolate opened is closed leaves the state as it was |
| `CodeMatching.InsideCode` | lib/fribidi-bidi.c:837-902 | With nothing but closed codes between it and a code or initiator, a character is on the least higher level of its direction, with its override, if the code fits, and stands as if the code were not there if not |
| `ExplicitState.IsolateTracks` | lib/fribidi-bidi.c:837-882 | The initiator branch moves the state as X5a to X5c do, valid or overflow |
| `ExplicitState.EndIsolateTracks` | lib/fribidi-bidi.c:815-832 | Closing a valid isolate moves the state as X6a does, embeddings inside it dropped |
| `ExplicitState.OtherPdiTracks` | lib/fribidi-bidi.c:805-813 | A PDI of an overflow isolate, or of none, moves the state as X6a does |
| `ExplicitLevels.NewLevel` | lib/fribidi-bidi.c:770-775 | The bit formulas give the least greater odd or even level |
| `ExplicitLevels.Machine.constructor` | lib/fribidi-bidi.c:744-752 | The initial registers stand for the initial state of X1 |
| `ExplicitLevels.Machine.PushStatus` | lib/fribidi-bidi.c:380-398 | The macro on the array stack: all registers and saved entries after it, when it pushes and when it only counts the overflow |
| `ExplicitLevels.Machine.PopStatus` | lib/fribidi-bidi.c:402-419 | The macro on the array stack: the saved entry returns, or an overflow is counted down |
| `ExplicitLevels.Machine.EmbedRun` | lib/fribidi-bidi.c:761-778 | A run of embedding codes moves the abstract state by as many steps of X2 to X5 |
| `ExplicitLevels.Machine.EndEmbeddingRun` | lib/fribidi-bidi.c:779-796 | A run of PDFs, cut short where it has no effect, moves the abstract state by as many steps of X7 |
| `ExplicitLevels.Machine.Initiate` | lib/fribidi-bidi.c:837-882 | One initiator moves the abstract state by X5a to X5c |
| `ExplicitLevels.Machine.EndIsolate` | lib/fribidi-bidi.c:805-838 | One PDI moves the abstract state by X6a; it reports whether an isolate was closed |
| `ExplicitLevels.GetParDirection` | lib/fribidi-bidi.c:446-476 | The loop over the characters returns what the scan of P2 finds |
| `ParagraphDirection.DepthZero` | lib/fribidi-bidi.c:453-467 | The counter of open isolates is zero at a character exactly when every initiator before it has its BD9 match before it too |
| `ParagraphDirection.FirstLetterLeads` | lib/fribidi-bidi.c:446-476 | P2 and P3: the level is that of the first letter that is neither between an initiator and its matching PDI nor after an initiator without one, and there is none exactly when there is no such letter |
| `ExplicitLevels.FindBaseLevel` | lib/fribidi-bidi.c:589-614 | P2 and P3 on the run list find the level that the character scan finds |
| `ExplicitLevels.ResolveFsi` | lib/fribidi-bidi.c:658-732 | The single pass with a stack gives every FSI, at any nesting depth, the direction that a scan from it to its matching PDI finds |
| `ParagraphDirection.FsiLeads` | lib/fribidi-bidi.c:658-732 | By BD9: that of the first letter after the FSI before which every initiator since the FSI has its match, unless the PDI that matches the FSI comes first; left-to-right if there is none |
| `ExplicitPhase.ResolveExplicit` | lib/fribidi-bidi.c:754-902 | Every kept run has, for each of its characters, the level, type and isolate level of the standard; removed codes are on a list of their own, in order |
| `ExplicitPhase.RemoveRun` | lib/fribidi-bidi.c:759-803 | Removing a run of codes moves the state over all its characters |
| `ExplicitPhase.PdiRun` | lib/fribidi-bidi.c:804-838 | The run of a PDI gets the level and isolate level after the step, and type ON if unmatched |
| `ExplicitPhase.InitiatorRun` | lib/fribidi-bidi.c:839-882 | The run of an initiator gets the level and isolate level before the step |
| `ExplicitPhase.PlainRun` | lib/fribidi-bidi.c:883-902 | Other runs take the current level and override; a separator stays at level 0 |
| `IsolateMatching.IsolateRestores` | lib/fribidi-bidi.c:804-882 | After the PDI that matches an initiator by BD9 the state is that before the initiator, valid or overflow, whatever embeddings were left open inside |
| `IsolateMatching.MatchingPdiLevel` | lib/fribidi-bidi.c:804-882 | A PDI that matches an initiator by BD9 gets that initiator's level, whether the isolate was valid or overflow |
| `CodeMatching.PdiIdle` | lib/fribidi-bidi.c:804-838 | A PDI that matches no initiator changes nothing |
| `CodeMatching.UnmatchedPdi` | lib/fribidi-bidi.c:804-838 | It keeps the level around it and becomes neutral |
| `ExplicitShape.FollowsInner` | lib/fribidi-bidi.c:839-902 | A run inside an isolate is at a higher level than the run that opened it |
| `ExplicitShape.ShapedAfterX` | lib/fribidi-bidi.c:741-924 | After X9 isolate levels are entered one at a time, deeper ones are at higher levels, a run after nested isolates is a PDI at the level of its chain predecessor, levels lie between base and 125, isolate levels below 125 |
| `ExplicitAlignment.AlignedAfterX` | lib/fribidi-bidi.c:798-803 | The kept runs start where their first characters stand once the removed codes are stepped over, and hold all other characters |
| `ExplicitAlignment.KeptCharacter` | lib/fribidi-bidi.c:754-902 | Kept character number j has the level, type and isolate level that X1 to X8 give to the character at its position |
| `IsolateLinks.BuildLinks` | lib/fribidi-bidi.c:904-924 | The loop with its table, zeroed above the current level whenever the level falls, sets every previous and next link to what the isolate levels say |
| `Chains.PrevNone` | lib/fribidi-bidi.c:904-924 | What the isolate levels say: there is no previous run exactly when a lower isolate level, or nothing, is met on the way back |
| `Chains.NextNone` | lib/fribidi-bidi.c:904-924 | The same for the next run |
| `NextRunCache.NextOfPrev` | lib/fribidi-bidi.c:918-922 | By the isolate levels, next undoes previous |
| `Neutrals.PrevOfNextRun` | lib/fribidi-bidi.c:918-922 | By the isolate levels, previous undoes next |
| `IsolateLinks.MergeRuns` | lib/fribidi-bidi.c:86-114 | The link assignments of merge_with_prev, the else-if included, leave every stored link of the shortened list what the isolate levels say |
| `IsolateLinks.PatchedAgrees` | lib/fribidi-bidi.c:99-110 | Whatever the order of these assignments, the links of the runs that stay are those of the merged list |
| `IsolateLinks.GetAdjacentRun` | lib/fribidi-bidi.c:167-198 | Following the stored links finds the nearest run of the isolating chain backwards, and forwards the nearest that is not a PDI |
| `IsolateLinks.GetNextRunCached` | lib/fribidi-bidi.c:215-226 | The cached search along the stored links returns the same run and keeps the table right |
| `NextRunCache.CachedSearch` | lib/fribidi-bidi.c:199-226 | The cached search returns what a search of its own returns, and leaves the table right for the next run |
| `NextRunCache.CacheKept` | lib/fribidi-bidi.c:199-214 | Changing the types of visited runs keeps every remembered answer right |
| `NextRunCache.WalksApart` | lib/fribidi-bidi.c:203-214 | In one sweep no PDI run is passed over by two searches |
| `NextRunCache.SearchesAfresh` | lib/fribidi-bidi.c:215-226 | The table always has an answer where it may be used: a search is made exactly at runs that are not a PDI with a chain predecessor |
| `NextRunCache.SweepLinear` | lib/fribidi-bidi.c:203-214 | All searches of one sweep together pass over no more runs than the list has |
| `IsolateLinks.MergeChain` | lib/fribidi-bidi.c:86-114 | By the isolate levels, the chain of the merged list is that of the list with the joined run left backwards from its first part and forwards from its second |
| `Compaction.SpotsMerged` | lib/fribidi-bidi.c:86-114 | Merging runs that look alike changes no character's type, level or isolate level |
| `Compaction.ShapedMerged` | lib/fribidi-bidi.c:86-114 | Merging neighbours of one level and isolate level keeps the nesting invariant of the list |
| `Compaction.Compact` | lib/fribidi-bidi.c:116-157 | The two loops, merging along with the stored links, leave the list that joining from left to right gives, its links right |
| `Compaction.CompactKeeps` | lib/fribidi-bidi.c:116-157 | That list has the same length, alignment, nesting and characters (with compact_neutrals, up to the kind of neutral), and no two neighbours that could join |
| `Compaction.JoinedIsCompacted` | lib/fribidi-bidi.c:134-157 | Without brackets no two neutral neighbours of one level run are left |
| `WeakProof1.ResolveMarksAndNumbers` | lib/fribidi-bidi.c:958-1048 | The loop along the stored links, with a memory of strong types that starts out arbitrary but for its first entry, computes the turns one after the other and keeps the links right |
| `WeakProof1.MarksPlain` | lib/fribidi-bidi.c:997-1036 | Isolate-free: the merged run list spells W1 then W2 applied character by character |
| `WeakProof1.MarksSound` | lib/fribidi-bidi.c:958-1048 | Any list: nesting, alignment and levels are kept and no mark is left |
| `WeakPass2.ResolveNumbers` | lib/fribidi-bidi.c:1050-1140 | The loop with its cached search, memory of strong types and two carried variables computes the turns one after the other |
| `WeakPass2.NumbersFree` | lib/fribidi-bidi.c:1050-1140 | Isolate-free: each run ends with the type of the five passes W3 to W7 |
| `WeakPass2.NumbersSound` | lib/fribidi-bidi.c:1050-1140 | Any list: the shape is kept and only neutrals, letters and numbers are left |
| `WeakPass2.Turn2Kind` | lib/fribidi-bidi.c:1092-1134 | One turn, with its two carried variables, gives the run its type by W3 to W7 |
| `WeakPass2.Turn2Carry` | lib/fribidi-bidi.c:1092-1138 | What the turn carries on is what W4 and W5 need at the next run |
| `WeakProof2.W4Simple` | lib/fribidi-bidi.c:1101-1113 | W4 applied from left to right and W4 read off the original types agree |
| `WeakProof2.W7Run` | lib/fribidi-bidi.c:1082-1140 | Every run ends with the type that W3 to W7 as separate passes give each of its characters |
| `WeakProof2.ResolveWeakTypes` | lib/fribidi-bidi.c:953-1140 | Both loops, links and all: the result is that of a memory in which every isolate level starts with the base direction |
| `WeakProof2.MarksMemory` | lib/fribidi-bidi.c:959-989 | What the memory of strong types holds at first for nested isolate levels never matters to the first loop: a level is always written before it is read |
| `WeakProof2.WeakenedPlain` | lib/fribidi-bidi.c:953-1140 | Run list without nested isolates: every character has the type that the seven passes W1 to W7 give |
| `WeakMeaning.MarksTakeBase` | lib/fribidi-bidi.c:994-1022 | W1: a mark takes the type of the nearest character before it in its level run that is no mark |
| `WeakMeaning.MarksAtStart` | lib/fribidi-bidi.c:994-1022 | W1: marks at the start of a level run take the direction of the higher level on the two sides of the start |
| `WeakMeaning.NumbersAfterStrong` | lib/fribidi-bidi.c:1024-1137 | W2 and W7: the nearest strong type before it turns EN into AN after AL and into L after L, and leaves it otherwise |
| `WeakMeaning.NumbersAtStart` | lib/fribidi-bidi.c:1024-1137 | W2 and W7 without a strong type before: the direction at the start of the level run stands for it |
| `WeakMeaning.SeparatorsBetween` | lib/fribidi-bidi.c:1100-1113 | W4: a single ES between two EN, or CS between two EN or two AN, becomes a number of that kind; nothing else changes |
| `WeakMeaning.TerminatorsBeside` | lib/fribidi-bidi.c:1115-1124 | W5: an ET becomes EN exactly when only ET stand between it and an EN of its level run, on either side |
| `WeakMeaning.IsolatesCountAsNeutral` | lib/fribidi-bidi.c:1003-1013 | A mark joined to a PDI takes its type instead of ON; W1 to W7 give the same with every isolate character read as ON |
| `WeakChains.MarksAlone` | lib/fribidi-bidi.c:953-1048 | Nested isolates, no weak run right before a PDI or a deeper run: what the first loop does to the runs of one isolate level of an isolate is what it does to them standing alone |
| `WeakChains.NumbersAlone` | lib/fribidi-bidi.c:1050-1140 | The same for the second loop, whatever the other levels carry over in its two variables |
| `WeakCharacters.WeakOfChain` | lib/fribidi-bidi.c:953-1140 | So the characters of every isolating chain have the types that W1 to W7 give to that chain alone |
| `WeakTexts.WeakOfSequences` | lib/fribidi-bidi.c:741-1140 | The same from the characters of any text in which no isolate overflows and brackets are of type ON |
| `WeakTexts.SearchPassesPdi` | lib/fribidi-bidi.c:177-192 | Where an isolate has overflowed it can fail: ET, PDI, EN on one level come out as EN, PDI, EN, and W5 and W6 make the first ON, because the forward search steps over the PDI |
| `PlainTexts.WeakOfText` | lib/fribidi-bidi.c:741-1140 | The same from the characters of a paragraph without isolates whose brackets are of type ON, whatever explicit codes it has |
| `WeakEffects.WeakenedBecomes` | lib/fribidi-bidi.c:953-1140 | Any text, isolates included: letters but AL, AN, neutrals, separators and isolates keep their type, AL becomes R, EN becomes EN, AN or L, separators and terminators a number, L or ON, and a mark something settled |
| `WeakShape.MarkStepSound` | lib/fribidi-bidi.c:997-1023 | The W1 branch, isolates or not, merges only within one isolating run sequence and keeps the list sound |
| `WeakShape.NumberStepSound` | lib/fribidi-bidi.c:1025-1034 | The W2 branch keeps the list sound |
| `WeakPass2.PrevOnLevel` | lib/fribidi-bidi.c:1050-1140 | Neighbours on one level are in one isolating run sequence, unless the second is a PDI or a separator |
| `BracketPairs.CollectPairs` | lib/fribidi-bidi.c:1183-1290 | The sweep with one pair stack per isolate level lists the pairs that the search of BD16 finds, with 63 as the limit and a stopped stack staying stopped, and with the two flags |
| `BracketMatching.PairedIs` | lib/fribidi-bidi.c:1206-1273 | A closing bracket is paired exactly with the latest opening bracket of its kind, in its isolating run sequence, that is neither the opening of a pair completed before nor inside one, unless the sequence was given up |
| `BracketMatching.StoppedAt` | lib/fribidi-bidi.c:1233-1246 | A sequence is given up exactly where an opening bracket finds 63 others waiting |
| `BracketMatching.FewBrackets` | lib/fribidi-bidi.c:1233-1246 | So never with at most 63 opening brackets |
| `BracketMatching.PairsListed` | lib/fribidi-bidi.c:1153-1290 | Every pair of the paragraph is on the list |
| `BracketStructure.PairReaches` | lib/fribidi-bidi.c:1239-1273 | Both brackets of a pair are in one isolating run sequence |
| `BracketStructure.OpenOnce` | lib/fribidi-bidi.c:1239-1273 | An opening bracket has at most one partner |
| `BracketStructure.NestedOrDisjoint` | lib/fribidi-bidi.c:1276-1290 | Any two pairs of the paragraph are nested or disjoint, whatever their sequences |
| `BracketRules.FlagsMean` | lib/fribidi-bidi.c:1208-1273 | The two flags say what a rescan of the pair's interior within its sequence would find |
| `SequenceRules.ContextMeans` | lib/fribidi-bidi.c:1334-1370 | The context of a pair is the direction of the nearest strong type or number before it in its sequence, or of the start of the sequence |
| `SequenceRules.PairMeans` | lib/fribidi-bidi.c:1300-1375 | N0 for one pair: with a strong type of the embedding direction inside both brackets take it; with only the other inside, they take it if it stands before the pair too and the embedding direction if not; with none they stay |
| `SequenceRules.PairsFollow` | lib/fribidi-bidi.c:1300-1375 | Pair after pair, in order, on the list the earlier pairs have left |
| `BracketPhase.FlagsDecide` | lib/fribidi-bidi.c:1300-1341 | On the list as changed by earlier pairs, the flags and the sweep decide what rule N0 decides |
| `BracketPhase.SweepStep` | lib/fribidi-bidi.c:1342-1370 | The table of the forward-only sweep holds, per isolate level, the direction that a backward search to the start of the sequence finds |
| `BracketPhase.SortSorts` | lib/fribidi-bidi.c:519-530 | Pairs are in order of their opening brackets |
| `BracketPhase.ResolveBrackets` | lib/fribidi-bidi.c:1300-1375 | Every bracket pair gets the type that sequential N0 gives it, rescanning its interior and searching back, earlier pairs included; nothing else changes |
| `Resolution.N0Letters` | lib/fribidi-bidi.c:1300-1375 | Sequential N0 turns neutral brackets into letters and leaves every other run as it is |
| `Resolution.ClearBrackets` | lib/fribidi-bidi.c:1384-1391 | No run keeps the bracket property and nothing else changes |
| `Neutrals.StretchAgrees` | lib/fribidi-bidi.c:1406-1439 | All neutral runs of one maximal stretch get one direction |
| `Neutrals.RightSeen` | lib/fribidi-bidi.c:1418-1433 | The search that skips PDI runs finds the direction on the right of the whole stretch of neutrals, or the end of the sequence |
| `Neutrals.LeftSeen` | lib/fribidi-bidi.c:1417-1428 | The type seen on the left is that of the stretch, or the embedding direction if an earlier part of the stretch took it |
| `Neutrals.ResolveNeutrals` | lib/fribidi-bidi.c:1406-1439 | The loop along the stored links and the cache computes the turns one after the other |
| `Neutrals.NeutralsResolve` | lib/fribidi-bidi.c:1406-1439 | Every run gets the type of the rules on its sequence, and no neutral is left |
| `SequenceRules.NeutralsMean` | lib/fribidi-bidi.c:1406-1439 | By positions: a neutral takes the direction of the nearest runs that are not neutral on its two sides in its isolating run sequence, numbers as R, the start or end of the sequence where there is none, if the two agree; otherwise that of its embedding level |
| `SequenceRules.FollowingOnce` | lib/fribidi-bidi.c:1406-1439 | What stands on the right side is one direction only |
| `ImplicitLevels.Implicit` | lib/fribidi-bidi.c:1460-1472 | I1 and I2: the level rises by at most two, its parity is the direction of the type, and it stays at most 126 |
| `ImplicitLevels.ResolveImplicit` | lib/fribidi-bidi.c:1452-1477 | Each run's level after I1 and I2; the returned maximum bounds all levels and is attained |
| `Shadow.ShadowRunList` | lib/fribidi-run.c:302-414 | The list becomes one that tiles the text, with each run of the other list laid over it in turn, making room of its own or not |
| `Shadow.SpliceStep` | lib/fribidi-run.c:322-405 | Splitting, cutting and dropping runs around one inserted run changes exactly the text it covers |
| `Overlay.OverlayAt` | lib/fribidi-run.c:302-414 | Without preserve_length: a covered position shows the covering run, any other what it showed before |
| `Overlay.WovenAt` | lib/fribidi-run.c:302-414 | With preserve_length: every kept character is at its own position |
| `Overlay.WovenCode` | lib/fribidi-run.c:302-414 | With preserve_length: every removed code is back where it was taken from |
| `Overlay.WovenAll` | lib/fribidi-run.c:302-414 | With preserve_length: every position holds a code or a kept character |
| `FinalLevels.ResetsMeans` | lib/fribidi-bidi.c:1524-1577 | A position is reset exactly when everything from it to the next separator or the paragraph end is white space, LRI, RLI, FSI, PDI, an explicit code, BN or separator |
| `FinalLevels.CollectResets` | lib/fribidi-bidi.c:1529-1574 | The runs built by the backward scan cover exactly the positions that L1 resets, in order, at the base level |
| `FinalLevels.FillCodeLevels` | lib/fribidi-bidi.c:1505-1511 | Each code run takes the level of the run before it, the base level at the start |
| `FinalLevels.FinishLevels` | lib/fribidi-bidi.c:1491-1596 | Every position has the base level if L1 resets it, otherwise its level after reinsertion |
| `FinalLevels.KeptLevel` | lib/fribidi-bidi.c:1491-1511 | Reinsertion leaves each kept character its own level at its own position |
| `FinalLevels.CodeLevel` | lib/fribidi-bidi.c:1505-1511 | A removed code has the level of the character before it |
| `FinalLevels.WriteLevels` | lib/fribidi-bidi.c:1587-1596 | embedding_levels[x] is the level of the run that holds x |
| `Resolution.Resolve` | lib/fribidi-bidi.c:904-1439 | X10 to N2 as one method, the isolate links handed on from phase to phase |
| `Resolution.StagesSound` | lib/fribidi-bidi.c:927-1439 | From X10 to N2, in any text: levels and isolate levels of all characters stay, weak types turn only as W1 to W7 let them, brackets follow N0 pair by pair, the neutrals left take the direction on both sides or the embedding direction, and every run ends up L, R or a number |
| `Similarity.SameText` | lib/fribidi-bidi.c:116-132 | A list that compact_list leaves is determined by the characters it stands for |
| `Similarity.SimilarStages` | lib/fribidi-bidi.c:927-1439 | Lists of one text come out of all these phases with the same types, wherever their runs stand |
| `TextLevels.WholeText` | lib/fribidi-bidi.c:741-902 | The kept runs after X9 spell, with levels, isolate levels and brackets, the characters that X9 keeps |
| `TextLevels.RankOf` | lib/fribidi-bidi.c:755-804 | The position of kept character number j has j kept characters before it |
| `TextLevels.SizeStages` | lib/fribidi-bidi.c:927-1439 | The phases from X10 to N2 lose and add no character, in any list whatever |
| `TextLevels.DirectionForEach` | lib/fribidi-bidi.c:927-1439 | So every kept character has its own direction |
| `TextLevels.ListDirections` | lib/fribidi-bidi.c:927-1439 | The directions found on the run list are those of the specification, which reads the kept characters alone |
| `ParagraphLevels.KeptLevelIs` | lib/fribidi-bidi.c:1452-1511 | A kept character has its explicit level raised by I1 or I2 for the direction that the phases left it, before and after reinsertion |
| `ParagraphLevels.LevelsInRange` | lib/fribidi-bidi.c:1452-1477 | Before L1 every level but that of a separator lies between the base level and 126 |
| `PlainTexts.PlainText` | lib/fribidi-bidi.c:940-958 | After X9 and compact_list a text without isolates whose first level is not below the base level meets the assumptions of the weak-type theorem |
| `PlainTexts.FirstKept` | lib/fribidi-bidi.c:883-902 | A paragraph can start below the base level only with its separator, as the only character kept |
| `ParagraphLevels.GetParEmbeddingLevels` | lib/fribidi-bidi.c:538-1608 | End to end: the levels are ParLevels of the characters; every kept character has its X level raised for the direction the last stage holds for it; the stages follow each other as StagesSound has it; in texts without overflowing isolates every sequence follows W1 to W7, in all texts N0 follows pair by pair and N1 and N2 by the nearest sides; the result is one above the highest level before L1, and levels lie between base and result - 1, at most 126 |
| `BnDeletion.BeforeWithout` | lib/fribidi-bidi.c:755-804 | Leaving a BN out of the text leaves every state of the explicit phase as it was |
| `BnDeletion.ResetsWithout` | lib/fribidi-bidi.c:1524-1577 | L1 resets the same other characters without it |
| `BnDeletion.DeletingBn` | lib/fribidi-bidi.c:538-1608 | Deleting any BN character changes neither the paragraph direction nor the level of any other character |
| `Log2Vis.VisualPermutes` | lib/fribidi.c:253-269 | With L3 on or off the visual order takes every logical position exactly once |
| `Log2Vis.Invert` | lib/fribidi.c:263-269 | The L-to-V map is the inverse of the V-to-L map, both ways |
| `Log2Vis.TrailingReset` | lib/fribidi.c:249-262 | Reordering the paragraph as one line leaves its levels as they are: part 4 of L1 finds them reset |
| `Log2Vis.LogicalToVisual` | lib/fribidi.c:145-284 | The levels are those of the paragraph; whichever buffers are given, visual[i] is the text shaped under them at V_to_L[i], V_to_L is an order in which any two characters stand as L2 and L3 want them and L_to_V its inverse; the result is one above the highest level before L1 |
| `BidiMarks.UnmarkedInOrder` | lib/fribidi.c:106-117 | What is kept stays in order |
| `BidiMarks.UnmarkedAll` | lib/fribidi.c:106-117 | A place is kept exactly when it holds no mark |
| `BidiMarks.CloseUp` | lib/fribidi.c:106-117 | Text, levels and V-to-L map hold their entries of the unmarked places, closed up, and nothing beyond changes |
| `BidiMarks.PrivateInverse` | lib/fribidi.c:90-104 | An L-to-V map given alone is inverted |
| `BidiMarks.RemoveBidiMarks` | lib/fribidi.c:64-135 | The unmarked text in order; the maps become partial inverses, with -1 exactly where a mark was |
| `ArabicJoining.JoinsAgree` | lib/fribidi-joining.c:102-171 | For neighbouring shaping letters the first keeps its bit to the next exactly when the second keeps its bit to the one before: when both have it and everything up to the second that is not ignored is on the level of the first, or one has no level |
| `ArabicJoining.SkippedBits` | lib/fribidi-joining.c:102-171 | What stands skipped between two letters gets the bits of a joined character exactly when they join |
| `ArabicJoining.EndsFree` | lib/fribidi-joining.c:102-171 | The ends of the text join to nothing; bits of letters are only cleared, other bits never change |
| `ArabicJoining.SeenLetter` | lib/fribidi-joining.c:121-149 | What reading one more letter changes, at every earlier place |
| `ArabicJoining.SeenTransparent` | lib/fribidi-joining.c:115-119 | What reading a transparent character on another level changes |
| `ArabicJoining.JoinArabic` | lib/fribidi-joining.c:70-171 | Every character ends with the bits that pairwise joining of neighbouring letters gives it |
| `Utf8.ToUnicode` | lib/fribidi-char-sets-utf8.c:36-85 | Decodes character by character, reads nothing beyond the given length, stops at a character cut short, writes nothing beyond what it returns |
| `Utf8.ToUtf8` | lib/fribidi-char-sets-utf8.c:87-131 | Writes the bytes of every code point, at most four per character, and a final NUL |
| `Utf8.WellFormed` | lib/fribidi-char-sets-utf8.c:98-128 | The bytes of a code point are the shortest form of RFC 3629: the first tells the length, all others are continuation bytes |
| `Utf8.BitsBack` | lib/fribidi-char-sets-utf8.c:36-131 | The bytes of one code point decode to it |
| `Utf8.RoundTrip` | lib/fribidi-char-sets-utf8.c:36-131 | Decoding undoes encoding: exactly the code points below 0x110000 come back, in order |

## Left out

- Memory: allocation failures and the run pool; every allocation succeeds.
- Pointers of the run list: nodes are records in a sequence, so `prev`, `next` and the sentinel are positions, and an isolate link is the index of a run, which goes down when a run before it goes; aliasing of nodes is not captured.
- Paragraph separators in the middle of the text, and text after them.
- More than 124 valid isolates open at once: the isolate level is capped there and the nesting invariant is not claimed.
- W1 to W7 against the standard in texts where an isolate overflows: there it is proved what each type may become, that levels and nesting stay, and that the rules can be missed.
- qsort: modelled as an insertion sort by opening position.
- Character properties (bidi type, bracket, joining type, marks): arbitrary functions of the character or inputs.
- Mirroring, shaping and ligatures: a function of the levels handed to `Log2Vis.LogicalToVisual`.
- Debug output, deprecated wrappers, command-line tools, other character sets.
