/** fribidi_join_arabic: the joining bits of a text after cursive joining. */
module ArabicJoining {
  import opened BidiTypes

  /** FriBidiArabicProp, bit by bit. */
  datatype Prop = Prop(right: bool, left: bool, shapes: bool, transparent: bool, ignored: bool)
  {
    /** Joining type G. */
    predicate IsIgnored() { ignored && !transparent }
    predicate Skipped() { transparent || ignored }
    /** The bit towards the character before (after) on a level. */
    predicate Before(level: int) { if LevelIsRtl(level) then right else left }
    predicate After(level: int) { if LevelIsRtl(level) then left else right }
    function SetBefore(level: int, b: bool): Prop { if LevelIsRtl(level) then this.(right := b) else this.(left := b) }
    function SetAfter(level: int, b: bool): Prop { if LevelIsRtl(level) then this.(left := b) else this.(right := b) }
  }

  predicate LevelsMatch(a: int, b: int) { a == b || a == -1 || b == -1 }

  /** FRIBIDI_CONSISTENT_LEVEL: removed codes have no level. */
  function ConsistentLevel(types: seq<BidiType>, levels: seq<nat>, i: nat): int
    requires i < |types| && i < |levels|
  {
    if types[i].IsExplicitOrBn() then -1 else levels[i]
  }

  // ----- Which characters join -----

  /** The last (first) character that is not skipped before `i` (after `x`, before
      `i`); -1 if there is none. */
  ghost function BaseBefore(ps: seq<Prop>, i: nat): (b: int)
    requires i <= |ps|
    ensures -1 <= b < i
    ensures b >= 0 ==> !ps[b].Skipped() && forall m | b < m < i :: ps[m].Skipped()
    ensures b == -1 ==> forall m | 0 <= m < i :: ps[m].Skipped()
  {
    if i == 0 then -1 else if !ps[i - 1].Skipped() then i - 1 else BaseBefore(ps, i - 1)
  }

  ghost function BaseAfter(ps: seq<Prop>, x: nat, i: nat): (b: int)
    requires x < i <= |ps|
    ensures b == -1 || x < b < i
    ensures b >= 0 ==> !ps[b].Skipped() && forall m | x < m < b :: ps[m].Skipped()
    ensures b == -1 ==> forall m | x < m < i :: ps[m].Skipped()
  {
    if x + 1 == i then -1
    else
      var b := BaseAfter(ps, x, i - 1);
      if b >= 0 then b else if !ps[i - 1].Skipped() then i - 1 else -1
  }

  /** All characters after `a` and before `i` that are not ignored are on a level
      that matches that of `a`. */
  ghost predicate OpenTo(ps: seq<Prop>, ls: seq<int>, a: nat, i: nat)
    requires a < i <= |ps| == |ls|
  {
    forall m | a < m < i && !ps[m].IsIgnored() :: LevelsMatch(ls[a], ls[m])
  }

  /** `a` joins to `b`, the next character that is not skipped. */
  ghost predicate Link(ps: seq<Prop>, ls: seq<int>, a: nat, b: nat)
    requires a < b < |ps| == |ls|
  {
    ps[a].After(ls[a]) && ps[b].Before(ls[b]) && OpenTo(ps, ls, a, b + 1)
  }

  /** The bits of character `x` when the first `i` characters have been read. */
  ghost function Seen(ps: seq<Prop>, ls: seq<int>, x: nat, i: nat): Prop
    requires x < i <= |ps| == |ls|
  {
    var a, b, p := BaseBefore(ps, x), BaseAfter(ps, x, i), ps[x];
    if p.Skipped() then
      if a >= 0 && b >= 0 && Link(ps, ls, a, b) then p.SetBefore(ls[b], true).SetAfter(ls[a], true) else p
    else
      var before := p.Before(ls[x]) && (!p.shapes || (a >= 0 && Link(ps, ls, a, x)));
      var after := p.After(ls[x]) && (!p.shapes || if b >= 0 then Link(ps, ls, x, b) else OpenTo(ps, ls, x, i));
      p.SetBefore(ls[x], before).SetAfter(ls[x], after)
  }

  /** The bits after joining: the end of the text joins to nothing. */
  ghost function Joined(ps: seq<Prop>, ls: seq<int>, x: nat): Prop
    requires x < |ps| == |ls|
  {
    var p := Seen(ps, ls, x, |ps|);
    if !ps[x].Skipped() && BaseAfter(ps, x, |ps|) < 0 && ps[x].shapes then p.SetAfter(ls[x], false) else p
  }

  // ----- What joining guarantees -----

  lemma LinkBits(ps: seq<Prop>, ls: seq<int>, a: nat, b: nat)
    requires a < b < |ps| == |ls|
    ensures Link(ps, ls, a, b) ==> ps[a].After(ls[a]) && ps[b].Before(ls[b])
  {
  }

  /** Two letters join when both have the bit towards the other and everything up
      to the second that is not ignored is on the level of the first, or one of the
      two has no level. */
  lemma LinkMeans(ps: seq<Prop>, ls: seq<int>, a: nat, b: nat)
    requires a < b < |ps| == |ls|
    ensures Link(ps, ls, a, b) <==>
              && (if LevelIsRtl(ls[a]) then ps[a].left else ps[a].right)
              && (if LevelIsRtl(ls[b]) then ps[b].right else ps[b].left)
              && forall m | a < m <= b && (ps[m].transparent || !ps[m].ignored) ::
                   ls[m] == ls[a] || ls[m] == -1 || ls[a] == -1
  {
  }

  lemma {:induction false} BaseAfterIs(ps: seq<Prop>, a: nat, b: nat, i: nat)
    requires a < b < i <= |ps| && !ps[b].Skipped() && forall m | a < m < b :: ps[m].Skipped()
    ensures BaseAfter(ps, a, i) == b
    decreases i
  {
    if b < i - 1 {
      BaseAfterIs(ps, a, b, i - 1);
    }
  }

  /** For neighbouring letters that shape: the first keeps its bit to the next
      exactly when the second keeps its bit to the one before, whatever lies
      skipped between them and on whatever levels they are. */
  lemma JoinsAgree(ps: seq<Prop>, ls: seq<int>, a: nat, b: nat)
    requires a < b < |ps| == |ls| && !ps[a].Skipped() && !ps[b].Skipped() && (forall m | a < m < b :: ps[m].Skipped())
    requires ps[a].shapes && ps[b].shapes
    ensures Joined(ps, ls, a).After(ls[a]) <==> Joined(ps, ls, b).Before(ls[b])
    ensures Joined(ps, ls, a).After(ls[a]) <==>
              && (if LevelIsRtl(ls[a]) then ps[a].left else ps[a].right)
              && (if LevelIsRtl(ls[b]) then ps[b].right else ps[b].left)
              && forall m | a < m <= b && (ps[m].transparent || !ps[m].ignored) ::
                   ls[m] == ls[a] || ls[m] == -1 || ls[a] == -1
  {
    hide Link;
    LinkMeans(ps, ls, a, b);
    BaseAfterIs(ps, a, b, |ps|);
    assert BaseBefore(ps, b) == a;
    LinkBits(ps, ls, a, b);
  }

  /** A skipped character between two letters is given the bits of a joined
      character if the letters join, and stays as it is if not. */
  lemma SkippedBits(ps: seq<Prop>, ls: seq<int>, a: nat, x: nat, b: nat)
    requires a < x < b < |ps| == |ls| && !ps[a].Skipped() && !ps[b].Skipped()
             && (forall m | a < m < b :: ps[m].Skipped())
    ensures Joined(ps, ls, x) ==
              if !Link(ps, ls, a, b) then ps[x]
              else if LevelIsRtl(ls[a]) == LevelIsRtl(ls[b]) then ps[x].(right := true, left := true)
              else if LevelIsRtl(ls[a]) then ps[x].(left := true)
              else ps[x].(right := true)
  {
    hide Link;
    BaseAfterIs(ps, x, b, |ps|);
    assert BaseBefore(ps, x) == a;
  }

  /** A letter that shapes joins to nothing over the ends of the text, and
      joining only ever takes bits of letters away. */
  lemma EndsFree(ps: seq<Prop>, ls: seq<int>, x: nat)
    requires x < |ps| == |ls| && !ps[x].Skipped()
    ensures ps[x].shapes && BaseBefore(ps, x) < 0 ==> !Joined(ps, ls, x).Before(ls[x])
    ensures ps[x].shapes && BaseAfter(ps, x, |ps|) < 0 ==> !Joined(ps, ls, x).After(ls[x])
    ensures (Joined(ps, ls, x).right ==> ps[x].right) && (Joined(ps, ls, x).left ==> ps[x].left)
    ensures Joined(ps, ls, x).(right := false, left := false) == ps[x].(right := false, left := false)
  {
  }

  // ----- One character further -----

  /** Reading an ignored character changes nothing. */
  lemma SeenIgnored(ps: seq<Prop>, ls: seq<int>, x: nat, i: nat)
    requires x < i < |ps| == |ls| && ps[i].IsIgnored()
    ensures Seen(ps, ls, x, i + 1) == Seen(ps, ls, x, i)
  {
    assert OpenTo(ps, ls, x, i + 1) == OpenTo(ps, ls, x, i);
  }

  lemma OpenMore(ps: seq<Prop>, ls: seq<int>, a: nat, i: nat)
    requires a < i < |ps| == |ls|
    ensures OpenTo(ps, ls, a, i + 1) <==> OpenTo(ps, ls, a, i) && (ps[i].IsIgnored() || LevelsMatch(ls[a], ls[i]))
    ensures OpenTo(ps, ls, a, a + 1)
  {
  }

  /** A letter is the last one just when none comes after it. */
  lemma {:induction false} LastBase(ps: seq<Prop>, x: nat, i: nat)
    requires x < i <= |ps|
    ensures !ps[x].Skipped() ==> (BaseAfter(ps, x, i) < 0 <==> BaseBefore(ps, i) == x)
    ensures BaseAfter(ps, x, i) < 0 && ps[x].Skipped() ==> BaseBefore(ps, i) == BaseBefore(ps, x)
    ensures BaseAfter(ps, x, i) >= 0 ==> BaseBefore(ps, i) > x
    decreases i
  {
    if x + 1 < i {
      LastBase(ps, x, i - 1);
    }
  }

  /** Reading a transparent character may end what the last letter joins to. */
  lemma SeenTransparent(ps: seq<Prop>, ls: seq<int>, x: nat, i: nat)
    requires x < i < |ps| == |ls| && ps[i].Skipped() && !ps[i].IsIgnored()
    ensures Seen(ps, ls, x, i + 1) ==
              if x == BaseBefore(ps, i) && ps[x].shapes && ps[x].After(ls[x]) && OpenTo(ps, ls, x, i)
                && !LevelsMatch(ls[x], ls[i])
              then Seen(ps, ls, x, i).SetAfter(ls[x], false) else Seen(ps, ls, x, i)
  {
    OpenMore(ps, ls, x, i);
    LastBase(ps, x, i);
    hide OpenTo;
    hide Link;
    hide BaseBefore;
  }

  /** Reading a letter settles what the letter before joins to, and what lies
      between. */
  lemma SeenLetter(ps: seq<Prop>, ls: seq<int>, x: nat, i: nat)
    requires x < i < |ps| == |ls| && !ps[i].Skipped()
    ensures var a := BaseBefore(ps, i);
            Seen(ps, ls, x, i + 1) ==
              if a < 0 || x < a then Seen(ps, ls, x, i)
              else if x == a then
                Seen(ps, ls, x, i).SetAfter(ls[x], ps[x].After(ls[x]) && (!ps[x].shapes || Link(ps, ls, x, i)))
              else if Link(ps, ls, a, i) then Seen(ps, ls, x, i).SetBefore(ls[i], true).SetAfter(ls[a], true)
              else Seen(ps, ls, x, i)
  {
    LastBase(ps, x, i);
    hide OpenTo;
    hide Link;
    hide BaseBefore;
  }

  /** A letter just read has its bit to the next character open. */
  lemma SeenFresh(ps: seq<Prop>, ls: seq<int>, i: nat)
    requires i < |ps| == |ls|
    ensures Seen(ps, ls, i, i + 1) ==
              if ps[i].Skipped() then ps[i]
              else ps[i].SetBefore(ls[i], ps[i].Before(ls[i])
                && (!ps[i].shapes || (BaseBefore(ps, i) >= 0 && Link(ps, ls, BaseBefore(ps, i), i))))
  {
    hide Link;
    hide BaseBefore;
  }

  // ----- The loop -----

  /** What the loop carries: the last letter, its level, whether it shapes, and
      whether it still joins to what follows. */
  datatype Last = Last(saved: nat, level: int, shapes: bool, joins: bool)

  ghost predicate LastIs(ps: seq<Prop>, ls: seq<int>, i: nat, l: Last) {
    && i <= |ps| == |ls|
    && var a := BaseBefore(ps, i);
       if a < 0 then !l.joins && !l.shapes
       else
         l.saved == a && l.level == ls[a] && l.shapes == ps[a].shapes
         && (l.joins <==> ps[a].After(ls[a]) && OpenTo(ps, ls, a, i))
  }

  /** The first `i` characters have been read. */
  ghost predicate ReadTo(now: seq<Prop>, ps: seq<Prop>, ls: seq<int>, i: nat) {
    && i <= |now| == |ps| == |ls|
    && (forall x | 0 <= x < i :: now[x] == Seen(ps, ls, x, i))
    && (forall x | i <= x < |ps| :: now[x] == ps[x])
  }

  lemma LastIgnored(ps: seq<Prop>, ls: seq<int>, i: nat, l: Last)
    requires LastIs(ps, ls, i, l) && i < |ps| && ps[i].IsIgnored()
    ensures LastIs(ps, ls, i + 1, l)
  {
    if BaseBefore(ps, i) >= 0 {
      OpenMore(ps, ls, BaseBefore(ps, i), i);
    }
  }

  lemma ReadIgnored(now: seq<Prop>, ps: seq<Prop>, ls: seq<int>, i: nat)
    requires ReadTo(now, ps, ls, i) && i < |ps| && ps[i].IsIgnored()
    ensures ReadTo(now, ps, ls, i + 1)
  {
    hide Seen;
    SeenFresh(ps, ls, i);
    forall x | 0 <= x < i ensures now[x] == Seen(ps, ls, x, i + 1) {
      SeenIgnored(ps, ls, x, i);
    }
  }

  /** The new bits after a transparent character. */
  lemma ReadTransparent(now: seq<Prop>, ps: seq<Prop>, ls: seq<int>, i: nat, l: Last, next: seq<Prop>)
    requires ReadTo(now, ps, ls, i) && LastIs(ps, ls, i, l) && i < |ps| && ps[i].Skipped() && !ps[i].IsIgnored()
    requires next == if l.joins && !LevelsMatch(l.level, ls[i]) && l.shapes
             then now[l.saved := now[l.saved].SetAfter(l.level, false)] else now
    ensures ReadTo(next, ps, ls, i + 1)
  {
    hide Seen;
    hide BaseBefore;
    hide OpenTo;
    SeenFresh(ps, ls, i);
    forall x | 0 <= x < i ensures next[x] == Seen(ps, ls, x, i + 1) {
      SeenTransparent(ps, ls, x, i);
    }
  }

  lemma LastTransparent(ps: seq<Prop>, ls: seq<int>, i: nat, l: Last)
    requires LastIs(ps, ls, i, l) && i < |ps| && ps[i].Skipped() && !ps[i].IsIgnored()
    ensures LastIs(ps, ls, i + 1, l.(joins := l.joins && LevelsMatch(l.level, ls[i])))
  {
    if BaseBefore(ps, i) >= 0 {
      OpenMore(ps, ls, BaseBefore(ps, i), i);
    }
  }

  /** Whether the last letter joins to the letter at `i`. */
  lemma LinkNow(ps: seq<Prop>, ls: seq<int>, i: nat, l: Last)
    requires LastIs(ps, ls, i, l) && i < |ps| && !ps[i].Skipped()
    ensures (l.joins && LevelsMatch(l.level, ls[i]) && ps[i].Before(ls[i])) <==>
              (BaseBefore(ps, i) >= 0 && Link(ps, ls, BaseBefore(ps, i), i))
  {
    if BaseBefore(ps, i) >= 0 {
      OpenMore(ps, ls, BaseBefore(ps, i), i);
    }
  }

  lemma LastLetter(ps: seq<Prop>, ls: seq<int>, i: nat)
    requires i < |ps| == |ls| && !ps[i].Skipped()
    ensures LastIs(ps, ls, i + 1, Last(i, ls[i], ps[i].shapes, ps[i].After(ls[i])))
  {
  }

  /** The new bits after a letter, place by place. */
  ghost function LetterBits(now: seq<Prop>, ls: seq<int>, i: nat, l: Last, link: bool, x: nat): Prop
    requires x < |now| && i < |now| == |ls| && (link || l.joins ==> l.saved < i)
  {
    if x == i then (if now[i].shapes && !link then now[i].SetBefore(ls[i], false) else now[i])
    else if link && l.saved < x < i then now[x].SetBefore(ls[i], true).SetAfter(l.level, true)
    else if !link && x == l.saved && l.shapes && x < i then now[x].SetAfter(l.level, false)
    else now[x]
  }

  lemma LetterAt(now: seq<Prop>, ps: seq<Prop>, ls: seq<int>, i: nat, l: Last, link: bool, x: nat)
    requires ReadTo(now, ps, ls, i) && LastIs(ps, ls, i, l) && x < i < |ps| && !ps[i].Skipped()
    requires link == (BaseBefore(ps, i) >= 0 && Link(ps, ls, BaseBefore(ps, i), i))
    ensures LetterBits(now, ls, i, l, link, x) == Seen(ps, ls, x, i + 1)
  {
    SeenLetter(ps, ls, x, i);
    LastBase(ps, x, i);
    if link {
      LinkBits(ps, ls, BaseBefore(ps, i), i);
    }
    hide BaseBefore;
    hide OpenTo;
    hide Link;
  }

  lemma ReadLetter(now: seq<Prop>, ps: seq<Prop>, ls: seq<int>, i: nat, l: Last, link: bool, next: seq<Prop>)
    requires ReadTo(now, ps, ls, i) && LastIs(ps, ls, i, l) && i < |ps| && !ps[i].Skipped()
    requires link == (BaseBefore(ps, i) >= 0 && Link(ps, ls, BaseBefore(ps, i), i))
    requires |next| == |now| && forall x | 0 <= x < |now| :: next[x] == LetterBits(now, ls, i, l, link, x)
    ensures ReadTo(next, ps, ls, i + 1)
  {
    hide BaseBefore;
    hide OpenTo;
    hide Link;
    SeenFresh(ps, ls, i);
    forall x | 0 <= x < i ensures next[x] == Seen(ps, ls, x, i + 1) {
      LetterAt(now, ps, ls, i, l, link, x);
    }
  }

  /** Where nothing is taken away that is not already gone. */
  ghost predicate LetterStays(was: seq<Prop>, l: Last, link: bool, x: nat, i: nat)
    requires x < |was|
  {
    !l.joins && x == l.saved && l.shapes && x != i ==> !was[x].After(l.level)
  }

  /** One letter: the bits of the last letter, of what is skipped in between,
      and of the letter itself. */
  method JoinLetter(props: array<Prop>, ghost ls: seq<int>, level: int, i: nat, l: Last)
    requires i < props.Length == |ls| && level == ls[i] && (l.joins || l.shapes ==> l.saved < i)
    modifies props
    ensures var was := old(props[..]);
            var link := l.joins && LevelsMatch(l.level, level) && was[i].Before(level);
            |props[..]| == |was| && forall x | 0 <= x < |was| && LetterStays(was, l, link, x, i) ::
                props[x] == LetterBits(was, ls, i, l, link, x)
  {
    var joins, disjoin := l.joins, false;
    if joins && !LevelsMatch(l.level, level) {
      disjoin, joins := true, false;
    }
    if !joins {
      if props[i].shapes {
        props[i] := props[i].SetBefore(level, false);
      }
    } else if !props[i].Before(level) {
      disjoin := true;
    } else {
      ghost var was := props[..];
      for j := l.saved + 1 to i
        invariant props.Length == |was|
        invariant forall x | 0 <= x < |was| ::
                    props[x] == if l.saved < x < j then was[x].SetBefore(level, true).SetAfter(l.level, true)
                      else was[x]
      {
        props[j] := props[j].SetBefore(level, true).SetAfter(l.level, true);
      }
    }
    if disjoin && l.shapes {
      props[l.saved] := props[l.saved].SetAfter(l.level, false);
    }
  }

  lemma NoBitToLose(now: seq<Prop>, ps: seq<Prop>, ls: seq<int>, i: nat, l: Last, link: bool, x: nat)
    requires ReadTo(now, ps, ls, i) && LastIs(ps, ls, i, l) && i < |ps| && x < |ps|
    ensures LetterStays(now, l, link, x, i)
  {
    if BaseBefore(ps, i) >= 0 && x == l.saved {
      LastBase(ps, x, i);
    }
    hide OpenTo;
    hide Link;
    hide BaseBefore;
  }

  lemma SavedBefore(ps: seq<Prop>, ls: seq<int>, i: nat, l: Last)
    requires LastIs(ps, ls, i, l)
    ensures l.joins || l.shapes ==> l.saved < i
  {
  }

  lemma ReadAll(now: seq<Prop>, ps: seq<Prop>, ls: seq<int>, l: Last, next: seq<Prop>)
    requires ReadTo(now, ps, ls, |ps|) && LastIs(ps, ls, |ps|, l)
    requires next == if l.joins && l.shapes && l.saved < |now|
             then now[l.saved := now[l.saved].SetAfter(l.level, false)] else now
    ensures forall x | 0 <= x < |ps| :: next[x] == Joined(ps, ls, x)
  {
    hide OpenTo;
    hide Link;
    forall x | 0 <= x < |ps| ensures next[x] == Joined(ps, ls, x) {
      LastBase(ps, x, |ps|);
    }
  }

  lemma NothingRead(ps: seq<Prop>, ls: seq<int>, l: Last)
    requires |ps| == |ls| && !l.joins && !l.shapes
    ensures ReadTo(ps, ps, ls, 0) && LastIs(ps, ls, 0, l)
  {
  }

  lemma StillUnread(now: seq<Prop>, ps: seq<Prop>, ls: seq<int>, i: nat)
    requires ReadTo(now, ps, ls, i) && i < |ps|
    ensures |now| == |ps| && now[i] == ps[i]
  {
  }

  /** The bit to the next character is untouched by what comes before. */
  lemma AfterKept(now: seq<Prop>, ls: seq<int>, i: nat, l: Last, link: bool, p: Prop)
    requires i < |now| == |ls| && (link || l.joins ==> l.saved < i) && p == LetterBits(now, ls, i, l, link, i)
    ensures p.shapes == now[i].shapes && p.After(ls[i]) == now[i].After(ls[i])
  {
  }

  /** fribidi_join_arabic. */
  method JoinArabic(types: seq<BidiType>, levels: seq<nat>, props: array<Prop>)
    requires |types| == |levels| == props.Length
    modifies props
    ensures var ls := seq(|types|, i requires 0 <= i < |types| => ConsistentLevel(types, levels, i));
            forall x | 0 <= x < |types| :: props[x] == Joined(old(props[..]), ls, x)
  {
    hide LastIs;
    hide ReadTo;
    hide Joined;
    hide LetterBits;
    hide LetterStays;
    hide Link;
    hide BaseBefore;
    ghost var ps, ls := props[..], seq(|types|, i requires 0 <= i < |types| => ConsistentLevel(types, levels, i));
    var l := Last(0, -1, false, false);
    NothingRead(ps, ls, l);
    for i := 0 to |types|
      invariant ReadTo(props[..], ps, ls, i) && LastIs(ps, ls, i, l)
    {
      StillUnread(props[..], ps, ls, i);
      SavedBefore(ps, ls, i, l);
      ghost var now := props[..];
      var level := ConsistentLevel(types, levels, i);
      if props[i].IsIgnored() {
        ReadIgnored(now, ps, ls, i);
        LastIgnored(ps, ls, i, l);
      } else if props[i].Skipped() {
        var disjoin := l.joins && !LevelsMatch(l.level, level);
        if disjoin && l.shapes {
          props[l.saved] := props[l.saved].SetAfter(l.level, false);
        }
        ReadTransparent(now, ps, ls, i, l, props[..]);
        LastTransparent(ps, ls, i, l);
        l := l.(joins := l.joins && !disjoin);
      } else {
        ghost var link := l.joins && LevelsMatch(l.level, level) && ps[i].Before(level);
        LinkNow(ps, ls, i, l);
        forall x | 0 <= x < |ps| ensures LetterStays(now, l, link, x, i) {
          NoBitToLose(now, ps, ls, i, l, link, x);
        }
        JoinLetter(props, ls, level, i, l);
        ReadLetter(now, ps, ls, i, l, link, props[..]);
        LastLetter(ps, ls, i);
        AfterKept(now, ls, i, l, link, props[i]);
        l := Last(i, level, props[i].shapes, props[i].After(level));
      }
    }
    SavedBefore(ps, ls, |types|, l);
    ghost var now := props[..];
    if l.joins && l.shapes {
      props[l.saved] := props[l.saved].SetAfter(l.level, false);
    }
    ReadAll(now, ps, ls, l, props[..]);
  }
}
