/** fribidi_remove_bidi_marks: the marks go, everything else closes up, and the
    position maps follow. */
module BidiMarks {
  import opened Log2Vis
  import opened ReorderLine

  /** The places below `n` that hold no mark, in order. */
  ghost function Unmarked(marks: seq<bool>, n: nat): (u: seq<nat>)
    requires n <= |marks|
    ensures |u| <= n
    ensures forall k | 0 <= k < |u| :: u[k] < n && !marks[u[k]]
  {
    if n == 0 then [] else Unmarked(marks, n - 1) + if marks[n - 1] then [] else [n - 1]
  }

  /** Unmarked places stay in order. */
  lemma {:induction false} UnmarkedInOrder(marks: seq<bool>, n: nat)
    requires n <= |marks|
    ensures forall k, l | 0 <= k < l < |Unmarked(marks, n)| :: Unmarked(marks, n)[k] < Unmarked(marks, n)[l]
  {
    if n > 0 {
      UnmarkedInOrder(marks, n - 1);
      var before := Unmarked(marks, n - 1);
      assert forall k | 0 <= k < |before| :: before[k] < n - 1;
    }
  }

  /** None is missing. */
  lemma {:induction false} UnmarkedAll(marks: seq<bool>, n: nat, i: nat)
    requires i < n <= |marks|
    ensures !marks[i] <==> i in Unmarked(marks, n)
    decreases n
  {
    if i < n - 1 {
      UnmarkedAll(marks, n - 1, i);
    }
  }

  /** `now` starts with what `was` held at the unmarked places; from there on it
      is as it was. */
  ghost predicate ClosedUp<T>(now: seq<T>, was: seq<T>, u: seq<nat>) {
    && |u| <= |now| == |was|
    && (forall k | 0 <= k < |u| :: u[k] < |was| && now[k] == was[u[k]])
    && now[|u|..] == was[|u|..]
  }

  ghost predicate Follows<T>(a: array?<T>, was: seq<T>, u: seq<nat>)
    reads a
  {
    a != null ==> ClosedUp(a[..], was, u)
  }

  lemma NotTouched<T>(now: seq<T>, was: seq<T>, u: seq<nat>, i: nat)
    requires ClosedUp(now, was, u) && |u| <= i < |now|
    ensures |was| == |now| && now[i] == was[i]
  {
    assert now[|u|..][i - |u|] == was[|u|..][i - |u|];
  }

  lemma CloseOne<T>(was: seq<T>, u: seq<nat>, i: nat, now: seq<T>)
    requires ClosedUp(now, was, u) && |u| <= i < |now|
    ensures ClosedUp(now[|u| := now[i]], was, u + [i])
  {
    var j, next := |u|, now[|u| := now[i]];
    NotTouched(now, was, u, i);
    assert next[j + 1..] == now[j..][1..] && was[j + 1..] == was[j..][1..];
  }

  lemma UnmarkedIs(marks: seq<bool>, i: nat)
    requires i < |marks|
    ensures |Unmarked(marks, i)| <= i && Unmarked(marks, i + 1) == Unmarked(marks, i) + if marks[i] then [] else [i]
  {
  }

  lemma NothingClosed<T>(was: seq<T>, marks: seq<bool>)
    ensures ClosedUp(was, was, Unmarked(marks, 0))
  {
  }

  lemma SameLength<T>(now: seq<T>, was: seq<T>, u: seq<nat>)
    requires ClosedUp(now, was, u)
    ensures |now| == |was|
  {
  }

  method CloseBuffer<T>(a: array?<T>, i: nat, j: nat, ghost was: seq<T>, ghost marks: seq<bool>)
    requires i < |marks| && !marks[i] && j == |Unmarked(marks, i)| && Follows(a, was, Unmarked(marks, i))
    requires a != null ==> |marks| <= a.Length
    modifies a
    ensures Follows(a, was, Unmarked(marks, i + 1))
  {
    hide ClosedUp;
    hide Unmarked;
    if a != null {
      ghost var now := a[..];
      assert |was| == a.Length by { SameLength(now, was, Unmarked(marks, i)); }
      a[j] := a[i];
      assert a[..] == now[j := now[i]];
      UnmarkedIs(marks, i);
      CloseOne(was, Unmarked(marks, i), i, now);
    }
  }

  lemma MarkStays<T>(was: seq<T>, marks: seq<bool>, i: nat, now: seq<T>)
    requires i < |marks| && marks[i] && ClosedUp(now, was, Unmarked(marks, i))
    ensures ClosedUp(now, was, Unmarked(marks, i + 1))
  {
    assert Unmarked(marks, i) + [] == Unmarked(marks, i);
  }

  lemma NoneYet(marks: seq<bool>)
    ensures Unmarked(marks, 0) == []
  {
  }

  ghost function Marks<T>(s: seq<T>, isMark: T -> bool): (m: seq<bool>)
    ensures |m| == |s| && forall i | 0 <= i < |s| :: m[i] == isMark(s[i])
  {
    seq(|s|, i requires 0 <= i < |s| => isMark(s[i]))
  }

  /** The loop over the text, which takes the levels and the V-to-L map along. */
  method CloseUp<T(0)>(str: array<T>, isMark: T -> bool, len: nat, fromThis: array?<int>, levels: array?<nat>)
    returns (j: nat)
    requires len <= str.Length && (fromThis != null ==> len <= fromThis.Length)
             && (levels != null ==> len <= levels.Length)
    requires (str as object) != fromThis && (str as object) != levels
             && (fromThis != null ==> (fromThis as object) != levels)
    modifies str, fromThis, levels
    ensures var u := Unmarked(Marks(old(str[..len]), isMark), len);
            && j == |u| && ClosedUp(str[..], old(str[..]), u)
            && Follows(fromThis, old(Contents(fromThis)), u) && Follows(levels, old(Contents(levels)), u)
  {
    hide ClosedUp;
    hide Unmarked;
    ghost var s, f, l := str[..], Contents(fromThis), Contents(levels);
    ghost var marks := Marks(str[..len], isMark);
    j := 0;
    NothingClosed(s, marks);
    NothingClosed(f, marks);
    NothingClosed(l, marks);
    NoneYet(marks);
    for i := 0 to len
      invariant j == |Unmarked(marks, i)| <= i
      invariant ClosedUp(str[..], s, Unmarked(marks, i))
      invariant Follows(fromThis, f, Unmarked(marks, i)) && Follows(levels, l, Unmarked(marks, i))
    {
      NotTouched(str[..], s, Unmarked(marks, i), i);
      UnmarkedIs(marks, i);
      if !isMark(str[i]) {
        CloseBuffer(str, i, j, s, marks);
        CloseBuffer(levels, i, j, l, marks);
        CloseBuffer(fromThis, i, j, f, marks);
        j := j + 1;
      } else {
        MarkStays(s, marks, i, str[..]);
        if fromThis != null {
          MarkStays(f, marks, i, fromThis[..]);
        }
        if levels != null {
          MarkStays(l, marks, i, levels[..]);
        }
      }
    }
  }

  // ----- The maps -----

  /** The L-to-V map counts positions of what is left, and is -1 for what is
      gone: the two maps undo each other where they can. */
  ghost predicate PartlyUndoes(there: seq<int>, back: seq<int>, j: nat, n: nat) {
    && |there| == n && j <= n <= |back|
    && (forall i | 0 <= i < j :: 0 <= back[i] < n && there[back[i]] == i)
    && (forall p | 0 <= p < n :: there[p] == -1 || (0 <= there[p] < j && back[there[p]] == p))
  }

  /** The loops that make a V-to-L map of an L-to-V map that comes alone. */
  method PrivateInverse(toThis: array<int>, len: nat) returns (fromThis: array<int>)
    requires len <= toThis.Length
    ensures fresh(fromThis) && fromThis.Length == len
    ensures Permutes(toThis[..len], len) ==>
              Permutes(fromThis[..], len) && Undoes(fromThis[..], toThis[..len]) && Undoes(toThis[..len], fromThis[..])
  {
    hide Permutes;
    hide Undoes;
    fromThis := new int[len];
    for i := 0 to len {
      fromThis[i] := i;
    }
    ghost var v := toThis[..len];
    ghost var permutes := Permutes(v, len);
    for i := 0 to len
      invariant toThis[..len] == v
      invariant permutes ==> forall h | 0 <= h < i :: Hits(v, fromThis[..], h)
    {
      if permutes {
        OncePosition(v, len, i);
      }
      ghost var was := fromThis[..];
      if 0 <= toThis[i] < len {
        fromThis[toThis[i]] := i;
      }
      if permutes {
        forall h | 0 <= h <= i ensures Hits(v, fromThis[..], h) {
          assert h < i ==> Hits(v, was, h) && v[h] != v[i];
        }
      }
    }
    if permutes {
      InverseOfPermutation(v, fromThis[..]);
    }
  }

  /** The loops that write the L-to-V map anew. */
  method WriteToThis(toThis: array<int>, fromThis: array<int>, len: nat, j: nat)
    requires toThis != fromThis && j <= len <= toThis.Length && len <= fromThis.Length
    modifies toThis
    ensures (forall i, h | 0 <= i < h < j :: fromThis[i] != fromThis[h])
            && (forall i | 0 <= i < j :: 0 <= fromThis[i] < len) ==>
              PartlyUndoes(toThis[..len], fromThis[..], j, len)
  {
    for i := 0 to len
      invariant forall p | 0 <= p < i :: toThis[p] == -1
    {
      toThis[i] := -1;
    }
    ghost var apart := (forall i, h | 0 <= i < h < j :: fromThis[i] != fromThis[h])
        && (forall i | 0 <= i < j :: 0 <= fromThis[i] < len);
    for i := 0 to j
      invariant apart ==> forall h | 0 <= h < i :: toThis[fromThis[h]] == h
      invariant apart ==> forall p | 0 <= p < len :: toThis[p] == -1 || (0 <= toThis[p] < i && fromThis[toThis[p]] == p)
    {
      if 0 <= fromThis[i] < len {
        toThis[fromThis[i]] := i;
      }
    }
  }

  lemma UnmarkedIn(marks: seq<bool>, n: nat)
    requires n <= |marks|
    ensures |Unmarked(marks, n)| <= n && forall k | 0 <= k < |Unmarked(marks, n)| :: Unmarked(marks, n)[k] < n
  {
  }

  /** Taking entries out of a permutation leaves them different. */
  lemma ClosedApart(was: seq<int>, now: seq<int>, u: seq<nat>, marks: seq<bool>, n: nat)
    requires ClosedUp(now, was, u) && n <= |was| && n == |marks| && u == Unmarked(marks, n)
    requires Permutes(was[..n], n)
    ensures forall i, h | 0 <= i < h < |u| :: now[i] != now[h]
    ensures forall i | 0 <= i < |u| :: 0 <= now[i] < n
  {
    hide Unmarked;
    UnmarkedInOrder(marks, n);
    UnmarkedIn(marks, n);
    forall i, h | 0 <= i < h < |u| ensures now[i] != now[h] {
      assert now[i] == was[..n][u[i]] && now[h] == was[..n][u[h]];
    }
    forall i | 0 <= i < |u| ensures 0 <= now[i] < n {
      assert now[i] == was[..n][u[i]];
    }
  }

  /** Entry v of the old V-to-L map `back` sent visual place v to its logical
      position; now that position knows its new visual place, or -1 if v held a
      mark. */
  ghost predicate Renumbered(there: seq<int>, back: seq<int>, u: seq<nat>, marks: seq<bool>, v: nat) {
    && v < |back| && v < |marks| && 0 <= back[v] < |there|
    && if marks[v] then there[back[v]] == -1 else 0 <= there[back[v]] < |u| && u[there[back[v]]] == v
  }

  lemma PermutesAt(back: seq<int>, n: nat, v: nat)
    requires Permutes(back, n) && v < n
    ensures 0 <= back[v] < n
  {
  }

  /** A position that still has a visual place held no mark. */
  lemma KeptPlace(there: seq<int>, back: seq<int>, now: seq<int>, marks: seq<bool>, n: nat, v: nat)
    requires n == |marks| == |back| && Permutes(back, n) && v < n && |there| == n && there[back[v]] != -1
    requires var u := Unmarked(marks, n);
             PartlyUndoes(there, now, |u|, n) && forall k | 0 <= k < |u| :: u[k] < n && now[k] == back[u[k]]
    ensures !marks[v] && 0 <= there[back[v]] < |Unmarked(marks, n)| && Unmarked(marks, n)[there[back[v]]] == v
  {
    var u, i := Unmarked(marks, n), there[back[v]];
    assert now[i] == back[v] && back[u[i]] == back[v];
    UnmarkedAll(marks, n, u[i]);
  }

  lemma RenumberedAt(there: seq<int>, back: seq<int>, now: seq<int>, marks: seq<bool>, n: nat, v: nat)
    requires n == |marks| == |back| && Permutes(back, n) && v < n
    requires var u := Unmarked(marks, n);
             PartlyUndoes(there, now, |u|, n) && forall k | 0 <= k < |u| :: u[k] < n && now[k] == back[u[k]]
    ensures Renumbered(there, back, Unmarked(marks, n), marks, v)
  {
    var u := Unmarked(marks, n);
    UnmarkedAll(marks, n, v);
    PermutesAt(back, n, v);
    if there[back[v]] != -1 {
      KeptPlace(there, back, now, marks, n, v);
    }
    hide Unmarked;
    hide Permutes;
    if !marks[v] {
      var k :| 0 <= k < |u| && u[k] == v;
      assert there[now[k]] == k;
    }
  }

  lemma ClosedAt(was: seq<int>, now: seq<int>, u: seq<nat>, n: nat)
    requires ClosedUp(now, was, u) && n <= |was| && forall k | 0 <= k < |u| :: u[k] < n
    ensures |u| <= |now| && forall k | 0 <= k < |u| :: u[k] < n && now[k] == was[..n][u[k]]
  {
  }

  method WriteMap(toThis: array<int>, list: array<int>, len: nat, j: nat, ghost f: seq<int>, ghost marks: seq<bool>)
    requires toThis != list && len <= toThis.Length && len <= list.Length && len == |marks| <= |f|
    requires j == |Unmarked(marks, len)| && ClosedUp(list[..], f, Unmarked(marks, len))
    modifies toThis
    ensures Permutes(f[..len], len) ==>
              PartlyUndoes(toThis[..len], list[..], j, len)
              && forall v | 0 <= v < len :: Renumbered(toThis[..len], f[..len], Unmarked(marks, len), marks, v)
  {
    hide ClosedUp;
    hide Unmarked;
    hide Permutes;
    hide PartlyUndoes;
    hide Renumbered;
    ghost var u, now := Unmarked(marks, len), list[..];
    UnmarkedIn(marks, len);
    if Permutes(f[..len], len) {
      ClosedApart(f, now, u, marks, len);
    }
    WriteToThis(toThis, list, len, j);
    if Permutes(f[..len], len) {
      ClosedAt(f, now, u, len);
      forall v | 0 <= v < len ensures Renumbered(toThis[..len], f[..len], u, marks, v) {
        RenumberedAt(toThis[..len], f[..len], now, marks, len, v);
      }
    }
  }

  /** fribidi_remove_bidi_marks.  The unmarked characters stay in order, the
      levels and the V-to-L map with them; `back` is that map as it was before,
      or the one made privately.  If it was a permutation, the new L-to-V map
      gives every kept character its new place and has -1 exactly where a mark
      was, and the two maps are partial inverses. */
  method RemoveBidiMarks<T(0)>(str: array<T>, isMark: T -> bool, len: nat, toThis: array?<int>, fromThis: array?<int>,
                           levels: array?<nat>)
    returns (j: nat, ghost back: seq<int>)
    requires len <= str.Length && (fromThis != null ==> len <= fromThis.Length)
             && (levels != null ==> len <= levels.Length)
    requires toThis != null ==>
               len <= toThis.Length && toThis != fromThis && (str as object) != toThis && (toThis as object) != levels
    requires (str as object) != fromThis && (str as object) != levels
             && (fromThis != null ==> (fromThis as object) != levels)
    modifies str, toThis, fromThis, levels
    ensures var u := Unmarked(Marks(old(str[..len]), isMark), len);
            && j == |u| && ClosedUp(str[..], old(str[..]), u)
            && Follows(fromThis, old(Contents(fromThis)), u) && Follows(levels, old(Contents(levels)), u)
    ensures fromThis != null ==> back == old(fromThis[..len])
    ensures toThis != null && fromThis == null && old(Permutes(toThis[..len], len)) ==>
              Permutes(back, len) && Undoes(back, old(toThis[..len])) && Undoes(old(toThis[..len]), back)
    ensures toThis != null && Permutes(back, len) ==>
              var marks := Marks(old(str[..len]), isMark);
              forall v | 0 <= v < len :: Renumbered(toThis[..len], back, Unmarked(marks, len), marks, v)
    ensures toThis != null && fromThis != null && Permutes(back, len) ==>
              PartlyUndoes(toThis[..len], fromThis[..], j, len)
  {
    hide ClosedUp;
    hide Unmarked;
    hide Permutes;
    hide Undoes;
    hide PartlyUndoes;
    hide Renumbered;
    var list := fromThis;
    if toThis != null && fromThis == null {
      list := PrivateInverse(toThis, len);
      assert list[..len] == list[..];
    }
    ghost var f, marks := Contents(list), Marks(str[..len], isMark);
    back := if list != null then f[..len] else [];
    j := CloseUp(str, isMark, len, list, levels);
    if toThis != null {
      WriteMap(toThis, list, len, j, f, marks);
    }
  }
}
