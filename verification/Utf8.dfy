/** The UTF-8 converters (RFC 3629 section 3). */
module Utf8 {
  newtype byte = x: int | 0 <= x < 256

  const UNICODE_CHARS := 0x110000

  // ----- What a byte sequence stands for -----

  /** How many bytes the character that starts with `b` takes. */
  function Width(b: byte): (w: nat)
    ensures 1 <= w <= 4
  {
    if b <= 0x7f then 1 else if b <= 0xdf then 2 else if b <= 0xef then 3 else 4
  }

  /** The low `6`, `5`, `4` or `3` bits of a byte. */
  function Low(b: byte, bits: nat): nat {
    (b as int) % (if bits == 6 then 64 else if bits == 5 then 32 else if bits == 4 then 16 else 8)
  }

  function CharAt(s: seq<byte>, p: nat): nat
    requires p < |s| && p + Width(s[p]) <= |s|
  {
    match Width(s[p])
    case 1 => s[p] as nat
    case 2 => Low(s[p], 5) * 64 + Low(s[p + 1], 6)
    case 3 => Low(s[p], 4) * 4096 + Low(s[p + 1], 6) * 64 + Low(s[p + 2], 6)
    case _ => Low(s[p], 3) * 262144 + Low(s[p + 1], 6) * 4096 + Low(s[p + 2], 6) * 64 + Low(s[p + 3], 6)
  }

  /** The characters of `s` from position `p` on; a character cut short ends the
      text. */
  ghost function Decoded(s: seq<byte>, p: nat): seq<nat>
    requires p <= |s|
    decreases |s| - p
  {
    if p == |s| || p + Width(s[p]) > |s| then [] else [CharAt(s, p)] + Decoded(s, p + Width(s[p]))
  }

  lemma CharIs(s: seq<byte>, p: nat, c: nat, ss: seq<byte>)
    requires s <= ss && p < |s| && p + Width(s[p]) <= |s|
    requires c == var w := Width(ss[p]);
                  if w == 1 then ss[p] as nat
                  else if w == 2 then Low(ss[p], 5) * 64 + Low(ss[p + 1], 6)
                  else if w == 3 then Low(ss[p], 4) * 4096 + Low(ss[p + 1], 6) * 64 + Low(ss[p + 2], 6)
                  else Low(ss[p], 3) * 262144 + Low(ss[p + 1], 6) * 4096 + Low(ss[p + 2], 6) * 64 + Low(ss[p + 3], 6)
    ensures s[p] == ss[p] && CharAt(s, p) == c && Decoded(s, p) == [c] + Decoded(s, p + Width(s[p]))
  {
    hide Low;
  }

  lemma Reassociate(a: seq<nat>, c: nat, b: seq<nat>)
    ensures a + ([c] + b) == (a + [c]) + b
  {
  }

  lemma TailLater(a: seq<nat>, b: seq<nat>, n: nat)
    requires n < |a| == |b| && a[n..] == b[n..]
    ensures a[n + 1..] == b[n + 1..]
  {
    assert a[n + 1..] == a[n..][1..] && b[n + 1..] == b[n..][1..];
  }

  /** fribidi_utf8_to_unicode: reads nothing beyond `len` and writes no more
      characters than there are bytes. */
  method ToUnicode(ss: seq<byte>, len: nat, us: array<nat>) returns (length: nat)
    requires len <= |ss| && len <= us.Length
    modifies us
    ensures length <= len && us[..length] == Decoded(ss[..len], 0)
    ensures us[length..] == old(us[length..])
  {
    ghost var s, was := ss[..len], us[..];
    length := 0;
    var p := 0;
    while p < len
      invariant length <= p <= len
      invariant us[..length] + Decoded(s, p) == Decoded(s, 0)
      invariant us[length..] == was[length..]
    {
      var w := Width(ss[p]);
      if p + w > len {
        return;
      }
      var c := if w == 1 then ss[p] as nat
               else if w == 2 then Low(ss[p], 5) * 64 + Low(ss[p + 1], 6)
               else if w == 3 then Low(ss[p], 4) * 4096 + Low(ss[p + 1], 6) * 64 + Low(ss[p + 2], 6)
               else Low(ss[p], 3) * 262144 + Low(ss[p + 1], 6) * 4096 + Low(ss[p + 2], 6) * 64 + Low(ss[p + 3], 6);
      CharIs(s, p, c, ss);
      ghost var before := us[..length];
      TailLater(us[..], was, length);
      us[length] := c;
      assert us[..length + 1] == before + [c];
      Reassociate(before, c, Decoded(s, p + w));
      length := length + 1;
      p := p + w;
    }
  }

  // ----- What a character is written as -----

  /** The bytes of one character; none for what is not a code point. */
  function Bytes(c: nat): (s: seq<byte>)
    ensures |s| <= 4
  {
    if c <= 0x7f then [c as byte]
    else if c <= 0x7ff then [(0xc0 + c / 64) as byte, (0x80 + c % 64) as byte]
    else if c <= 0xffff then [(0xe0 + c / 4096) as byte, (0x80 + c / 64 % 64) as byte, (0x80 + c % 64) as byte]
    else if c < UNICODE_CHARS then
      [(0xf0 + c / 262144 % 8) as byte, (0x80 + c / 4096 % 64) as byte, (0x80 + c / 64 % 64) as byte,
        (0x80 + c % 64) as byte]
    else []
  }

  ghost function Encoded(us: seq<nat>): (s: seq<byte>)
    ensures |s| <= 4 * |us|
  {
    if us == [] then [] else Encoded(us[..|us| - 1]) + Bytes(us[|us| - 1])
  }

  /** The writes of one branch. */
  method PutBytes(ss: array<byte>, n0: nat, bytes: seq<byte>, ghost was: seq<byte>) returns (n: nat)
    requires n0 + |bytes| <= ss.Length == |was| && ss[n0..] == was[n0..]
    modifies ss
    ensures n == n0 + |bytes| && ss[..n] == old(ss[..n0]) + bytes && ss[n..] == was[n..]
  {
    n := n0;
    ghost var head := ss[..n0];
    while n < n0 + |bytes|
      invariant n0 <= n <= n0 + |bytes|
      invariant ss[..n] == head + bytes[..n - n0]
      invariant ss[n..] == was[n..]
    {
      ghost var now := ss[..];
      ss[n] := bytes[n - n0];
      assert ss[..n + 1] == now[..n] + [bytes[n - n0]];
      assert ss[n + 1..] == now[n..][1..] == was[n..][1..] == was[n + 1..];
      n := n + 1;
    }
  }

  /** fribidi_unicode_to_utf8, with the NUL it puts at the end. */
  method ToUtf8(us: seq<nat>, ss: array<byte>) returns (n: nat)
    requires 4 * |us| < ss.Length
    modifies ss
    ensures n <= 4 * |us| && ss[..n] == Encoded(us) && ss[n] == 0
    ensures ss[n + 1..] == old(ss[n + 1..])
  {
    hide Bytes;
    n := 0;
    ghost var was := ss[..];
    for i := 0 to |us|
      invariant n <= 4 * i && ss[..n] == Encoded(us[..i])
      invariant ss[n..] == was[n..]
    {
      assert us[..i + 1][..i] == us[..i];
      n := PutBytes(ss, n, Bytes(us[i]), was);
    }
    assert us[..|us|] == us;
    ghost var s := ss[..];
    ss[n] := 0;
    assert ss[n + 1..] == s[n..][1..] == was[n..][1..] == was[n + 1..];
  }

  // ----- Round trip -----

  /** The code points among the characters. */
  ghost function CodePoints(us: seq<nat>): seq<nat> {
    if us == [] then [] else CodePoints(us[..|us| - 1]) + if us[|us| - 1] < UNICODE_CHARS then [us[|us| - 1]] else []
  }

  lemma SixBits(c: nat)
    ensures c == c / 64 * 64 + c % 64 && c % 64 < 64
  {
  }

  lemma TwoBack(c: nat)
    requires 0x7f < c <= 0x7ff
    ensures var b := Bytes(c); Width(b[0]) == |b| == 2 && CharAt(b, 0) == c
  {
    SixBits(c);
    assert c / 64 < 32 && (0xc0 + c / 64) % 32 == c / 64;
  }

  /** The marker bits above are cut off again. */
  lemma LowBits(marker: nat, v: nat, bits: nat)
    requires (bits == 6 && marker == 0x80 && v < 64) || (bits == 4 && marker == 0xe0 && v < 16)
             || (bits == 3 && marker == 0xf0 && v < 8)
    ensures marker + v < 256 && Low((marker + v) as byte, bits) == v
  {
  }

  lemma Slices(c: nat)
    ensures c / 4096 == c / 64 / 64 && c / 262144 == c / 4096 / 64
  {
  }

  lemma ThreeBack(c: nat)
    requires 0x7ff < c <= 0xffff
    ensures var b := Bytes(c); Width(b[0]) == |b| == 3 && CharAt(b, 0) == c
  {
    hide Low;
    SixBits(c);
    SixBits(c / 64);
    Slices(c);
    LowBits(0xe0, c / 4096, 4);
    LowBits(0x80, c / 64 % 64, 6);
    LowBits(0x80, c % 64, 6);
  }

  lemma FourBack(c: nat)
    requires 0xffff < c < UNICODE_CHARS
    ensures var b := Bytes(c); Width(b[0]) == |b| == 4 && CharAt(b, 0) == c
  {
    hide Low;
    SixBits(c);
    SixBits(c / 64);
    SixBits(c / 4096);
    Slices(c);
    assert c / 262144 < 8;
    LowBits(0xf0, c / 262144 % 8, 3);
    LowBits(0x80, c / 4096 % 64, 6);
    LowBits(0x80, c / 64 % 64, 6);
    LowBits(0x80, c % 64, 6);
  }

  predicate Continuation(b: byte) { 0x80 <= b <= 0xbf }

  /** Every code point is written in the shortest form that RFC 3629 allows: the
      first byte tells the length, all others are continuation bytes. */
  lemma WellFormed(c: nat)
    requires c < UNICODE_CHARS
    ensures var b := Bytes(c);
            && (c <= 0x7f ==> |b| == 1 && b[0] <= 0x7f)
            && (0x80 <= c <= 0x7ff ==> |b| == 2 && 0xc2 <= b[0] <= 0xdf)
            && (0x800 <= c <= 0xffff ==> |b| == 3 && 0xe0 <= b[0] <= 0xef && (b[0] == 0xe0 ==> b[1] >= 0xa0))
            && (0x10000 <= c ==> |b| == 4 && 0xf0 <= b[0] <= 0xf4 && (b[0] == 0xf0 ==> b[1] >= 0x90))
            && (b[0] == 0xf4 ==> b[1] <= 0x8f)
            && forall i | 1 <= i < |b| :: Continuation(b[i])
  {
  }

  /** The bits cut apart come together again. */
  lemma BitsBack(c: nat)
    requires c < UNICODE_CHARS
    ensures var b := Bytes(c); |b| > 0 && Width(b[0]) == |b| && CharAt(b, 0) == c
  {
    if 0x7f < c <= 0x7ff {
      TwoBack(c);
    } else if 0x7ff < c <= 0xffff {
      ThreeBack(c);
    } else if 0xffff < c {
      FourBack(c);
    }
  }

  /** One character read back. */
  lemma CharBack(s: seq<byte>, p: nat, c: nat)
    requires c < UNICODE_CHARS && p + |Bytes(c)| <= |s| && s[p..p + |Bytes(c)|] == Bytes(c)
    ensures p < |s| && Width(s[p]) == |Bytes(c)| && CharAt(s, p) == c
  {
    var b := Bytes(c);
    forall i | 0 <= i < |b| ensures s[p + i] == b[i] {
      assert s[p + i] == s[p..p + |b|][i];
    }
    BitsBack(c);
  }

  lemma EncodedLast(us: seq<nat>)
    requires us != []
    ensures var before, c := us[..|us| - 1], us[|us| - 1];
            && Encoded(us) == Encoded(before) + Bytes(c)
            && CodePoints(us) == CodePoints(before) + if c < UNICODE_CHARS then [c] else []
  {
  }

  lemma DecodeOne(s: seq<byte>, p: nat, c: nat)
    requires c < UNICODE_CHARS && p + |Bytes(c)| <= |s| && s[p..p + |Bytes(c)|] == Bytes(c)
    ensures Decoded(s, p) == [c] + Decoded(s, p + |Bytes(c)|)
  {
    hide Bytes;
    hide Width;
    hide CharAt;
    CharBack(s, p, c);
  }

  lemma NoBytes(c: nat)
    requires c >= UNICODE_CHARS
    ensures Bytes(c) == []
  {
  }

  /** Decoding what comes after the bytes of `us`. */
  lemma {:induction false} DecodeAfter(us: seq<nat>, rest: seq<byte>)
    ensures Decoded(Encoded(us) + rest, 0) == CodePoints(us) + Decoded(Encoded(us) + rest, |Encoded(us)|)
    decreases |us|
  {
    hide Bytes;
    hide Decoded;
    if us == [] {
      assert Encoded(us) + rest == rest;
    } else {
      hide Encoded;
      hide CodePoints;
      var before, c := us[..|us| - 1], us[|us| - 1];
      EncodedLast(us);
      var s := Encoded(us) + rest;
      assert s == Encoded(before) + (Bytes(c) + rest);
      DecodeAfter(before, Bytes(c) + rest);
      if c < UNICODE_CHARS {
        DecodeOne(s, |Encoded(before)|, c);
        Reassociate(CodePoints(before), c, Decoded(s, |Encoded(us)|));
      } else {
        NoBytes(c);
      }
    }
  }

  lemma {:induction false} AllCodePoints(us: seq<nat>)
    requires forall i | 0 <= i < |us| :: us[i] < UNICODE_CHARS
    ensures CodePoints(us) == us
  {
    if us != [] {
      AllCodePoints(us[..|us| - 1]);
    }
  }

  /** Decoding undoes encoding: every code point comes back, and nothing else. */
  lemma RoundTrip(us: seq<nat>)
    ensures Decoded(Encoded(us), 0) == CodePoints(us)
    ensures (forall i | 0 <= i < |us| :: us[i] < UNICODE_CHARS) ==> Decoded(Encoded(us), 0) == us
  {
    DecodeAfter(us, []);
    assert Encoded(us) + [] == Encoded(us);
    if forall i | 0 <= i < |us| :: us[i] < UNICODE_CHARS {
      AllCodePoints(us);
    }
  }
}
