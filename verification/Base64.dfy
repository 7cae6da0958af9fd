/** The standard base64 encoding of section 4 of RFC 4648 with padding, as Go's `base64.StdEncoding` has it:
    the decoder skips carriage returns and line feeds and ignores the unused bits of the last symbol. */
module Base64 {
  import opened Wrappers

  type Byte = x: int | 0 <= x < 256
  type Bytes = seq<Byte>

  const PAD: Byte := 61
  const LF: Byte := 10
  const CR: Byte := 13

  function Symbol(i: nat): Byte
    requires i < 64
  {
    if i < 26 then 65 + i else if i < 52 then 71 + i else if i < 62 then i - 4 else if i == 62 then 43 else 47
  }

  /** The place of a symbol in the alphabet. */
  function Index(c: Byte): (i: Option<nat>)
    ensures i.Some? ==> i.value < 64 && Symbol(i.value) == c
  {
    IndexFrom(c, 0)
  }

  function IndexFrom(c: Byte, k: nat): (i: Option<nat>)
    requires k <= 64
    ensures i.Some? ==> i.value < 64 && Symbol(i.value) == c
    decreases 64 - k
  {
    if k == 64 then None else if Symbol(k) == c then Some(k) else IndexFrom(c, k + 1)
  }

  function Encode(b: Bytes): Bytes {
    if b == [] then []
    else if |b| == 1 then [Symbol(b[0] / 4), Symbol(b[0] % 4 * 16), PAD, PAD]
    else if |b| == 2 then
      [Symbol(b[0] / 4), Symbol(b[0] % 4 * 16 + b[1] / 16), Symbol(b[1] % 16 * 4), PAD]
    else
      [Symbol(b[0] / 4), Symbol(b[0] % 4 * 16 + b[1] / 16), Symbol(b[1] % 16 * 4 + b[2] / 64), Symbol(b[2] % 64)]
      + Encode(b[3..])
  }

  function WithoutLineBreaks(s: Bytes): Bytes {
    if s == [] then []
    else (if s[0] == LF || s[0] == CR then [] else [s[0]]) + WithoutLineBreaks(s[1..])
  }

  function DecodeQuanta(s: Bytes): Option<Bytes> {
    if s == [] then Some([])
    else if |s| < 4 then None
    else
      var a, b, c, d := Index(s[0]), Index(s[1]), Index(s[2]), Index(s[3]);
      if a.None? || b.None? then None
      else if s[2] == PAD then
        if s[3] == PAD && |s| == 4 then Some([a.value * 4 + b.value / 16]) else None
      else if c.None? then None
      else if s[3] == PAD then
        if |s| == 4 then Some([a.value * 4 + b.value / 16, b.value % 16 * 16 + c.value / 4]) else None
      else if d.None? then None
      else
        var rest := DecodeQuanta(s[4..]);
        if rest.None? then None
        else Some([a.value * 4 + b.value / 16, b.value % 16 * 16 + c.value / 4, c.value % 4 * 64 + d.value]
                  + rest.value)
  }

  function Decode(s: Bytes): Option<Bytes> {
    DecodeQuanta(WithoutLineBreaks(s))
  }

  lemma {:induction false} FoundFrom(i: nat, k: nat)
    requires k <= i < 64
    ensures IndexFrom(Symbol(i), k) == Some(i)
    decreases i - k
  {
    if k < i {
      FoundFrom(i, k + 1);
    }
  }

  lemma SymbolIndex(i: nat)
    requires i < 64
    ensures Index(Symbol(i)) == Some(i) && Symbol(i) != PAD
  {
    FoundFrom(i, 0);
  }

  /** An encoding holds alphabet symbols and padding only; in particular no line break and no `|`. */
  lemma {:induction false} EncodeAlphabet(b: Bytes)
    ensures forall i :: 0 <= i < |Encode(b)| ==> Index(Encode(b)[i]).Some? || Encode(b)[i] == PAD
  {
    forall k: nat | k < 64 ensures Index(Symbol(k)).Some? {
      SymbolIndex(k);
    }
    if |b| >= 3 {
      EncodeAlphabet(b[3..]);
    }
  }

  lemma {:induction false} NothingToSkip(s: Bytes)
    requires forall i :: 0 <= i < |s| ==> s[i] != LF && s[i] != CR
    ensures WithoutLineBreaks(s) == s
  {
    if s != [] {
      NothingToSkip(s[1..]);
    }
  }

  /** What four indices stand for. */
  lemma GroupArithmetic(x: Byte, y: Byte, z: Byte)
    ensures x / 4 < 64 && x % 4 * 16 + y / 16 < 64 && y % 16 * 4 + z / 64 < 64 && z % 64 < 64
    ensures x / 4 * 4 + (x % 4 * 16 + y / 16) / 16 == x
    ensures (x % 4 * 16 + y / 16) % 16 * 16 + (y % 16 * 4 + z / 64) / 4 == y
    ensures (y % 16 * 4 + z / 64) % 4 * 64 + z % 64 == z
  {
  }

  lemma DecodeOneByte(a: nat, b: nat)
    requires a < 64 && b < 64
    ensures DecodeQuanta([Symbol(a), Symbol(b), PAD, PAD]) == Some([a * 4 + b / 16])
  {
    SymbolIndex(a);
    SymbolIndex(b);
  }

  lemma DecodeTwoBytes(a: nat, b: nat, c: nat)
    requires a < 64 && b < 64 && c < 64
    ensures DecodeQuanta([Symbol(a), Symbol(b), Symbol(c), PAD]) == Some([a * 4 + b / 16, b % 16 * 16 + c / 4])
  {
    SymbolIndex(a);
    SymbolIndex(b);
    SymbolIndex(c);
  }

  lemma DecodeThreeBytes(a: nat, b: nat, c: nat, d: nat, x: Byte, y: Byte, z: Byte, rest: Bytes)
    requires a < 64 && b < 64 && c < 64 && d < 64 && DecodeQuanta(rest).Some?
    requires a * 4 + b / 16 == x && b % 16 * 16 + c / 4 == y && c % 4 * 64 + d == z
    ensures DecodeQuanta([Symbol(a), Symbol(b), Symbol(c), Symbol(d)] + rest)
         == Some([x, y, z] + DecodeQuanta(rest).value)
  {
    SymbolIndex(a);
    SymbolIndex(b);
    SymbolIndex(c);
    SymbolIndex(d);
    assert ([Symbol(a), Symbol(b), Symbol(c), Symbol(d)] + rest)[4..] == rest;
  }

  lemma TwoByteRoundTrip(x: Byte, y: Byte, e: Bytes)
    requires e == [Symbol(x / 4), Symbol(x % 4 * 16 + y / 16), Symbol(y % 16 * 4), PAD]
    ensures DecodeQuanta(e) == Some([x, y])
  {
    DecodeTwoBytes(x / 4, x % 4 * 16 + y / 16, y % 16 * 4);
    assert x / 4 * 4 + (x % 4 * 16 + y / 16) / 16 == x;
    assert (x % 4 * 16 + y / 16) % 16 * 16 + y % 16 * 4 / 4 == y;
  }

  lemma ThreeByteRoundTrip(x: Byte, y: Byte, z: Byte, rest: Bytes)
    requires DecodeQuanta(rest).Some?
    ensures DecodeQuanta([Symbol(x / 4), Symbol(x % 4 * 16 + y / 16), Symbol(y % 16 * 4 + z / 64), Symbol(z % 64)]
                         + rest)
         == Some([x, y, z] + DecodeQuanta(rest).value)
  {
    GroupArithmetic(x, y, z);
    DecodeThreeBytes(x / 4, x % 4 * 16 + y / 16, y % 16 * 4 + z / 64, z % 64, x, y, z, rest);
  }

  lemma OneByteRoundTrip(x: Byte, e: Bytes)
    requires e == [Symbol(x / 4), Symbol(x % 4 * 16), PAD, PAD]
    ensures DecodeQuanta(e) == Some([x])
  {
    DecodeOneByte(x / 4, x % 4 * 16);
    assert x / 4 * 4 + x % 4 * 16 / 16 == x;
  }

  lemma {:induction false} QuantaRoundTrip(b: Bytes)
    ensures DecodeQuanta(Encode(b)) == Some(b)
  {
    if |b| == 1 {
      assert b == [b[0]];
      OneByteRoundTrip(b[0], Encode(b));
    } else if |b| == 2 {
      assert b == [b[0], b[1]];
      TwoByteRoundTrip(b[0], b[1], Encode(b));
    } else if |b| >= 3 {
      QuantaRoundTrip(b[3..]);
      ThreeByteRoundTrip(b[0], b[1], b[2], Encode(b[3..]));
      assert b == [b[0], b[1], b[2]] + b[3..];
    }
  }

  /** The alphabet of the standard: capital letters, small letters, digits, plus and slash. */
  lemma StandardAlphabet(i: nat)
    requires i < 64
    ensures i < 26 ==> Symbol(i) == 'A' as int + i
    ensures 26 <= i < 52 ==> Symbol(i) == 'a' as int + (i - 26)
    ensures 52 <= i < 62 ==> Symbol(i) == '0' as int + (i - 52)
    ensures Symbol(62) == '+' as int && Symbol(63) == '/' as int
  {
  }

  predicate InAlphabet(c: Byte) { exists i :: 0 <= i < 64 && Symbol(i) == c }

  lemma {:induction false} IndexExactly(c: Byte, k: nat)
    requires k <= 64
    ensures IndexFrom(c, k).Some? <==> exists i :: k <= i < 64 && Symbol(i) == c
    decreases 64 - k
  {
    if k < 64 {
      IndexExactly(c, k + 1);
    }
  }

  /** Groups of four symbols, the last of which may end in one or two padding characters. */
  predicate WellFormed(s: Bytes) {
    s != [] ==>
      && |s| >= 4 && InAlphabet(s[0]) && InAlphabet(s[1])
      && (InAlphabet(s[2]) || (s[2] == 61 && s[3] == 61 && |s| == 4))
      && (InAlphabet(s[3]) || (s[3] == 61 && |s| == 4))
      && WellFormed(s[4..])
  }

  lemma PadIsNoSymbol()
    ensures !InAlphabet(61)
  {
  }

  lemma {:induction false} QuantaExactly(s: Bytes)
    ensures DecodeQuanta(s).Some? <==> WellFormed(s)
  {
    if |s| >= 4 {
      IndexExactly(s[0], 0);
      IndexExactly(s[1], 0);
      IndexExactly(s[2], 0);
      IndexExactly(s[3], 0);
      PadIsNoSymbol();
      QuantaExactly(s[4..]);
      if |s| == 4 {
        assert s[4..] == [];
      }
    }
  }

  /** What can be decoded: the well-formed texts, once line breaks are taken out. */
  lemma DecodesExactly(s: Bytes)
    ensures Decode(s).Some? <==> WellFormed(WithoutLineBreaks(s))
  {
    QuantaExactly(WithoutLineBreaks(s));
  }

  predicate Skipped(c: Byte) { c == LF || c == CR }

  lemma BreaksFirst(s: Bytes)
    requires s != []
    ensures WithoutLineBreaks(s) == (if Skipped(s[0]) then [] else [s[0]]) + WithoutLineBreaks(s[1..])
  {
  }

  lemma Regroup(a: Bytes, b: Bytes, c: Bytes)
    ensures a + (b + c) == (a + b) + c
  {
  }

  lemma {:induction false} BreaksOfTwo(a: Bytes, b: Bytes)
    ensures WithoutLineBreaks(a + b) == WithoutLineBreaks(a) + WithoutLineBreaks(b)
  {
    if a == [] {
      assert a + b == b;
    } else {
      BreaksOfTwo(a[1..], b);
      BreaksFirst(a);
      BreaksFirst(a + b);
      assert (a + b)[1..] == a[1..] + b && (a + b)[0] == a[0];
      Regroup(if Skipped(a[0]) then [] else [a[0]], WithoutLineBreaks(a[1..]), WithoutLineBreaks(b));
    }
  }

  /** A line feed or a carriage return anywhere makes no difference. */
  lemma LineBreaksSkipped(a: Bytes, c: Byte, b: Bytes)
    requires c == 10 || c == 13
    ensures Decode(a + [c] + b) == Decode(a + b)
  {
    BreaksOfTwo(a + [c], b);
    BreaksOfTwo(a, [c]);
    BreaksOfTwo(a, b);
    assert [c][1..] == [];
    assert WithoutLineBreaks(a) + [] == WithoutLineBreaks(a);
  }

  /** Decoding an encoding gives the bytes back, so no two byte strings share an encoding. */
  lemma RoundTrip(b: Bytes)
    ensures Decode(Encode(b)) == Some(b)
  {
    EncodeAlphabet(b);
    NothingToSkip(Encode(b));
    QuantaRoundTrip(b);
  }

  lemma Injective(a: Bytes, b: Bytes)
    requires Encode(a) == Encode(b)
    ensures a == b
  {
    RoundTrip(a);
    RoundTrip(b);
  }

  lemma {:induction false} SkippingShortens(s: Bytes)
    ensures |WithoutLineBreaks(s)| <= |s|
  {
    if s != [] {
      SkippingShortens(s[1..]);
    }
  }

  lemma DecodeFirst(s: Bytes)
    requires s != [] && DecodeQuanta(s).Some?
    ensures |s| >= 4
    ensures |s| == 4 || DecodeQuanta(s[4..]).Some?
    ensures |s| == 4 ==> |DecodeQuanta(s).value| <= 3
    ensures |s| > 4 ==> |DecodeQuanta(s).value| == 3 + |DecodeQuanta(s[4..]).value|
  {
    if |s| == 4 {
      assert s[4..] == [];
      assert DecodeQuanta([]) == Some([]);
    }
  }

  lemma OneQuantumMore(n: nat, d: nat)
    requires n % 4 == 0 && 4 * d <= 3 * n
    ensures (n + 4) % 4 == 0 && 4 * (3 + d) <= 3 * (n + 4)
  {
  }

  lemma {:induction false} DecodingShortens(s: Bytes)
    requires DecodeQuanta(s).Some?
    ensures |s| % 4 == 0 && 4 * |DecodeQuanta(s).value| <= 3 * |s|
  {
    if s != [] {
      DecodeFirst(s);
      if |s| > 4 {
        var rest := s[4..];
        DecodingShortens(rest);
        OneQuantumMore(|rest|, |DecodeQuanta(rest).value|);
        assert |s| == |rest| + 4;
      }
    }
  }
}
