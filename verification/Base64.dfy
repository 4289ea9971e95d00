/** URL-safe base64 without padding (RFC 4648, sections 3.2 and 5). */
module Base64 {
  import opened Wrappers

  type Byte = n: nat | n < 256

  type Bytes = seq<Byte>

  type Digit = n: nat | n < 64

  function CharOf(d: Digit): char {
    var n: int := d;
    if n < 26 then ('A' as int + n) as char
    else if n < 52 then ('a' as int + n - 26) as char
    else if n < 62 then ('0' as int + n - 52) as char
    else if n == 62 then '-'
    else '_'
  }

  function DigitOf(c: char): Option<Digit> {
    if 'A' <= c <= 'Z' then Some(c as int - 'A' as int)
    else if 'a' <= c <= 'z' then Some(c as int - 'a' as int + 26)
    else if '0' <= c <= '9' then Some(c as int - '0' as int + 52)
    else if c == '-' then Some(62)
    else if c == '_' then Some(63)
    else None
  }

  /** The characters are those of table 2 of RFC 4648, in its order: A to Z, a to z, 0 to 9, minus and underline. */
  lemma CharsFollowTheAlphabet(d: Digit)
    ensures CharOf(0) == 'A' && CharOf(25) == 'Z' && CharOf(26) == 'a' && CharOf(51) == 'z' && CharOf(52) == '0'
    ensures CharOf(61) == '9' && CharOf(62) == '-' && CharOf(63) == '_'
    ensures d < 63 && d != 25 && d != 51 && d != 61 && d != 62 ==> CharOf(d + 1) as int == CharOf(d) as int + 1
  {
  }

  lemma CharsAndDigits(d: Digit, c: char)
    ensures DigitOf(CharOf(d)) == Some(d)
    ensures DigitOf(c).Some? ==> CharOf(DigitOf(c).value) == c
  {
  }

  // -------------------------------------------------------------- digits

  // Three bytes x, y, z as four digits, and four digits p, q, r, s as three bytes.
  function D0(x: Byte): Digit { x / 4 }

  function D1(x: Byte, y: Byte): Digit { x % 4 * 16 + y / 16 }

  function D2(y: Byte, z: Byte): Digit { y % 16 * 4 + z / 64 }

  function D3(z: Byte): Digit { z % 64 }

  function B0(p: Digit, q: Digit): Byte {
    var hi: int := p;
    hi * 4 + q / 16
  }

  function B1(q: Digit, r: Digit): Byte {
    var hi: int := q % 16;
    hi * 16 + r / 4
  }

  function B2(r: Digit, s: Digit): Byte {
    var hi: int := r % 4;
    hi * 64 + s
  }

  /** Six bits at a time; a last group of one or two bytes gives two or three digits. */
  function ToDigits(b: Bytes): seq<Digit> {
    if b == [] then []
    else if |b| == 1 then [D0(b[0]), D1(b[0], 0)]
    else if |b| == 2 then [D0(b[0]), D1(b[0], b[1]), D2(b[1], 0)]
    else [D0(b[0]), D1(b[0], b[1]), D2(b[1], b[2]), D3(b[2])] + ToDigits(b[3..])
  }

  /** Whole groups of four digits, and then two or three; the spare bits of the last digit are dropped. */
  function FromDigits(d: seq<Digit>): Bytes
    requires |d| % 4 != 1
    decreases |d|
  {
    if d == [] then []
    else if |d| == 2 then [B0(d[0], d[1])]
    else if |d| == 3 then [B0(d[0], d[1]), B1(d[1], d[2])]
    else [B0(d[0], d[1]), B1(d[1], d[2]), B2(d[2], d[3])] + FromDigits(d[4..])
  }

  /** The bits of the last digit that no byte uses. */
  function SpareBits(d: seq<Digit>): nat
    requires |d| % 4 != 1
  {
    if |d| % 4 == 2 then d[|d| - 1] % 16
    else if |d| % 4 == 3 then d[|d| - 1] % 4
    else 0
  }

  lemma {:induction false} DigitCount(b: Bytes)
    ensures |ToDigits(b)| % 4 == if |b| % 3 == 0 then 0 else |b| % 3 + 1
  {
    hide D0, D1, D2, D3;
    if |b| > 2 {
      DigitCount(b[3..]);
      assert |ToDigits(b)| == 4 + |ToDigits(b[3..])|;
    }
  }

  lemma ThreeBytes(x: Byte, y: Byte, z: Byte)
    ensures B0(D0(x), D1(x, y)) == x && B1(D1(x, y), D2(y, z)) == y && B2(D2(y, z), D3(z)) == z
    ensures D1(x, 0) % 16 == 0 && D2(y, 0) % 4 == 0
  {
  }

  lemma {:induction false} DigitsReadBack(b: Bytes)
    ensures |ToDigits(b)| % 4 != 1
    ensures FromDigits(ToDigits(b)) == b && SpareBits(ToDigits(b)) == 0
  {
    hide D0, D1, D2, D3, B0, B1, B2, SpareBits;
    DigitCount(b);
    var d := ToDigits(b);
    if |b| > 2 {
      var rest := ToDigits(b[3..]);
      DigitsReadBack(b[3..]);
      ThreeBytes(b[0], b[1], b[2]);
      assert d[4..] == rest;
      assert b == [b[0], b[1], b[2]] + b[3..];
      SpareOfRest(d);
    } else if |b| == 2 {
      ThreeBytes(b[0], b[1], 0);
      SpareOf(d);
    } else if |b| == 1 {
      ThreeBytes(b[0], 0, 0);
      SpareOf(d);
    } else {
      NoSpareBits(d);
    }
  }

  lemma SpareOf(d: seq<Digit>)
    requires d != [] && |d| % 4 != 1
    ensures SpareBits(d) == if |d| % 4 == 2 then d[|d| - 1] % 16 else if |d| % 4 == 3 then d[|d| - 1] % 4 else 0
  {
  }

  lemma SpareOfRest(d: seq<Digit>)
    requires |d| % 4 != 1 && |d| >= 4
    ensures |d[4..]| % 4 != 1 && SpareBits(d) == SpareBits(d[4..])
  {
  }

  lemma FourDigits(p: Digit, q: Digit, r: Digit, s: Digit)
    ensures D0(B0(p, q)) == p && D1(B0(p, q), B1(q, r)) == q && D2(B1(q, r), B2(r, s)) == r && D3(B2(r, s)) == s
    ensures D1(B0(p, q), 0) == q - q % 16 && D2(B1(q, r), 0) == r - r % 4
  {
  }

  /** `again` is `d` with the spare bits of the last digit cleared. */
  ghost predicate Cleared(again: seq<Digit>, d: seq<Digit>)
    requires |d| % 4 != 1
  {
    && |again| == |d| && (forall i :: 0 <= i < |d| - 1 ==> again[i] == d[i])
    && (d != [] ==> again[|d| - 1] == d[|d| - 1] - SpareBits(d))
  }

  /** Decoding then encoding clears the spare bits and changes nothing else. */
  lemma {:induction false} BytesReadBack(d: seq<Digit>)
    requires |d| % 4 != 1
    ensures Cleared(ToDigits(FromDigits(d)), d)
    decreases |d|
  {
    hide D0, D1, D2, D3, B0, B1, B2, SpareBits;
    if |d| >= 4 {
      var again := ToDigits(FromDigits(d[4..]));
      BytesReadBack(d[4..]);
      FourDigits(d[0], d[1], d[2], d[3]);
      var b := FromDigits(d);
      assert b[3..] == FromDigits(d[4..]);
      assert ToDigits(b) == [d[0], d[1], d[2], d[3]] + again;
      ClearedGroup(again, d);
    } else if |d| == 3 {
      FourDigits(d[0], d[1], d[2], 0);
      SpareOf(d);
    } else if |d| == 2 {
      FourDigits(d[0], d[1], 0, 0);
      SpareOf(d);
    }
  }

  lemma ClearedGroup(again: seq<Digit>, d: seq<Digit>)
    requires |d| % 4 != 1 && |d| >= 4 && |d[4..]| % 4 != 1 && Cleared(again, d[4..])
    ensures Cleared([d[0], d[1], d[2], d[3]] + again, d)
  {
    hide SpareBits;
    SpareOfRest(d);
    var all := [d[0], d[1], d[2], d[3]] + again;
    forall i | 4 <= i < |d| ensures all[i] == again[i - 4] && d[i] == d[4..][i - 4] {
    }
    if |d| == 4 {
      SpareOf(d);
    }
  }

  // -------------------------------------------------------------- text

  function Encode(b: Bytes): (s: string) {
    var d := ToDigits(b);
    seq(|d|, i requires 0 <= i < |d| => CharOf(d[i]))
  }

  predicate InAlphabet(s: string) {
    forall i :: 0 <= i < |s| ==> DigitOf(s[i]).Some?
  }

  function Digits(s: string): (d: seq<Digit>)
    requires InAlphabet(s)
    ensures |d| == |s|
  {
    seq(|s|, i requires 0 <= i < |s| => DigitOf(s[i]).value)
  }

  /** Nothing for a character outside the alphabet or an impossible length. */
  function Decode(s: string): Option<Bytes> {
    if !InAlphabet(s) || |s| % 4 == 1 then None else Some(FromDigits(Digits(s)))
  }

  lemma EncodedText(b: Bytes)
    ensures InAlphabet(Encode(b)) && Digits(Encode(b)) == ToDigits(b) && |Encode(b)| % 4 != 1
  {
    hide ToDigits, CharOf, DigitOf;
    DigitCount(b);
    forall i | 0 <= i < |Encode(b)| ensures DigitOf(Encode(b)[i]) == Some(ToDigits(b)[i]) {
      CharsAndDigits(ToDigits(b)[i], 'A');
    }
  }

  /** Encoding reads back, for every sequence of bytes. */
  lemma DecodeUndoesEncode(b: Bytes)
    ensures Decode(Encode(b)) == Some(b)
  {
    hide Encode, ToDigits, FromDigits;
    EncodedText(b);
    DigitsReadBack(b);
  }

  /** A text that decodes is the encoding of what it decodes to exactly when its spare bits are clear. */
  lemma EncodeUndoesDecodeExactly(s: string)
    requires Decode(s).Some?
    ensures |Encode(Decode(s).value)| == |s|
    ensures Encode(Decode(s).value) == s <==> SpareBits(Digits(s)) == 0
  {
    hide ToDigits, FromDigits, CharOf, DigitOf, SpareBits;
    var d := Digits(s);
    var e := Encode(Decode(s).value);
    BytesReadBack(d);
    var again := ToDigits(FromDigits(d));
    forall i | 0 <= i < |s| ensures e[i] == s[i] <==> again[i] == d[i] {
      CharsAndDigits(again[i], s[i]);
      CharsAndDigits(d[i], e[i]);
    }
    if s != [] {
      assert again[|d| - 1] == d[|d| - 1] - SpareBits(d);
      if SpareBits(d) == 0 {
        assert forall i :: 0 <= i < |s| ==> e[i] == s[i];
      } else {
        assert e[|d| - 1] != s[|d| - 1];
      }
    } else {
      NoSpareBits(d);
    }
  }

  lemma NoSpareBits(d: seq<Digit>)
    requires d == []
    ensures SpareBits(d) == 0
  {
  }

  /** Setting a spare bit gives another text with the same bytes. */
  lemma SpareBitsAreIgnored(b: Bytes)
    requires |b| % 3 != 0
    ensures exists s: string :: s != Encode(b) && Decode(s) == Some(b)
  {
    hide ToDigits, FromDigits, CharOf, DigitOf, Encode;
    var d := ToDigits(b);
    DigitCount(b);
    assert d != [];
    DigitsReadBack(b);
    var n := |d| - 1;
    var other := d[n := d[n] + 1];
    LastDigitHasRoom(d);
    SameBytes(d, other);
    var s := Text(other);
    TextOfDigits(other);
    EncodedText(b);
    assert Digits(s)[n] != Digits(Encode(b))[n];
    assert Decode(s) == Some(b);
  }

  lemma LastDigitHasRoom(d: seq<Digit>)
    requires |d| % 4 != 1 && |d| % 4 != 0 && SpareBits(d) == 0
    ensures d[|d| - 1] + 1 < 64
  {
  }

  function Text(d: seq<Digit>): string {
    seq(|d|, i requires 0 <= i < |d| => CharOf(d[i]))
  }

  lemma TextOfDigits(d: seq<Digit>)
    ensures InAlphabet(Text(d)) && Digits(Text(d)) == d
  {
    hide CharOf, DigitOf;
    forall i | 0 <= i < |d| ensures DigitOf(Text(d)[i]) == Some(d[i]) {
      CharsAndDigits(d[i], 'A');
    }
  }

  lemma {:induction false} SameBytes(d: seq<Digit>, other: seq<Digit>)
    requires |d| % 4 != 1 && |d| % 4 != 0 && |other| == |d| && SpareBits(d) == 0
    requires other[|d| - 1] == d[|d| - 1] + 1 && other[..|d| - 1] == d[..|d| - 1]
    ensures FromDigits(other) == FromDigits(d)
    decreases |d|
  {
    hide D0, D1, D2, D3, B0, B1, B2, SpareBits, FromDigits;
    if |d| >= 4 {
      assert forall i :: 0 <= i < 4 ==> other[i] == other[..|d| - 1][i] == d[..|d| - 1][i] == d[i];
      SpareOfRest(d);
      assert d[4..][..|d| - 5] == d[..|d| - 1][4..] == other[..|d| - 1][4..] == other[4..][..|d| - 5];
      SameBytes(d[4..], other[4..]);
      SameGroup(d, other);
    } else {
      assert other[0] == other[..|d| - 1][0] == d[..|d| - 1][0] == d[0];
      if |d| == 3 {
        assert other[1] == other[..|d| - 1][1] == d[..|d| - 1][1] == d[1];
      }
      SameLastGroup(d, other);
    }
  }

  lemma SameGroup(d: seq<Digit>, other: seq<Digit>)
    requires |other| == |d| >= 4 && |d| % 4 != 1 && other[..4] == d[..4] && FromDigits(other[4..]) == FromDigits(d[4..])
    ensures FromDigits(other) == FromDigits(d)
  {
    hide B0, B1, B2;
    assert forall i :: 0 <= i < 4 ==> other[i] == other[..4][i] == d[..4][i] == d[i];
  }

  lemma SameLastGroup(d: seq<Digit>, other: seq<Digit>)
    requires 2 <= |d| <= 3 && |other| == |d| && SpareBits(d) == 0 && other[|d| - 1] == d[|d| - 1] + 1
    requires other[0] == d[0] && (|d| == 3 ==> other[1] == d[1])
    ensures FromDigits(other) == FromDigits(d)
  {
    hide B0, B1;
    SpareOf(d);
    SpareBitIsDropped(d[0], d[|d| - 1]);
    if |d| == 3 {
      SpareBitIsDropped(d[1], d[2]);
    }
  }

  lemma SpareBitIsDropped(p: Digit, q: Digit)
    requires q < 63
    ensures q % 16 == 0 ==> B0(p, q + 1) == B0(p, q)
    ensures q % 4 == 0 ==> B1(p, q + 1) == B1(p, q)
  {
    assert q % 16 == 0 ==> (q + 1) / 16 == q / 16;
    assert q % 4 == 0 ==> (q + 1) / 4 == q / 4;
  }

  // -------------------------------------------------------------- the standard's values

  /** Three bytes and their four digits are one 24-bit number, most significant part first. */
  lemma GroupsAreNumbers(x: Byte, y: Byte, z: Byte)
    ensures D0(x) * 262144 + D1(x, y) * 4096 + D2(y, z) * 64 + D3(z) == x * 65536 + y * 256 + z
  {
    assert x == 4 * (x / 4) + x % 4 && y == 16 * (y / 16) + y % 16 && z == 64 * (z / 64) + z % 64;
  }

  /** The vectors of section 10 of RFC 4648, without padding. */
  lemma KnownTexts()
    ensures Encode([]) == ""
    ensures Encode([0x66]) == "Zg"
    ensures Encode([0x66, 0x6F]) == "Zm8"
    ensures Encode([0x66, 0x6F, 0x6F]) == "Zm9v"
    ensures Encode([0x66, 0x6F, 0x6F, 0x62]) == "Zm9vYg"
  {
    var foo: Bytes := [0x66, 0x6F, 0x6F];
    assert ToDigits([]) == [];
    assert ToDigits([0x66]) == [25, 32];
    assert ToDigits([0x66, 0x6F]) == [25, 38, 60];
    assert foo[3..] == [];
    assert ToDigits(foo) == [25, 38, 61, 47] + ToDigits([]) == [25, 38, 61, 47];
    var foob: Bytes := [0x66, 0x6F, 0x6F, 0x62];
    assert foob[3..] == [0x62] && ToDigits([0x62]) == [24, 32];
    assert ToDigits(foob) == [25, 38, 61, 47] + ToDigits([0x62]) == [25, 38, 61, 47, 24, 32];
  }
}
