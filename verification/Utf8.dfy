/** UTF-8, as Python's strict codec has it. */
module Utf8 {
  import opened Wrappers
  import opened Base64

  /** A Unicode scalar value. */
  predicate Scalar(n: int) {
    0 <= n < 0xD800 || 0xE000 <= n < 0x11_0000
  }

  // The low six bits of a value, what is above them, and the two put together again.
  function Low(n: nat): nat { n % 64 }

  function High(n: nat): nat { n / 64 }

  function Glue(high: nat, low: nat): nat { high * 64 + low }

  lemma Glued(high: nat, low: nat, n: nat)
    requires low < 64
    ensures High(Glue(high, low)) == high && Low(Glue(high, low)) == low
    ensures Glue(High(n), Low(n)) == n && Low(n) < 64
  {
  }

  function EncodeOne(n: nat): (b: Bytes)
    requires Scalar(n)
    ensures 1 <= |b| <= 4
  {
    if n < 0x80 then [n]
    else if n < 0x800 then [0xC0 + High(n), 0x80 + Low(n)]
    else if n < 0x1_0000 then [0xE0 + High(High(n)), 0x80 + Low(High(n)), 0x80 + Low(n)]
    else [0xF0 + High(High(High(n))), 0x80 + Low(High(High(n))), 0x80 + Low(High(n)), 0x80 + Low(n)]
  }

  predicate Continues(b: Byte) {
    0x80 <= b < 0xC0
  }

  /** The first scalar value and how many bytes it took; nothing for a bad lead byte, a missing or bad continuation,
    * an overlong form, a surrogate or a value past the end. */
  function DecodeOne(b: Bytes): Option<(nat, nat)>
    requires b != []
  {
    if b[0] < 0x80 then Some((b[0], 1))
    else if 0xC0 <= b[0] < 0xE0 && |b| >= 2 && Continues(b[1]) then
      Accept(Glue(b[0] - 0xC0, b[1] - 0x80), 0x80, 2)
    else if 0xE0 <= b[0] < 0xF0 && |b| >= 3 && Continues(b[1]) && Continues(b[2]) then
      Accept(Glue(Glue(b[0] - 0xE0, b[1] - 0x80), b[2] - 0x80), 0x800, 3)
    else if 0xF0 <= b[0] < 0xF8 && |b| >= 4 && Continues(b[1]) && Continues(b[2]) && Continues(b[3]) then
      Accept(Glue(Glue(Glue(b[0] - 0xF0, b[1] - 0x80), b[2] - 0x80), b[3] - 0x80), 0x1_0000, 4)
    else None
  }

  function Accept(n: nat, least: nat, size: nat): Option<(nat, nat)> {
    if n >= least && Scalar(n) then Some((n, size)) else None
  }

  function Encode(s: string): Bytes {
    if s == "" then [] else EncodeOne(s[0] as int) + Encode(s[1..])
  }

  function Decode(b: Bytes): Option<string>
    decreases |b|
  {
    if b == [] then Some("")
    else
      var first := DecodeOne(b);
      if first.None? || first.value.1 > |b| || first.value.1 == 0 || !Scalar(first.value.0) then None
      else
        var rest := Decode(b[first.value.1..]);
        if rest.None? then None else Some([first.value.0 as char] + rest.value)
  }

  lemma HighParts(n: nat)
    ensures n < 0x80 <==> High(n) < 2
    ensures n < 0x800 <==> High(n) < 32
    ensures n < 0x1_0000 <==> High(High(n)) < 16
    ensures n < 0x11_0000 ==> High(High(High(n))) < 5
    ensures Low(n) < 64 && Low(High(n)) < 64 && Low(High(High(n))) < 64
  {
  }

  lemma OneReadsBack(n: nat, rest: Bytes)
    requires Scalar(n)
    ensures DecodeOne(EncodeOne(n) + rest) == Some((n, |EncodeOne(n)|))
  {
    HighParts(n);
    hide Low, High, Glue;
    Glued(0, 0, n);
    Glued(0, 0, High(n));
    Glued(0, 0, High(High(n)));
  }

  lemma OneIsStrict(b: Bytes)
    requires b != [] && DecodeOne(b).Some?
    ensures var (n, k) := DecodeOne(b).value; Scalar(n) && k <= |b| && EncodeOne(n) == b[..k]
  {
    hide Low, High, Glue;
    var (n, k) := DecodeOne(b).value;
    HighParts(n);
    if k == 1 {
      assert b[..1] == [b[0]];
    } else if k == 2 {
      Glued(b[0] - 0xC0, b[1] - 0x80, 0);
      assert b[..2] == [b[0], b[1]];
    } else if k == 3 {
      Glued(b[0] - 0xE0, b[1] - 0x80, 0);
      Glued(Glue(b[0] - 0xE0, b[1] - 0x80), b[2] - 0x80, 0);
      assert b[..3] == [b[0], b[1], b[2]];
    } else {
      Glued(b[0] - 0xF0, b[1] - 0x80, 0);
      Glued(Glue(b[0] - 0xF0, b[1] - 0x80), b[2] - 0x80, 0);
      Glued(Glue(Glue(b[0] - 0xF0, b[1] - 0x80), b[2] - 0x80), b[3] - 0x80, 0);
      assert b[..4] == [b[0], b[1], b[2], b[3]];
    }
  }

  lemma {:induction false} DecodeUndoesEncode(s: string)
    ensures Decode(Encode(s)) == Some(s)
  {
    hide EncodeOne, DecodeOne;
    if s != "" {
      assert Scalar(s[0] as int);
      var one := EncodeOne(s[0] as int);
      var rest := Encode(s[1..]);
      OneReadsBack(s[0] as int, rest);
      assert (one + rest)[|one|..] == rest;
      DecodeUndoesEncode(s[1..]);
      assert one + rest != [] && (s[0] as int) as char == s[0];
      assert [s[0]] + s[1..] == s;
    }
  }

  /** The decoder is strict: what it accepts is the encoding of what it returns. */
  lemma {:induction false} EncodeUndoesDecode(b: Bytes)
    requires Decode(b).Some?
    ensures Encode(Decode(b).value) == b
    decreases |b|
  {
    hide EncodeOne, DecodeOne;
    if b != [] {
      var (n, k) := DecodeOne(b).value;
      OneIsStrict(b);
      EncodeUndoesDecode(b[k..]);
      assert b == b[..k] + b[k..];
      assert Decode(b).value == [n as char] + Decode(b[k..]).value;
      assert Decode(b).value[1..] == Decode(b[k..]).value;
    }
  }

  lemma {:induction false} EncodeConcat(a: string, b: string)
    ensures Encode(a + b) == Encode(a) + Encode(b)
  {
    hide EncodeOne;
    if a == "" {
      assert a + b == b;
    } else {
      assert (a + b)[0] == a[0] && (a + b)[1..] == a[1..] + b;
      EncodeConcat(a[1..], b);
    }
  }

  /** The examples of section 7 of RFC 3629. */
  lemma KnownBytes()
    ensures EncodeOne(0x41) == [0x41]
    ensures EncodeOne(0x0391) == [0xCE, 0x91]
    ensures EncodeOne(0x2262) == [0xE2, 0x89, 0xA2]
    ensures EncodeOne(0xD55C) == [0xED, 0x95, 0x9C]
    ensures EncodeOne(0x2_33B4) == [0xF0, 0xA3, 0x8E, 0xB4]
  {
  }
}
