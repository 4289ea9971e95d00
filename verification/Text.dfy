/** Trimming white space. */
module Text {

  /** The characters that trimming removes. */
  predicate IsSpace(c: char) {
    var n := c as int;
    || 0x09 <= n <= 0x0D || 0x1C <= n <= 0x20 || n == 0x85 || n == 0xA0 || n == 0x1680
    || 0x2000 <= n <= 0x200A || n == 0x2028 || n == 0x2029 || n == 0x202F || n == 0x205F || n == 0x3000
  }

  function TrimLeft(s: string): string {
    if s != [] && IsSpace(s[0]) then TrimLeft(s[1..]) else s
  }

  function TrimRight(s: string): string {
    if s != [] && IsSpace(s[|s| - 1]) then TrimRight(s[..|s| - 1]) else s
  }

  function Strip(s: string): string {
    TrimRight(TrimLeft(s))
  }

  predicate Blank(s: string) {
    forall i :: 0 <= i < |s| ==> IsSpace(s[i])
  }

  lemma {:induction false} TrimsLeft(pad: string, s: string)
    requires Blank(pad) && (s != "" ==> !IsSpace(s[0]))
    ensures TrimLeft(pad + s) == s
    decreases |pad|
  {
    hide IsSpace;
    if pad == "" {
      assert pad + s == s;
    } else {
      assert (pad + s)[0] == pad[0] && (pad + s)[1..] == pad[1..] + s;
      TrimsLeft(pad[1..], s);
    }
  }

  lemma {:induction false} TrimsRight(s: string, pad: string)
    requires Blank(pad) && (s != "" ==> !IsSpace(s[|s| - 1]))
    ensures TrimRight(s + pad) == s
    decreases |pad|
  {
    hide IsSpace;
    var n := |pad| - 1;
    if pad == "" {
      assert s + pad == s;
    } else {
      assert (s + pad)[|s + pad| - 1] == pad[n] && (s + pad)[..|s + pad| - 1] == s + pad[..n];
      TrimsRight(s, pad[..n]);
    }
  }

  /** Nothing to trim at either end. */
  predicate NoOuterSpace(s: string) {
    s != "" ==> !IsSpace(s[0]) && !IsSpace(s[|s| - 1])
  }

  lemma StripKeeps(s: string)
    requires NoOuterSpace(s)
    ensures Strip(s) == s
  {
    assert "" + s == s && s + "" == s;
    TrimsLeft("", s);
    TrimsRight(s, "");
  }

  lemma {:induction false} TrimmedLeft(s: string)
    ensures exists pad :: Blank(pad) && s == pad + TrimLeft(s)
    ensures TrimLeft(s) != "" ==> !IsSpace(TrimLeft(s)[0])
  {
    hide IsSpace;
    if s != [] && IsSpace(s[0]) {
      TrimmedLeft(s[1..]);
      var pad :| Blank(pad) && s[1..] == pad + TrimLeft(s[1..]);
      assert Blank([s[0]] + pad) && s == ([s[0]] + pad) + TrimLeft(s);
    } else {
      assert Blank("") && s == "" + TrimLeft(s);
    }
  }

  lemma {:induction false} TrimmedRight(s: string)
    ensures exists pad :: Blank(pad) && s == TrimRight(s) + pad
    ensures TrimRight(s) != "" ==> !IsSpace(TrimRight(s)[|TrimRight(s)| - 1]) && TrimRight(s)[0] == s[0]
  {
    hide IsSpace;
    var n := |s| - 1;
    if s != [] && IsSpace(s[n]) {
      TrimmedRight(s[..n]);
      var pad :| Blank(pad) && s[..n] == TrimRight(s[..n]) + pad;
      assert Blank(pad + [s[n]]) && s == TrimRight(s) + (pad + [s[n]]);
    } else {
      assert Blank("") && s == TrimRight(s) + "";
    }
  }

  /** Trimming takes white space off both ends and nothing else, and stops where there is none. */
  lemma StripTrims(s: string)
    ensures NoOuterSpace(Strip(s))
    ensures exists left, right :: Blank(left) && Blank(right) && s == left + Strip(s) + right
    ensures Strip(s) == "" <==> Blank(s)
  {
    hide IsSpace, TrimLeft, TrimRight;
    TrimmedLeft(s);
    var left :| Blank(left) && s == left + TrimLeft(s);
    TrimmedRight(TrimLeft(s));
    var right :| Blank(right) && TrimLeft(s) == Strip(s) + right;
    assert s == left + Strip(s) + right;
    if Strip(s) == "" {
      assert s == left + right;
    } else {
      assert s[|left|] == Strip(s)[0];
    }
  }
}
