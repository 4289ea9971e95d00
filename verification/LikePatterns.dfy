/** SQL's LIKE: the patterns a cache clear and the name search build. */
module LikePatterns {
  /** SQL's LIKE: `%` stands for any text, `_` for any character, and a backslash takes the next character literally. */
  predicate Like(text: string, pattern: string)
    decreases |pattern|, |text|
  {
    if pattern == "" then text == ""
    else if pattern[0] == '%' then Like(text, pattern[1..]) || (text != "" && Like(text[1..], pattern))
    else if text == "" then false
    else if pattern[0] == '_' then Like(text[1..], pattern[1..])
    else if pattern[0] == '\\' && |pattern| > 1 then text[0] == pattern[1] && Like(text[1..], pattern[2..])
    else text[0] == pattern[0] && Like(text[1..], pattern[1..])
  }

  /** The keys that clearing a prefix in the shared tier deletes: the prefix goes into the pattern as it is. */
  predicate Cleared(k: string, prefix: string) {
    Like(k, prefix + "%")
  }

  predicate Meta(c: char) {
    c == '%' || c == '_' || c == '\\'
  }

  /** Text that a pattern matches only literally. */
  predicate Literal(p: string) {
    forall i :: 0 <= i < |p| ==> !Meta(p[i])
  }

  predicate NoBackslash(p: string) {
    forall i :: 0 <= i < |p| ==> p[i] != '\\'
  }

  lemma {:induction false} AnyMatchesPercent(text: string)
    ensures Like(text, "%")
  {
    if text == "" {
      assert Like(text, "%"[1..]);
    } else {
      AnyMatchesPercent(text[1..]);
    }
  }

  /** Without a backslash every character of the pattern matches at least itself. */
  lemma {:induction false} PrefixMatches(p: string, rest: string)
    requires NoBackslash(p)
    ensures Cleared(p + rest, p)
  {
    if p == "" {
      assert p + rest == rest && p + "%" == "%";
      AnyMatchesPercent(rest);
    } else {
      PrefixMatches(p[1..], rest);
      assert (p + rest)[1..] == p[1..] + rest && (p + "%")[1..] == p[1..] + "%";
      if p[0] == '%' {
        var text, pattern := p + rest, p + "%";
        PercentSkips(text, pattern);
      }
    }
  }

  lemma PercentSkips(text: string, pattern: string)
    requires text != "" && pattern != "" && pattern[0] == '%' && Like(text[1..], pattern[1..])
    ensures Like(text, pattern)
  {
    assert Like(text[1..], pattern);
  }

  /** A literal prefix matches nothing else. */
  lemma {:induction false} LiteralMatchesOnlyItself(p: string, k: string)
    requires Literal(p) && Cleared(k, p)
    ensures p <= k
  {
    if p != "" {
      assert (p + "%")[1..] == p[1..] + "%" && !Meta(p[0]);
      LiteralMatchesOnlyItself(p[1..], k[1..]);
      assert p == [p[0]] + p[1..] && k == [k[0]] + k[1..];
    }
  }

  /** The shortest text a pattern matches, with an `a` for every `_`. */
  function Shortest(pattern: string): string
    decreases |pattern|
  {
    if pattern == "" then ""
    else if pattern[0] == '%' then Shortest(pattern[1..])
    else if pattern[0] == '_' then "a" + Shortest(pattern[1..])
    else if pattern[0] == '\\' && |pattern| > 1 then [pattern[1]] + Shortest(pattern[2..])
    else [pattern[0]] + Shortest(pattern[1..])
  }

  lemma {:induction false} ShortestMatches(pattern: string)
    ensures Like(Shortest(pattern), pattern)
    decreases |pattern|
  {
    if pattern != "" {
      var text := Shortest(pattern);
      if pattern[0] == '%' || pattern[0] == '_' || pattern[0] != '\\' || |pattern| == 1 {
        ShortestMatches(pattern[1..]);
        assert pattern[0] != '%' ==> text[1..] == Shortest(pattern[1..]);
      } else {
        ShortestMatches(pattern[2..]);
        assert text[1..] == Shortest(pattern[2..]);
      }
    }
  }

  /** It is no longer than the prefix, and it is the prefix itself only if that is literal. */
  lemma {:induction false} ShortestIsShort(p: string)
    ensures |Shortest(p + "%")| <= |p|
    ensures Shortest(p + "%") == p ==> Literal(p)
    decreases |p|
  {
    var pattern := p + "%";
    if p == "" {
      assert pattern == "%" && pattern[1..] == "";
    } else if p[0] == '\\' {
      if |p| == 1 {
        assert pattern[1] == '%' && pattern[2..] == "";
      } else {
        assert pattern[2..] == p[2..] + "%";
        ShortestIsShort(p[2..]);
      }
    } else {
      assert pattern[1..] == p[1..] + "%";
      ShortestIsShort(p[1..]);
      var tail := Shortest(p[1..] + "%");
      if p[0] != '%' && Shortest(pattern) == p {
        assert tail == p[1..];
        assert forall i :: 0 < i < |p| ==> p[i] == p[1..][i - 1];
      }
    }
  }

  /** Clearing a prefix in the shared tier deletes exactly the keys with that prefix, as the front does, if and only if
    * the prefix is literal. */
  lemma ClearsItsPrefixExactly(p: string)
    ensures (forall k :: Cleared(k, p) <==> p <= k) <==> Literal(p)
  {
    if Literal(p) {
      forall k ensures Cleared(k, p) <==> p <= k {
        if p <= k {
          assert k == p + k[|p|..];
          PrefixMatches(p, k[|p|..]);
        } else if Cleared(k, p) {
          LiteralMatchesOnlyItself(p, k);
        }
      }
    } else {
      var k := Shortest(p + "%");
      ShortestMatches(p + "%");
      ShortestIsShort(p);
      assert Cleared(k, p) && !(p <= k);
    }
  }

  /** The prefix ends in a backslash that takes the `%` after it literally. */
  predicate EscapesEnd(p: string)
    decreases |p|
  {
    if p == "" then false
    else if p[0] == '\\' then (if |p| == 1 then true else EscapesEnd(p[2..]))
    else EscapesEnd(p[1..])
  }

  /** Otherwise whatever may follow a match still matches. */
  lemma {:induction false} MatchesMayGoOn(text: string, more: string, p: string)
    requires Cleared(text, p) && !EscapesEnd(p)
    ensures Cleared(text + more, p)
    decreases |p|, |text|
  {
    var pattern := p + "%";
    if p == "" {
      assert pattern == "%";
      AnyMatchesPercent(text + more);
    } else {
      assert pattern[1..] == p[1..] + "%" && (text != "" ==> (text + more)[1..] == text[1..] + more);
      if p[0] == '%' {
        if Like(text, pattern[1..]) {
          MatchesMayGoOn(text, more, p[1..]);
        } else {
          MatchesMayGoOn(text[1..], more, p);
        }
      } else if p[0] == '\\' {
        assert pattern[2..] == p[2..] + "%";
        MatchesMayGoOn(text[1..], more, p[2..]);
      } else {
        MatchesMayGoOn(text[1..], more, p[1..]);
      }
    }
  }

  lemma {:induction false} EscapedEndMatches(text: string, p: string)
    requires Cleared(text, p) && EscapesEnd(p)
    ensures text != "" && text[|text| - 1] == '%' && p[|p| - 1] == '\\'
    decreases |p|, |text|
  {
    var pattern := p + "%";
    assert pattern[1..] == p[1..] + "%";
    if p[0] == '%' {
      if Like(text, pattern[1..]) {
        EscapedEndMatches(text, p[1..]);
      } else {
        EscapedEndMatches(text[1..], p);
      }
    } else if p[0] == '\\' {
      if |p| == 1 {
        assert |pattern| == 2 && pattern[1] == '%' && pattern[2..] == "";
        assert text[0] == '%' && Like(text[1..], "");
      } else {
        assert pattern[2..] == p[2..] + "%";
        EscapedEndMatches(text[1..], p[2..]);
      }
    } else {
      EscapedEndMatches(text[1..], p[1..]);
    }
  }

  /** A clear reaches every key with its prefix exactly if it would reach the prefix itself; a prefix without a backslash
    * always does. */
  lemma ClearReachesItsKeysExactly(p: string)
    ensures (forall k :: p <= k ==> Cleared(k, p)) <==> Cleared(p, p)
    ensures NoBackslash(p) ==> Cleared(p, p)
  {
    hide Like, EscapesEnd;
    if NoBackslash(p) {
      PrefixMatches(p, "");
      assert p + "" == p;
    }
    if Cleared(p, p) {
      if EscapesEnd(p) {
        EscapedEndMatches(p, p);
        assert false;
      }
      forall k | p <= k ensures Cleared(k, p) {
        MatchesMayGoOn(p, k[|p|..], p);
        assert k == p + k[|p|..];
      }
    }
  }

  /** With one it may not: the pattern for `a\b` does not match that prefix. */
  lemma BackslashSparesItsOwnKeys()
    ensures !Cleared("a\\b", "a\\b")
  {
    var k, pattern := "a\\b", "a\\b" + "%";
    assert k[1..] == "\\b" && pattern[1..] == "\\b%";
    assert !Like("\\b", "\\b%");
  }

  /** The escaping that the name search applies to its terms, and clearing does not. */
  function EscapeLike(term: string): string {
    if term == "" then "" else (if Meta(term[0]) then ['\\', term[0]] else [term[0]]) + EscapeLike(term[1..])
  }

  /** An escaped prefix matches exactly the texts that start with it, whatever is in it. */
  lemma {:induction false} EscapedPrefixIsExact(p: string, k: string)
    ensures Like(k, EscapeLike(p) + "%") <==> p <= k
  {
    var pattern := EscapeLike(p) + "%";
    if p == "" {
      assert pattern == "%";
      AnyMatchesPercent(k);
    } else {
      var tail := EscapeLike(p[1..]) + "%";
      if Meta(p[0]) {
        assert pattern[0] == '\\' && pattern[1] == p[0] && pattern[2..] == tail;
      } else {
        assert pattern[0] == p[0] && pattern[1..] == tail;
      }
      assert Like(k, pattern) <==> k != "" && k[0] == p[0] && Like(k[1..], tail);
      if k != "" {
        EscapedPrefixIsExact(p[1..], k[1..]);
        assert p == [p[0]] + p[1..] && k == [k[0]] + k[1..];
      }
    }
  }

  /** And between two `%` an escaped term matches exactly the texts that contain it. */
  lemma {:induction false} EscapedTermIsContained(term: string, text: string)
    ensures Like(text, "%" + EscapeLike(term) + "%") <==> exists i :: 0 <= i <= |text| && term <= text[i..]
    decreases |text|
  {
    var tail := EscapeLike(term) + "%";
    var pattern := "%" + EscapeLike(term) + "%";
    assert pattern[0] == '%' && pattern[1..] == tail;
    EscapedPrefixIsExact(term, text);
    assert text[0..] == text;
    if text != "" {
      EscapedTermIsContained(term, text[1..]);
      assert forall i :: 0 <= i <= |text| - 1 ==> text[1..][i..] == text[i + 1..];
      if i :| 0 <= i <= |text| && term <= text[i..] {
        assert i > 0 ==> term <= text[1..][i - 1..];
      }
      if j :| 0 <= j <= |text[1..]| && term <= text[1..][j..] {
        assert term <= text[j + 1..];
      }
    }
  }
}
