/**
 * LIKE escaping of the helper (`get_like_literal`, `like_string`) and the
 * database's LIKE matcher that the escaped pattern is handed to: `%` matches
 * any run of characters, `_` any one character, and a backslash makes the
 * next character literal. The matcher is database behaviour, modelled here
 * so that what the escaping achieves can be stated: for a search term
 * without backslashes, `LIKE like_string(t)` is substring containment.
 */
module Like {
  import opened Text

  /** `s.replace(c, rep)` for a single character `c`. */
  function ReplaceChar(s: string, c: char, rep: string): (r: string)
    decreases |s|
  {
    if |s| == 0 then ""
    else (if s[0] == c then rep else [s[0]]) + ReplaceChar(s[1..], c, rep)
  }

  predicate IsWildcard(c: char) { c == '_' || c == '%' }

  /** Each character on its own: wildcards get a backslash in front, the rest is kept. */
  function EscapeEach(s: string): (r: string)
    decreases |s|
  {
    if |s| == 0 then ""
    else (if IsWildcard(s[0]) then ['\\', s[0]] else [s[0]]) + EscapeEach(s[1..])
  }

  /** The number of wildcard characters in `s`. */
  function WildcardCount(s: string): nat
    decreases |s|
  {
    if |s| == 0 then 0 else (if IsWildcard(s[0]) then 1 else 0) + WildcardCount(s[1..])
  }

  /** `get_like_literal(s)`: `s.replace("_", "\\_").replace("%", "\\%")`. */
  function GetLikeLiteral(s: string): (r: string)
  {
    ReplaceChar(ReplaceChar(s, '_', "\\_"), '%', "\\%")
  }

  /** `like_string(s)`: the escaped term between two `%`. */
  function LikeString(s: string): (r: string)
    ensures |r| == |GetLikeLiteral(s)| + 2 && r[0] == '%' && r[|r| - 1] == '%'
  {
    "%" + GetLikeLiteral(s) + "%"
  }

  lemma {:induction false} ReplaceCharAppend(a: string, b: string, c: char, rep: string)
    ensures ReplaceChar(a + b, c, rep) == ReplaceChar(a, c, rep) + ReplaceChar(b, c, rep)
    decreases |a|
  {
    if |a| == 0 {
      assert a + b == b;
    } else {
      ReplaceCharAppend(a[1..], b, c, rep);
      assert (a + b)[0] == a[0] && (a + b)[1..] == a[1..] + b;
    }
  }

  /**
   * The two `replace` passes escape each wildcard exactly once: the first pass
   * introduces no `%`, so the second pass only sees the original ones.
   */
  lemma {:induction false} GetLikeLiteralEscapesEach(s: string)
    ensures GetLikeLiteral(s) == EscapeEach(s)
    decreases |s|
  {
    if |s| > 0 {
      GetLikeLiteralEscapesEach(s[1..]);
      var head := if s[0] == '_' then "\\_" else [s[0]];
      assert ReplaceChar(s, '_', "\\_") == head + ReplaceChar(s[1..], '_', "\\_");
      ReplaceCharAppend(head, ReplaceChar(s[1..], '_', "\\_"), '%', "\\%");
      if s[0] == '_' {
        assert ReplaceChar(head, '%', "\\%") == "\\_" by {
          assert head[1..] == "_";
        }
      } else {
        assert ReplaceChar(head, '%', "\\%") == if s[0] == '%' then "\\%" else [s[0]];
      }
    }
  }

  /** The escaped literal is one character longer per wildcard. */
  lemma {:induction false} LikeLiteralLength(s: string)
    ensures |GetLikeLiteral(s)| == |s| + WildcardCount(s)
    decreases |s|
  {
    GetLikeLiteralEscapesEach(s);
    if |s| > 0 {
      LikeLiteralLength(s[1..]);
      GetLikeLiteralEscapesEach(s[1..]);
    }
  }

  /** Reading an escaped pattern back: a backslash takes the next character literally. */
  function Unescape(p: string): string
    decreases |p|
  {
    if |p| == 0 then ""
    else if p[0] == '\\' && |p| >= 2 then [p[1]] + Unescape(p[2..])
    else [p[0]] + Unescape(p[1..])
  }

  /** Without backslashes in the term, escaping loses nothing. */
  lemma {:induction false} UnescapeLikeLiteral(s: string)
    requires '\\' !in s
    ensures Unescape(GetLikeLiteral(s)) == s
    decreases |s|
  {
    GetLikeLiteralEscapesEach(s);
    if |s| > 0 {
      UnescapeLikeLiteral(s[1..]);
      GetLikeLiteralEscapesEach(s[1..]);
      var e := EscapeEach(s[1..]);
      if IsWildcard(s[0]) {
        assert (['\\', s[0]] + e)[2..] == e;
      } else {
        assert ([s[0]] + e)[1..] == e;
      }
    }
  }

  // ---------------------------------------------------------------------------
  // The database's LIKE operator (case-sensitive)

  predicate LikeMatch(s: string, p: string)
    decreases |p|, |s|
  {
    if |p| == 0 then |s| == 0
    else if p[0] == '%' then LikeMatch(s, p[1..]) || (|s| > 0 && LikeMatch(s[1..], p))
    else if p[0] == '\\' && |p| >= 2 then |s| > 0 && s[0] == p[1] && LikeMatch(s[1..], p[2..])
    else if p[0] == '_' then |s| > 0 && LikeMatch(s[1..], p[1..])
    else |s| > 0 && s[0] == p[0] && LikeMatch(s[1..], p[1..])
  }

  /** A trailing `%` matches whatever is left. */
  lemma {:induction false} LikeMatchPercent(s: string)
    ensures LikeMatch(s, "%")
    decreases |s|
  {
    assert "%"[1..] == "";
    if |s| > 0 {
      LikeMatchPercent(s[1..]);
    }
  }

  /** An escaped backslash-free term matches exactly itself as a prefix. */
  lemma {:induction false} LikeLiteralPrefix(s: string, t: string, rest: string)
    requires '\\' !in t
    ensures LikeMatch(s, EscapeEach(t) + rest) <==> t <= s && LikeMatch(s[|t|..], rest)
    decreases |t|
  {
    if |t| == 0 {
      assert EscapeEach(t) + rest == rest;
    } else {
      var e := EscapeEach(t[1..]);
      var p := EscapeEach(t) + rest;
      assert t[0] in t;
      if IsWildcard(t[0]) {
        assert p == ['\\', t[0]] + (e + rest);
        assert p[0] == '\\' && p[1] == t[0] && p[2..] == e + rest;
      } else {
        assert p == [t[0]] + (e + rest);
        assert p[0] == t[0] && p[1..] == e + rest;
      }
      if |s| > 0 {
        LikeLiteralPrefix(s[1..], t[1..], rest);
        assert t <= s <==> t[0] == s[0] && t[1..] <= s[1..];
        if |t| <= |s| {
          assert s[1..][|t| - 1..] == s[|t|..];
        }
      }
    }
  }

  /**
   * What `like_string` is for: for a term without backslashes, a value
   * matches `LIKE like_string(t)` exactly when it contains `t`.
   */
  lemma {:induction false} LikeStringIsContains(s: string, t: string)
    requires '\\' !in t
    ensures LikeMatch(s, LikeString(t)) <==> Contains(s, t)
    decreases |s|
  {
    GetLikeLiteralEscapesEach(t);
    var body := EscapeEach(t) + "%";
    assert LikeString(t) == "%" + body;
    assert ("%" + body)[1..] == body;
    LikeLiteralPrefix(s, t, "%");
    if t <= s {
      LikeMatchPercent(s[|t|..]);
    }
    if |s| > 0 {
      LikeStringIsContains(s[1..], t);
    }
  }

  /**
   * `get_like_literal` leaves backslashes alone, so a term with one is not
   * searched literally: the term `\a` matches the value `a`, which does not
   * contain it.
   */
  lemma BackslashTermIsNotLiteral()
    ensures LikeMatch("a", LikeString("\\a")) && !Contains("a", "\\a")
  {
    assert GetLikeLiteral("\\a") == "\\a" by {
      assert ReplaceChar("\\a", '_', "\\_") == "\\a" by {
        assert ReplaceChar("a", '_', "\\_") == "a";
      }
      assert ReplaceChar("\\a", '%', "\\%") == "\\a" by {
        assert ReplaceChar("a", '%', "\\%") == "a";
      }
    }
    var p := LikeString("\\a");
    assert p == "%\\a%";
    assert LikeMatch("", "%") by { LikeMatchPercent(""); }
    assert p[1..] == "\\a%" && p[1..][2..] == "%";
    assert LikeMatch("a", p[1..]);
    assert !Contains("a", "\\a") by {
      assert !("\\a" <= "a");
      assert !Contains("", "\\a");
    }
  }
}
