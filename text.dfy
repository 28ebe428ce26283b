/** Strings as the queries and parsers of the shop compare them. */
module Text {

  /**
   * `Character.toUpperCase` on the letters the shop's data uses: Latin a-z and the basic
   * Cyrillic alphabet (а-я and ё); every other character is left alone.
   */
  function UpperChar(c: char): char
  {
    if 'a' <= c <= 'z' then (c as int - 32) as char
    else if '\U{0430}' <= c <= '\U{044F}' then (c as int - 32) as char
    else if c == '\U{0451}' then '\U{0401}'
    else c
  }

  /** `String.toUpperCase`, one character at a time. */
  function Upper(s: string): (r: string)
    ensures |r| == |s|
    ensures forall i :: 0 <= i < |s| ==> r[i] == UpperChar(s[i])
  {
    if s == [] then [] else [UpperChar(s[0])] + Upper(s[1..])
  }

  /** Upper-casing an upper-cased string changes nothing. */
  lemma UpperIdempotent(s: string)
    ensures Upper(Upper(s)) == Upper(s)
  {
    var u := Upper(s);
    assert forall i :: 0 <= i < |u| ==> UpperChar(u[i]) == u[i];
  }

  predicate IsPrefix(p: string, s: string)
  {
    |p| <= |s| && s[..|p|] == p
  }

  /** SQL `s LIKE CONCAT('%', sub, '%')` with no wildcard inside `sub`: `sub` occurs in `s`. */
  predicate Contains(s: string, sub: string)
    decreases |s|
  {
    IsPrefix(sub, s) || (|s| > 0 && Contains(s[1..], sub))
  }

  /** `sub` occurs in `s` starting at index `i`. */
  predicate OccursAt(s: string, sub: string, i: int)
  {
    0 <= i && i + |sub| <= |s| && s[i..i + |sub|] == sub
  }

  /** `Contains` finds exactly the strings in which `sub` occurs at some index. */
  lemma {:induction false} ContainsAt(s: string, sub: string)
    ensures Contains(s, sub) <==> exists i :: OccursAt(s, sub, i)
    decreases |s|
  {
    if IsPrefix(sub, s) {
      assert OccursAt(s, sub, 0);
    }
    if |s| > 0 {
      ContainsAt(s[1..], sub);
      if Contains(s[1..], sub) {
        var i :| OccursAt(s[1..], sub, i);
        assert s[i + 1..i + 1 + |sub|] == s[1..][i..i + |sub|];
        assert OccursAt(s, sub, i + 1);
      }
      if exists i :: OccursAt(s, sub, i) {
        var i :| OccursAt(s, sub, i);
        if i > 0 {
          assert s[1..][i - 1..i - 1 + |sub|] == s[i..i + |sub|];
          assert OccursAt(s[1..], sub, i - 1);
        }
      }
    } else {
      if exists i :: OccursAt(s, sub, i) {
        var i :| OccursAt(s, sub, i);
        assert i == 0;
      }
    }
  }

  /**
   * SQL `s LIKE p` without an escape character: `%` matches any run of characters (the empty
   * one included), `_` matches exactly one character, and every other character matches itself.
   */
  predicate LikeMatch(s: string, p: string)
    decreases |p|, |s|
  {
    if p == [] then s == []
    else if p[0] == '%' then LikeMatch(s, p[1..]) || (|s| > 0 && LikeMatch(s[1..], p))
    else |s| > 0 && (p[0] == '_' || p[0] == s[0]) && LikeMatch(s[1..], p[1..])
  }

  /** A keyword holding neither LIKE wildcard. */
  predicate Literal(k: string)
  {
    forall i :: 0 <= i < |k| ==> k[i] != '%' && k[i] != '_'
  }

  /** The pattern `%` matches every string. */
  lemma {:induction false} PercentMatchesAll(s: string)
    ensures LikeMatch(s, "%")
    decreases |s|
  {
    if |s| > 0 {
      PercentMatchesAll(s[1..]);
    } else {
      assert "%"[1..] == [];
    }
  }

  /** The pattern `%%`, which an empty keyword yields, matches every string. */
  lemma LikeEmptyKeyword(s: string)
    ensures LikeMatch(s, "%" + [] + "%")
  {
    assert ("%" + [] + "%")[1..] == "%";
    PercentMatchesAll(s);
  }

  /** A literal `q` followed by `%` matches exactly the strings that start with `q`. */
  lemma {:induction false} LiteralPrefix(s: string, q: string)
    requires Literal(q)
    ensures LikeMatch(s, q + "%") <==> IsPrefix(q, s)
    decreases |q|
  {
    if q == [] {
      assert q + "%" == "%";
      PercentMatchesAll(s);
    } else {
      var p := q + "%";
      assert p[0] == q[0] && p[1..] == q[1..] + "%";
      assert Literal(q[1..]) by {
        forall i | 0 <= i < |q[1..]| ensures q[1..][i] != '%' && q[1..][i] != '_' {
          assert q[1..][i] == q[i + 1];
        }
      }
      if |s| > 0 {
        LiteralPrefix(s[1..], q[1..]);
        if IsPrefix(q, s) {
          assert s[1..][..|q| - 1] == s[..|q|][1..];
        }
        if s[0] == q[0] && IsPrefix(q[1..], s[1..]) {
          assert s[..|q|] == [s[0]] + s[1..][..|q| - 1];
        }
      }
    }
  }

  /**
   * For a literal keyword, `s LIKE CONCAT('%', sub, '%')` is substring containment: the pattern
   * and `Contains` accept the same strings.
   */
  lemma {:induction false} LikeIsContains(s: string, sub: string)
    requires Literal(sub)
    ensures LikeMatch(s, "%" + sub + "%") <==> Contains(s, sub)
    decreases |s|
  {
    var p := "%" + sub + "%";
    assert p[0] == '%' && p[1..] == sub + "%";
    LiteralPrefix(s, sub);
    if |s| > 0 {
      LikeIsContains(s[1..], sub);
    }
  }

  /** A wildcard in the keyword is not a literal: `_` matches "MILK", which holds no `_`. */
  lemma WildcardIsNotLiteral()
    ensures LikeMatch("MILK", "%" + "_" + "%") && !Contains("MILK", "_")
  {
    var p := "%" + "_" + "%";
    assert p[1..] == "_%" && p[1..][1..] == "%";
    PercentMatchesAll("ILK");
    assert "MILK"[1..] == "ILK";
    ContainsAt("MILK", "_");
    forall i | 0 <= i < 4 ensures !OccursAt("MILK", "_", i) {
      assert "MILK"[i..i + 1][0] == "MILK"[i];
    }
  }

  /** Upper-casing neither adds nor removes a wildcard. */
  lemma UpperKeepsLiteral(k: string)
    ensures Literal(Upper(k)) <==> Literal(k)
  {
  }
}
