/**
 * The PostgreSQL pattern match `value ILIKE pattern` (section 9.7.1 of the
 * PostgreSQL manual) that a `{ [Op.iLike]: pattern }` condition stands for:
 * `%` matches any run of characters, `_` any one character, a backslash makes
 * the next character literal, and every other character matches itself,
 * ignoring the case of ASCII letters.
 */
module ILike {

  /** ASCII lower case, the comparison ILIKE makes for English letters. */
  function ToLower(c: char): char {
    if 'A' <= c <= 'Z' then (c as int - 'A' as int + 'a' as int) as char else c
  }

  predicate SameIgnoringCase(a: char, b: char) {
    ToLower(a) == ToLower(b)
  }

  /** Does the whole of s match the pattern p? */
  function Like(s: string, p: string): bool
    decreases |s| + |p|
  {
    if p == [] then s == []
    else if p[0] == '%' then Like(s, p[1..]) || (s != [] && Like(s[1..], p))
    else if p[0] == '_' then s != [] && Like(s[1..], p[1..])
    else if p[0] == '\\' then
      // A pattern that ends in the escape character is rejected by the
      // store; it matches nothing here.
      |p| >= 2 && s != [] && SameIgnoringCase(s[0], p[1]) && Like(s[1..], p[2..])
    else s != [] && SameIgnoringCase(s[0], p[0]) && Like(s[1..], p[1..])
  }

  /** A pattern character that stands for itself. */
  predicate IsLiteral(c: char) {
    c != '%' && c != '_' && c != '\\'
  }

  predicate AllLiteral(k: string) {
    forall i :: 0 <= i < |k| ==> IsLiteral(k[i])
  }

  predicate EqualIgnoringCase(a: string, b: string) {
    |a| == |b| && forall i :: 0 <= i < |a| ==> SameIgnoringCase(a[i], b[i])
  }

  /** k occurs in s at position i, ignoring case. */
  predicate OccursAt(s: string, k: string, i: int) {
    0 <= i && i + |k| <= |s| && EqualIgnoringCase(s[i..i + |k|], k)
  }

  /** k is a substring of s, ignoring the case of ASCII letters. */
  predicate ContainsIgnoringCase(s: string, k: string) {
    exists i | 0 <= i <= |s| :: OccursAt(s, k, i)
  }

  /** A literal head of the pattern must match the head of s character by character. */
  lemma {:induction false} LikeLiteralHead(s: string, k: string, rest: string)
    requires AllLiteral(k)
    ensures Like(s, k + rest) <==>
      |k| <= |s| && EqualIgnoringCase(s[..|k|], k) && Like(s[|k|..], rest)
  {
    if k == [] {
      assert k + rest == rest;
      assert s[..0] == [] && s[0..] == s;
    } else {
      assert (k + rest)[0] == k[0];
      assert (k + rest)[1..] == k[1..] + rest;
      if s != [] {
        LikeLiteralHead(s[1..], k[1..], rest);
        if |k| <= |s| {
          assert s[1..][|k| - 1..] == s[|k|..];
          assert s[1..][..|k| - 1] == s[..|k|][1..];
          assert EqualIgnoringCase(s[..|k|], k) <==>
            SameIgnoringCase(s[0], k[0]) && EqualIgnoringCase(s[1..][..|k| - 1], k[1..]);
        }
      }
    }
  }

  /** A leading `%` lets the rest of the pattern match any suffix of s. */
  lemma {:induction false} LikeLeadingPercent(s: string, q: string)
    ensures Like(s, "%" + q) <==> exists i :: 0 <= i <= |s| && Like(s[i..], q)
  {
    var p := "%" + q;
    assert p[1..] == q;
    assert s[0..] == s;
    if s != [] {
      LikeLeadingPercent(s[1..], q);
      forall i | 1 <= i <= |s| ensures s[1..][i - 1..] == s[i..] { }
      if Like(s[1..], p) {
        var j :| 0 <= j <= |s| - 1 && Like(s[1..][j..], q);
        assert Like(s[j + 1..], q);
      }
      if exists i :: 0 <= i <= |s| && Like(s[i..], q) {
        var i :| 0 <= i <= |s| && Like(s[i..], q);
        if i > 0 {
          assert Like(s[1..][i - 1..], q);
        }
      }
    }
  }

  /** A non-empty pattern made only of `%` matches every string. */
  lemma {:induction false} LikeOnlyPercent(s: string, p: string)
    requires p != [] && forall i :: 0 <= i < |p| ==> p[i] == '%'
    ensures Like(s, p)
    decreases |s| + |p|
  {
    assert p[0] == '%';
    if s != [] {
      LikeOnlyPercent(s[1..], p);
    } else if |p| > 1 {
      LikeOnlyPercent(s, p[1..]);
    }
  }

  /** `k%` matches the suffix of s from i exactly when k occurs at i. */
  lemma SuffixMatchesAt(s: string, k: string, i: int)
    requires AllLiteral(k) && 0 <= i <= |s|
    ensures Like(s[i..], k + "%") <==> OccursAt(s, k, i)
  {
    LikeLiteralHead(s[i..], k, "%");
    if |k| <= |s| - i {
      LikeOnlyPercent(s[i..][|k|..], "%");
      assert s[i..][..|k|] == s[i..i + |k|];
    }
  }

  /**
   * For a keyword without wildcard or escape characters, `%keyword%` is a
   * case-insensitive substring test.
   */
  lemma LikeContainsPattern(s: string, k: string)
    requires AllLiteral(k)
    ensures Like(s, "%" + k + "%") <==> ContainsIgnoringCase(s, k)
  {
    assert "%" + k + "%" == "%" + (k + "%");
    LikeLeadingPercent(s, k + "%");
    if Like(s, "%" + k + "%") {
      var i :| 0 <= i <= |s| && Like(s[i..], k + "%");
      SuffixMatchesAt(s, k, i);
    }
    if ContainsIgnoringCase(s, k) {
      var i :| 0 <= i <= |s| && OccursAt(s, k, i);
      SuffixMatchesAt(s, k, i);
    }
  }

  /** A string in which the first character of k does not occur does not contain k. */
  lemma MissingFirstCharacter(s: string, k: string)
    requires k != [] && forall j :: 0 <= j < |s| ==> !SameIgnoringCase(s[j], k[0])
    ensures !ContainsIgnoringCase(s, k)
  {
    forall i | 0 <= i <= |s| ensures !OccursAt(s, k, i) {
      if i + |k| <= |s| {
        assert s[i..i + |k|][0] == s[i];
      }
    }
  }

  /** An unescaped `_` keyword asks only for one character: `%_%` matches every non-empty string. */
  lemma UnderscoreMatchesAnyCharacter(s: string)
    ensures Like(s, "%_%") <==> s != []
  {
    LikeLeadingPercent(s, "_%");
    if s != [] {
      assert "_%"[1..] == "%";
      LikeOnlyPercent(s[1..], "%");
      assert Like(s[0..], "_%");
    }
  }

  /** An unescaped `%` keyword gives `%%%`, which matches every string. */
  lemma PercentMatchesEverything(s: string)
    ensures Like(s, "%%%")
  {
    LikeOnlyPercent(s, "%%%");
  }
}
