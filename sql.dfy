/**
 * The two pieces of SQLite semantics the queries depend on: comparison of
 * TEXT values under the default BINARY collation, and the LIKE operator
 * (no ESCAPE clause, ASCII-only case folding).
 */
module Sql {
  import opened Text

  /**
   * `a <= b` on TEXT under BINARY collation: lexicographic by code point, as
   * memcmp orders UTF-8. A prefix sorts first, and a proper extension after.
   */
  predicate TextLe(a: string, b: string)
    ensures a <= b ==> TextLe(a, b)
    ensures TextLe(a, b) && b <= a ==> a == b
  {
    a == [] || (b != [] && (a[0] < b[0] || (a[0] == b[0] && TextLe(a[1..], b[1..]))))
  }

  lemma {:induction false} TextLeReflexive(a: string)
    ensures TextLe(a, a)
  {
    if a != [] {
      TextLeReflexive(a[1..]);
    }
  }

  lemma {:induction false} TextLeTotal(a: string, b: string)
    ensures TextLe(a, b) || TextLe(b, a)
  {
    if a != [] && b != [] && a[0] == b[0] {
      TextLeTotal(a[1..], b[1..]);
    }
  }

  lemma {:induction false} TextLeTransitive(a: string, b: string, c: string)
    requires TextLe(a, b) && TextLe(b, c)
    ensures TextLe(a, c)
  {
    if a != [] && b != [] && c != [] && a[0] == b[0] == c[0] {
      TextLeTransitive(a[1..], b[1..], c[1..]);
    }
  }

  lemma {:induction false} TextLeAntisymmetric(a: string, b: string)
    requires TextLe(a, b) && TextLe(b, a)
    ensures a == b
  {
    if a != [] && b != [] {
      TextLeAntisymmetric(a[1..], b[1..]);
    }
  }

  /** A shared prefix does not affect the comparison. */
  lemma {:induction false} TextLeCommonPrefix(p: string, a: string, b: string)
    ensures TextLe(p + a, p + b) == TextLe(a, b)
  {
    if p == [] {
      assert p + a == a && p + b == b;
    } else {
      assert (p + a)[0] == p[0] == (p + b)[0];
      assert (p + a)[1..] == p[1..] + a && (p + b)[1..] == p[1..] + b;
      TextLeCommonPrefix(p[1..], a, b);
    }
  }

  /** A text between two texts that share a prefix `p` (and at least as long as `p`) has prefix `p` too. */
  lemma {:induction false} TextLeSandwich(p: string, x: string, y: string, d: string)
    requires |p| <= |d| && TextLe(p + x, d) && TextLe(d, p + y)
    ensures d[..|p|] == p
  {
    if p != [] {
      assert (p + x)[1..] == p[1..] + x && (p + y)[1..] == p[1..] + y;
      TextLeSandwich(p[1..], x, y, d[1..]);
      assert d[..|p|] == [d[0]] + d[1..][..|p| - 1];
    }
  }

  /** On texts of two digits BINARY order is numeric order. */
  lemma TextLeTwoDigits(a: string, b: string)
    requires |a| == 2 && |b| == 2 && AllDigits(a) && AllDigits(b)
    ensures TextLe(a, b) <==> DigitsValue(a) <= DigitsValue(b)
  {
    TwoDigitsValue(a);
    TwoDigitsValue(b);
    assert a[1..][0] == a[1] && b[1..][0] == b[1];
    assert a[1..][1..] == [] && b[1..][1..] == [];
    assert TextLe(a[1..], b[1..]) <==> a[1] <= b[1];
  }

  /** A character of a LIKE pattern that stands for something other than itself. */
  predicate IsWildcard(c: char) { c == '%' || c == '_' }

  predicate NoWildcards(p: string) { forall i :: 0 <= i < |p| ==> !IsWildcard(p[i]) }

  /**
   * `s LIKE p`: `%` matches any run of characters, `_` any one character,
   * and every other character itself up to ASCII case. A pattern without
   * `%` only matches texts of its own length.
   */
  predicate Like(s: string, p: string)
    ensures (forall i :: 0 <= i < |p| ==> p[i] != '%') && Like(s, p) ==> |s| == |p|
    decreases |s| + |p|
  {
    if p == [] then s == []
    else if p[0] == '%' then Like(s, p[1..]) || (s != [] && Like(s[1..], p))
    else s != [] && (p[0] == '_' || ToLower(s[0]) == ToLower(p[0])) && Like(s[1..], p[1..])
  }

  /** `s` begins with `p` up to ASCII case. */
  predicate PrefixIgnoringCase(p: string, s: string) {
    |p| <= |s| && forall k :: 0 <= k < |p| ==> ToLower(s[k]) == ToLower(p[k])
  }

  /** `q` occurs in `s` at `i`, up to ASCII case. */
  predicate MatchesAt(s: string, q: string, i: nat) {
    i + |q| <= |s| && forall k :: 0 <= k < |q| ==> ToLower(s[i + k]) == ToLower(q[k])
  }

  /** `q` occurs somewhere in `s`, up to ASCII case. */
  predicate ContainsIgnoringCase(s: string, q: string) {
    exists i: nat | i <= |s| :: MatchesAt(s, q, i)
  }

  lemma {:induction false} LikeAnything(s: string)
    ensures Like(s, "%")
  {
    if s != [] {
      LikeAnything(s[1..]);
    }
  }

  /** Without wildcards, `s LIKE q || '%'` says that `s` starts with `q` up to case. */
  lemma {:induction false} LikePrefix(s: string, q: string)
    requires NoWildcards(q)
    ensures Like(s, q + "%") <==> PrefixIgnoringCase(q, s)
  {
    if q == [] {
      LikeAnything(s);
      assert q + "%" == "%";
    } else {
      assert (q + "%")[0] == q[0] && (q + "%")[1..] == q[1..] + "%";
      if s != [] {
        LikePrefix(s[1..], q[1..]);
      }
    }
  }

  /** Without wildcards, `s LIKE '%' || q || '%'` says that `q` occurs in `s` up to case. */
  lemma {:induction false} LikeContains(s: string, q: string)
    requires NoWildcards(q)
    ensures Like(s, "%" + q + "%") <==> ContainsIgnoringCase(s, q)
  {
    var p := "%" + q + "%";
    assert p[0] == '%' && p[1..] == q + "%";
    LikePrefix(s, q);
    assert PrefixIgnoringCase(q, s) <==> MatchesAt(s, q, 0);
    ContainsStep(s, q);
    if s != [] {
      LikeContains(s[1..], q);
    }
  }

  /** `q` occurs in `s` exactly when it occurs at the start or in the tail. */
  lemma ContainsStep(s: string, q: string)
    ensures s == [] ==> (ContainsIgnoringCase(s, q) <==> MatchesAt(s, q, 0))
    ensures s != [] ==> (ContainsIgnoringCase(s, q) <==> MatchesAt(s, q, 0) || ContainsIgnoringCase(s[1..], q))
  {
    if ContainsIgnoringCase(s, q) {
      var i: nat :| i <= |s| && MatchesAt(s, q, i);
      if i > 0 {
        assert MatchesAt(s[1..], q, i - 1);
      }
    }
    if s != [] && ContainsIgnoringCase(s[1..], q) {
      var i: nat :| i <= |s| - 1 && MatchesAt(s[1..], q, i);
      assert MatchesAt(s, q, i + 1);
    }
  }

  /** When the pattern is made of digits and dashes, case plays no part: LIKE `p%` is "starts with `p`". */
  lemma PrefixIgnoringCaseOfDigits(p: string, s: string)
    requires forall i :: 0 <= i < |p| ==> IsDigit(p[i]) || p[i] == '-'
    ensures PrefixIgnoringCase(p, s) <==> (|p| <= |s| && s[..|p|] == p)
  {
    if PrefixIgnoringCase(p, s) {
      forall i | 0 <= i < |p| ensures s[i] == p[i] {
        assert ToLower(s[i]) == ToLower(p[i]);
      }
    }
  }
}
