/**
 * The JavaScript string and number built-ins the API relies on: `\s`, `\w`,
 * `trim`, ASCII case mapping, `String(n)`, `padStart(2, '0')`, `Number` and
 * `parseInt(s, 10)` on decimal text, and `length` in UTF-16 code units.
 */
module Text {
  import opened Wrappers

  /** JavaScript's WhiteSpace and LineTerminator code points: what `\s` matches and `trim` removes. */
  predicate IsSpace(c: char) {
    c == '\t' || c == '\n' || c == '\U{000B}' || c == '\U{000C}' || c == '\r' || c == ' '
    || c == '\U{00A0}' || c == '\U{1680}' || ('\U{2000}' <= c <= '\U{200A}')
    || c == '\U{2028}' || c == '\U{2029}' || c == '\U{202F}' || c == '\U{205F}'
    || c == '\U{3000}' || c == '\U{FEFF}'
  }

  /** `\d`: an ASCII digit. */
  predicate IsDigit(c: char) { '0' <= c <= '9' }

  predicate IsUpper(c: char) { 'A' <= c <= 'Z' }

  predicate IsLowerLetter(c: char) { 'a' <= c <= 'z' }

  /** `\w` of a regular expression without the `u` flag. */
  predicate IsWordChar(c: char) { IsUpper(c) || IsLowerLetter(c) || IsDigit(c) || c == '_' }

  predicate AllDigits(s: string) { forall i :: 0 <= i < |s| ==> IsDigit(s[i]) }

  /** `toLowerCase` on one character, for the ASCII letters. */
  function ToLower(c: char): (r: char)
    ensures !IsUpper(r)
    ensures IsUpper(c) ==> IsLowerLetter(r) && r as int == c as int + 32
    ensures !IsUpper(c) ==> r == c
    ensures IsSpace(r) == IsSpace(c) && IsWordChar(r) == IsWordChar(c)
  {
    if IsUpper(c) then (c as int + 32) as char else c
  }

  /** `toUpperCase` on one character, for the ASCII letters. */
  function ToUpper(c: char): (r: char)
    ensures !IsLowerLetter(r)
    ensures IsLowerLetter(c) ==> IsUpper(r) && r as int == c as int - 32
    ensures !IsLowerLetter(c) ==> r == c
    ensures IsSpace(r) == IsSpace(c) && IsWordChar(r) == IsWordChar(c)
  {
    if IsLowerLetter(c) then (c as int - 32) as char else c
  }

  lemma CaseMapsAbsorb(c: char)
    ensures ToLower(ToUpper(c)) == ToLower(c) && ToUpper(ToLower(c)) == ToUpper(c)
    ensures ToLower(ToLower(c)) == ToLower(c) && ToUpper(ToUpper(c)) == ToUpper(c)
  {
  }

  /** `s.toLowerCase()`, ASCII letters only. */
  function Lower(s: string): (r: string)
    ensures |r| == |s|
    ensures forall i :: 0 <= i < |s| ==> r[i] == ToLower(s[i])
  {
    seq(|s|, i requires 0 <= i < |s| => ToLower(s[i]))
  }

  predicate NoUpper(s: string) { forall i :: 0 <= i < |s| ==> !IsUpper(s[i]) }

  lemma LowerFixesNoUpper(s: string)
    requires NoUpper(s)
    ensures Lower(s) == s
  {
  }

  lemma LowerSlice(s: string, i: nat, j: nat)
    requires i <= j <= |s|
    ensures Lower(s[i..j]) == Lower(s)[i..j]
  {
  }

  /** Number of leading `\s` characters of `s`. */
  function LeadingSpaces(s: string): (k: nat)
    ensures k <= |s|
    ensures forall i :: 0 <= i < k ==> IsSpace(s[i])
    ensures k < |s| ==> !IsSpace(s[k])
  {
    if |s| > 0 && IsSpace(s[0]) then 1 + LeadingSpaces(s[1..]) else 0
  }

  /** Index where the trailing run of `\s` characters of `s` begins. */
  function TrailingStart(s: string): (j: nat)
    ensures j <= |s|
    ensures forall i :: j <= i < |s| ==> IsSpace(s[i])
    ensures 0 < j ==> !IsSpace(s[j - 1])
  {
    if |s| > 0 && IsSpace(s[|s| - 1]) then TrailingStart(s[..|s| - 1]) else |s|
  }

  /** `s.trimStart()`: `s` without its leading white space. */
  function TrimStart(s: string): string {
    s[LeadingSpaces(s)..]
  }

  /** `s.trim()`: `s` without its leading and trailing white space. */
  function Trim(s: string): (r: string)
    ensures |r| <= |s|
    ensures r == [] || (!IsSpace(r[0]) && !IsSpace(r[|r| - 1]))
  {
    var t := TrimStart(s);
    t[..TrailingStart(t)]
  }

  /** What `trim` removes is white space at either end, and what it keeps is a contiguous part of `s`. */
  lemma TrimIsInfix(s: string)
    ensures LeadingSpaces(s) + |Trim(s)| <= |s|
    ensures Trim(s) == s[LeadingSpaces(s)..LeadingSpaces(s) + |Trim(s)|]
    ensures forall k :: 0 <= k < LeadingSpaces(s) ==> IsSpace(s[k])
    ensures forall k :: LeadingSpaces(s) + |Trim(s)| <= k < |s| ==> IsSpace(s[k])
  {
    var i := LeadingSpaces(s);
    var t := s[i..];
    var j := TrailingStart(t);
    SuffixPrefix(s, i, j);
    assert Trim(s) == t[..j];
    forall k | i + j <= k < |s| ensures IsSpace(s[k]) {
      assert IsSpace(t[k - i]);
    }
  }

  /** A prefix of a suffix is an infix, and the suffix is indexed from where it starts. */
  lemma SuffixPrefix<T>(s: seq<T>, i: nat, j: nat)
    requires i <= |s| && j <= |s| - i
    ensures s[i..][..j] == s[i..i + j]
    ensures forall k :: i <= k < |s| ==> s[i..][k - i] == s[k]
  {
  }

  lemma LeadingSpacesUnique(s: string, k: nat)
    requires k <= |s|
    requires forall i :: 0 <= i < k ==> IsSpace(s[i])
    requires k < |s| ==> !IsSpace(s[k])
    ensures LeadingSpaces(s) == k
  {
  }

  lemma TrailingStartUnique(s: string, j: nat)
    requires j <= |s|
    requires forall i :: j <= i < |s| ==> IsSpace(s[i])
    requires 0 < j ==> !IsSpace(s[j - 1])
    ensures TrailingStart(s) == j
  {
  }

  /** Trimming a trimmed string changes nothing. */
  lemma TrimIdempotent(s: string)
    ensures Trim(Trim(s)) == Trim(s)
  {
    var t := Trim(s);
    LeadingSpacesUnique(t, 0);
    TrailingStartUnique(t, |t|);
  }

  lemma LeadingSpacesOfLower(s: string)
    ensures LeadingSpaces(Lower(s)) == LeadingSpaces(s)
  {
    LeadingSpacesUnique(Lower(s), LeadingSpaces(s));
  }

  lemma TrailingStartOfLower(s: string)
    ensures TrailingStart(Lower(s)) == TrailingStart(s)
  {
    TrailingStartUnique(Lower(s), TrailingStart(s));
  }

  /** Lower-casing and trimming commute, since case mapping keeps white space white. */
  lemma TrimLowerCommute(s: string)
    ensures Trim(Lower(s)) == Lower(Trim(s))
  {
    var i := LeadingSpaces(s);
    LeadingSpacesOfLower(s);
    LowerSlice(s, i, |s|);
    var t := s[i..];
    assert TrimStart(Lower(s)) == Lower(t);
    TrailingStartOfLower(t);
    LowerSlice(t, 0, TrailingStart(t));
  }

  /** The length JavaScript reports: code points above U+FFFF take two UTF-16 code units. */
  function JsLength(s: string): (n: nat)
    ensures |s| <= n <= 2 * |s|
  {
    if s == [] then 0 else (if s[0] as int > 0xFFFF then 2 else 1) + JsLength(s[1..])
  }

  lemma {:induction false} JsLengthOfBmp(s: string)
    requires forall i :: 0 <= i < |s| ==> s[i] as int <= 0xFFFF
    ensures JsLength(s) == |s|
  {
    if s != [] {
      JsLengthOfBmp(s[1..]);
    }
  }

  function DigitValue(c: char): (d: nat)
    requires IsDigit(c)
    ensures d < 10
  {
    c as int - '0' as int
  }

  function DigitChar(d: nat): (c: char)
    requires d < 10
    ensures IsDigit(c) && DigitValue(c) == d
  {
    ('0' as int + d) as char
  }

  /** `Number(s)` for a string of ASCII digits ("" counts as 0, as in JavaScript). */
  function DigitsValue(s: string): nat
    requires AllDigits(s)
  {
    if s == [] then 0 else 10 * DigitsValue(s[..|s| - 1]) + DigitValue(s[|s| - 1])
  }

  function Pow10(n: nat): (p: nat)
    ensures p >= 1
  {
    if n == 0 then 1 else 10 * Pow10(n - 1)
  }

  /** `n` digits read as a number stay below `10^n`. */
  lemma {:induction false} DigitsValueBelow(s: string)
    requires AllDigits(s)
    ensures DigitsValue(s) < Pow10(|s|)
  {
    if s != [] {
      DigitsValueBelow(s[..|s| - 1]);
    }
  }

  /** `String(n)` for a natural number: decimal digits, no leading zero. */
  function NatToString(n: nat): (s: string)
    ensures 1 <= |s| && AllDigits(s)
    ensures DigitsValue(s) == n
    ensures |s| > 1 ==> s[0] != '0'
    ensures n < 10 <==> |s| == 1
  {
    if n < 10 then [DigitChar(n)]
    else
      var p := NatToString(n / 10);
      var s := p + [DigitChar(n % 10)];
      assert s[..|s| - 1] == p;
      s
  }

  /** `String(i)` for an integer. */
  function IntToString(i: int): string {
    if i < 0 then "-" + NatToString(-i) else NatToString(i)
  }

  /** `s.padStart(2, '0')`. */
  function PadStart2(s: string): (r: string)
    ensures |r| == if |s| < 2 then 2 else |s|
    ensures r[|r| - |s|..] == s
    ensures forall i :: 0 <= i < |r| - |s| ==> r[i] == '0'
  {
    if |s| == 0 then "00" else if |s| == 1 then "0" + s else s
  }

  /** `String(n).padStart(2, '0')`. */
  function Pad2(n: nat): string {
    PadStart2(NatToString(n))
  }

  /** Below 100, `Pad2` is exactly two digits and reads back as `n`. */
  lemma Pad2Digits(n: nat)
    requires n < 100
    ensures |Pad2(n)| == 2 && AllDigits(Pad2(n))
    ensures DigitsValue(Pad2(n)) == n
  {
    var s := NatToString(n);
    if n < 10 {
      assert Pad2(n) == ['0', DigitChar(n)];
    } else {
      var p := NatToString(n / 10);
      assert |p| == 1;
      assert s == p + [DigitChar(n % 10)];
      assert p[0] == DigitChar(n / 10) by {
        assert DigitsValue(p) == DigitValue(p[0]) by { assert p[..0] == []; }
      }
    }
    assert Pad2(n)[..1] == [Pad2(n)[0]];
  }

  lemma TwoDigitsValue(s: string)
    requires |s| == 2 && AllDigits(s)
    ensures DigitsValue(s) == 10 * DigitValue(s[0]) + DigitValue(s[1])
  {
    var p := s[..1];
    assert p[..0] == [];
    assert DigitsValue(p) == DigitValue(s[0]);
  }

  /** Two texts of two digits with the same value are the same text. */
  lemma TwoDigitsInjective(a: string, b: string)
    requires |a| == 2 && |b| == 2 && AllDigits(a) && AllDigits(b)
    requires DigitsValue(a) == DigitsValue(b)
    ensures a == b
  {
    TwoDigitsValue(a);
    TwoDigitsValue(b);
    assert DigitValue(a[0]) == DigitValue(b[0]) && DigitValue(a[1]) == DigitValue(b[1]);
    assert a[0] == b[0] && a[1] == b[1];
  }

  /** Two-digit texts are in one-to-one correspondence with 0..99. */
  lemma Pad2OfValue(s: string)
    requires |s| == 2 && AllDigits(s)
    ensures DigitsValue(s) < 100 && Pad2(DigitsValue(s)) == s
  {
    TwoDigitsValue(s);
    Pad2Digits(DigitsValue(s));
    TwoDigitsInjective(Pad2(DigitsValue(s)), s);
  }

  /** Number of leading ASCII digits of `s`. */
  function LeadingDigits(s: string): (k: nat)
    ensures k <= |s| && AllDigits(s[..k])
    ensures k < |s| ==> !IsDigit(s[k])
  {
    if |s| > 0 && IsDigit(s[0]) then
      var k := 1 + LeadingDigits(s[1..]);
      assert s[..k] == [s[0]] + s[1..][..k - 1];
      k
    else 0
  }

  /**
   * `parseInt(s, 10)`: skip leading white space, read an optional sign and the
   * longest run of digits; `None` stands for `NaN` (no digit at all).
   */
  function ParseInt(s: string): (r: Option<int>)
    ensures r.None? <==> var t := TrimStart(s);
      LeadingDigits(if |t| > 0 && (t[0] == '+' || t[0] == '-') then t[1..] else t) == 0
  {
    var t := TrimStart(s);
    var signed := |t| > 0 && (t[0] == '+' || t[0] == '-');
    var body := if signed then t[1..] else t;
    var k := LeadingDigits(body);
    if k == 0 then None
    else
      var v: int := DigitsValue(body[..k]);
      Some(if signed && t[0] == '-' then -v else v)
  }

  /** A string of digits with no leading white space or sign parses to its own value. */
  lemma ParseIntOfDigits(s: string)
    requires |s| > 0 && AllDigits(s)
    ensures ParseInt(s) == Some(DigitsValue(s))
  {
    LeadingSpacesUnique(s, 0);
    assert TrimStart(s) == s;
    var k := LeadingDigits(s);
    assert k == |s|;
    assert s[..k] == s;
  }

  /** The leading digits of a text are a run of digits ended by the first non-digit. */
  lemma {:induction false} LeadingDigitsUnique(s: string, k: nat)
    requires k <= |s| && AllDigits(s[..k])
    requires k < |s| ==> !IsDigit(s[k])
    ensures LeadingDigits(s) == k
  {
    if k > 0 {
      assert s[..k][0] == s[0];
      assert s[1..][..k - 1] == s[..k][1..];
      LeadingDigitsUnique(s[1..], k - 1);
    }
  }

  lemma TrimStartAt(s: string, i: nat)
    requires i <= |s| && forall n :: 0 <= n < i ==> IsSpace(s[n])
    requires i < |s| ==> !IsSpace(s[i])
    ensures TrimStart(s) == s[i..]
  {
    LeadingSpacesUnique(s, i);
  }

  /** A sign or a digit is not white space. */
  lemma NumeralStartIsNotSpace(c: char)
    requires c == '+' || c == '-' || IsDigit(c)
    ensures !IsSpace(c)
  {
  }

  /**
   * `parseInt` of a text made of white space before `i`, an optional sign at
   * `i`, digits from `j` up to `k` and anything not starting with a digit
   * from `k` on (" -3", "12abc") is the signed value of those digits.
   */
  lemma ParseIntOfNumeral(s: string, i: nat, j: nat, k: nat)
    requires i <= j <= i + 1 && j < k <= |s|
    requires forall n :: 0 <= n < i ==> IsSpace(s[n])
    requires j == i + 1 ==> s[i] == '+' || s[i] == '-'
    requires AllDigits(s[j..k])
    requires k < |s| ==> !IsDigit(s[k])
    ensures ParseInt(s) == Some(if j == i + 1 && s[i] == '-' then -(DigitsValue(s[j..k]) as int) else DigitsValue(s[j..k]))
  {
    var t := TrimStart(s);
    var signed := |t| > 0 && (t[0] == '+' || t[0] == '-');
    var body := if signed then t[1..] else t;
    assert (signed <==> j == i + 1) && (signed ==> t[0] == s[i]) && LeadingDigits(body) == k - j
      && body[..k - j] == s[j..k] by {
      assert s[j..k][0] == s[j];
      NumeralStartIsNotSpace(s[i]);
      TrimStartAt(s, i);
      assert body == s[j..];
      assert body[..k - j] == s[j..k];
      assert k - j < |body| ==> body[k - j] == s[k];
      LeadingDigitsUnique(body, k - j);
    }
  }

  /** `parseInt(" -3", 10)` is -3. */
  lemma ParseIntSignedSample()
    ensures ParseInt(" -3") == Some(-3)
  {
    ParseIntOfNumeral(" -3", 1, 2, 3);
    assert " -3"[2..3] == "3";
  }

  /** `parseInt("12abc", 10)` is 12. */
  lemma ParseIntSuffixSample()
    ensures ParseInt("12abc") == Some(12)
  {
    ParseIntOfNumeral("12abc", 0, 0, 2);
    assert "12abc"[0..2] == "12" && "12"[..1] == "1";
  }

  /** `parseInt(" -3", 10)` is -3 and `parseInt("12abc", 10)` is 12. */
  lemma ParseIntSamples()
    ensures ParseInt(" -3") == Some(-3)
    ensures ParseInt("12abc") == Some(12)
  {
    ParseIntSignedSample();
    ParseIntSuffixSample();
  }
}
