/** The JavaScript string operations the screens use: `trim`, `toLowerCase`,
    `includes`, `Number.prototype.toString` on whole numbers and `padStart`. */
module Text {

  /** ECMAScript WhiteSpace and LineTerminator code points: what `trim` strips
      and what the regular-expression class `\s` matches (`\S` is its complement). */
  predicate IsWhitespace(c: char) {
    || c == '\t' || c == '\n' || c == '\U{000B}' || c == '\U{000C}' || c == '\r'
    || c == ' ' || c == '\U{00A0}' || c == '\U{1680}'
    || ('\U{2000}' <= c <= '\U{200A}')
    || c == '\U{2028}' || c == '\U{2029}' || c == '\U{202F}' || c == '\U{205F}'
    || c == '\U{3000}' || c == '\U{FEFF}'
  }

  ghost predicate AllWhitespace(s: string) {
    forall i | 0 <= i < |s| :: IsWhitespace(s[i])
  }

  /** The first index from `i` on that holds a non-whitespace character, or `|s|`. */
  function FirstSolid(s: string, i: nat): (k: nat)
    requires i <= |s|
    ensures i <= k <= |s|
    ensures forall m | i <= m < k :: IsWhitespace(s[m])
    ensures k < |s| ==> !IsWhitespace(s[k])
    decreases |s| - i
  {
    if i == |s| || !IsWhitespace(s[i]) then i else FirstSolid(s, i + 1)
  }

  /** Scanning back from `j` to `lo`: the end of the last non-whitespace character, or `lo`. */
  function SolidEnd(s: string, lo: nat, j: nat): (k: nat)
    requires lo <= j <= |s|
    ensures lo <= k <= j
    ensures forall m | k <= m < j :: IsWhitespace(s[m])
    ensures k > lo ==> !IsWhitespace(s[k - 1])
    decreases j
  {
    if j == lo || !IsWhitespace(s[j - 1]) then j else SolidEnd(s, lo, j - 1)
  }

  /** `String.prototype.trim`: `s` without its leading and trailing whitespace. */
  function Trim(s: string): (r: string)
    ensures r == [] <==> AllWhitespace(s)
    ensures r != [] ==> !IsWhitespace(r[0]) && !IsWhitespace(r[|r| - 1])
    ensures |r| <= |s|
  {
    var a := FirstSolid(s, 0);
    var b := SolidEnd(s, a, |s|);
    assert a < |s| ==> a < b;
    s[a..b]
  }

  /** Trimming cuts only whitespace, from the two ends, and keeps the middle as it is. */
  lemma {:induction false} TrimCutsEnds(s: string)
    ensures exists a, b | 0 <= a <= b <= |s| ::
      && Trim(s) == s[a..b]
      && (forall m | 0 <= m < a :: IsWhitespace(s[m]))
      && (forall m | b <= m < |s| :: IsWhitespace(s[m]))
  {
    var a := FirstSolid(s, 0);
    var b := SolidEnd(s, a, |s|);
    assert Trim(s) == s[a..b];
  }

  /** `toLowerCase` on the ASCII letters; every other character is kept. */
  function LowerChar(c: char): char {
    if 'A' <= c <= 'Z' then (c as int + 32) as char else c
  }

  predicate IsUpper(c: char) { 'A' <= c <= 'Z' }

  /** Each ASCII capital becomes the small letter at the same place in the
      alphabet; every other character is kept. */
  function ToLower(s: string): (r: string)
    ensures |r| == |s|
    ensures forall i | 0 <= i < |s| && IsUpper(s[i]) ::
      'a' <= r[i] <= 'z' && r[i] as int - 'a' as int == s[i] as int - 'A' as int
    ensures forall i | 0 <= i < |s| && !IsUpper(s[i]) :: r[i] == s[i]
  {
    seq(|s|, i requires 0 <= i < |s| => LowerChar(s[i]))
  }

  /** The lowered string has no ASCII capital, and lowering it again changes nothing. */
  lemma ToLowerIdempotent(s: string)
    ensures forall i | 0 <= i < |s| :: !IsUpper(ToLower(s)[i])
    ensures ToLower(ToLower(s)) == ToLower(s)
  {
    var r := ToLower(s);
    forall i | 0 <= i < |s| ensures !IsUpper(r[i]) {
      if IsUpper(s[i]) {
        assert 'a' <= r[i] <= 'z';
      }
    }
  }

  /** `a` and `b` differ at most in the case of ASCII letters. */
  ghost predicate SameUpToCase(a: string, b: string) {
    && |a| == |b|
    && forall i | 0 <= i < |a| ::
      || a[i] == b[i]
      || (IsUpper(a[i]) && b[i] as int == a[i] as int + 32)
      || (IsUpper(b[i]) && a[i] as int == b[i] as int + 32)
  }

  /** Strings that differ only in the case of ASCII letters lower to the same string. */
  lemma ToLowerIgnoresCase(a: string, b: string)
    requires SameUpToCase(a, b)
    ensures ToLower(a) == ToLower(b)
  {
    var ra, rb := ToLower(a), ToLower(b);
    forall i | 0 <= i < |a| ensures ra[i] == rb[i] {
      if IsUpper(a[i]) {
        assert ra[i] as int == a[i] as int + 32;
      }
      if IsUpper(b[i]) {
        assert rb[i] as int == b[i] as int + 32;
      }
    }
  }

  /** The positions of `s` holding a character above U+FFFF, which UTF-16
      writes as a surrogate pair. */
  ghost function AstralPositions(s: string): set<int> {
    set i | 0 <= i < |s| && s[i] as int > 0xFFFF
  }

  /** `s.length` in JavaScript: UTF-16 code units, one per character and one
      more for each character above U+FFFF. */
  function Utf16Length(s: string): (n: nat)
    ensures n == |s| + |AstralPositions(s)|
    ensures n == |s| <==> forall i | 0 <= i < |s| :: s[i] as int <= 0xFFFF
  {
    assert AstralPositions(s) == AstralFrom(s, 0);
    UnitsFrom(s, 0)
  }

  /** The positions from `k` on holding a character above U+FFFF. */
  ghost function AstralFrom(s: string, k: nat): set<int> {
    set i | k <= i < |s| && s[i] as int > 0xFFFF
  }

  /** The code units of `s[k..]`. */
  function UnitsFrom(s: string, k: nat): (n: nat)
    requires k <= |s|
    ensures n == |s| - k + |AstralFrom(s, k)|
    ensures n == |s| - k <==> forall i | k <= i < |s| :: s[i] as int <= 0xFFFF
    decreases |s| - k
  {
    if k == |s| then
      assert AstralFrom(s, k) == {};
      0
    else
      var rest := UnitsFrom(s, k + 1);
      assert k !in AstralFrom(s, k + 1);
      assert AstralFrom(s, k) == (if s[k] as int > 0xFFFF then {k} else {}) + AstralFrom(s, k + 1);
      (if s[k] as int > 0xFFFF then 2 else 1) + rest
  }

  /** `String.prototype.includes`: `sub` occurs in `s` at some position. */
  predicate Includes(s: string, sub: string) {
    exists i | 0 <= i <= |s| - |sub| :: OccursAt(s, sub, i)
  }

  predicate OccursAt(s: string, sub: string, i: nat) {
    i + |sub| <= |s| && s[i..i + |sub|] == sub
  }

  /** Every string includes the empty string. */
  lemma IncludesEmpty(s: string)
    ensures Includes(s, "")
  {
    assert OccursAt(s, "", 0);
  }

  predicate IsDigit(c: char) { '0' <= c <= '9' }

  function DigitChar(d: nat): (c: char)
    requires d < 10
    ensures IsDigit(c)
  {
    ('0' as int + d) as char
  }

  function DigitValue(c: char): nat
    requires IsDigit(c)
  {
    c as int - '0' as int
  }

  /** The decimal value of a string of digits (leading zeros allowed). */
  predicate AllDigits(s: string) {
    forall i | 0 <= i < |s| :: IsDigit(s[i])
  }

  function DecimalValue(s: string): nat
    requires AllDigits(s)
  {
    if s == [] then 0
    else DecimalValue(s[..|s| - 1]) * 10 + DigitValue(s[|s| - 1])
  }

  /** The decimal text of a whole number, as `n.toString()` writes it. */
  function NatToString(n: nat): (r: string)
    ensures |r| >= 1 && AllDigits(r)
    ensures r[0] == '0' ==> n == 0
    ensures n < 10 <==> |r| == 1
  {
    if n < 10 then [DigitChar(n)] else NatToString(n / 10) + [DigitChar(n % 10)]
  }

  /** Reading the decimal text back gives the number. */
  lemma {:induction false} NatToStringRoundTrip(n: nat)
    ensures DecimalValue(NatToString(n)) == n
  {
    var r := NatToString(n);
    if n >= 10 {
      NatToStringRoundTrip(n / 10);
      assert r[..|r| - 1] == NatToString(n / 10);
    }
  }

  /** `n` copies of `c`. */
  function Repeat(c: char, n: nat): (r: string)
    ensures |r| == n && forall i | 0 <= i < n :: r[i] == c
  {
    seq(n, _ => c)
  }

  /** `s.padStart(width, fill)`: `fill` repeated in front of `s` up to `width` characters. */
  function PadStart(s: string, width: nat, fill: char): (r: string)
    ensures |r| == if |s| >= width then |s| else width
    ensures r[|r| - |s|..] == s
    ensures forall i | 0 <= i < |r| - |s| :: r[i] == fill
  {
    if |s| >= width then s
    else
      var pad := Repeat(fill, width - |s|);
      assert (pad + s)[|pad|..] == s;
      pad + s
  }
}
