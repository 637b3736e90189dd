/**
 * The string operations of the JavaScript runtime (and of SQLite's integer
 * affinity) that the application's decisions depend on: `trim`,
 * `toLowerCase` as comparisons with ASCII keys see it, number-to-text,
 * `parseInt` and integer text.
 */
module JsString {
  import opened Options

  // ---------------------------------------------------------------------------
  // trim

  /** The WhiteSpace and LineTerminator code points of ECMAScript: what `trim` removes. */
  predicate IsJsSpace(c: char) {
    || c == '\t' || c == '\n' || c == '\U{000B}' || c == '\U{000C}' || c == '\r' || c == ' '
    || c == '\U{00A0}' || c == '\U{1680}' || ('\U{2000}' <= c <= '\U{200A}')
    || c == '\U{2028}' || c == '\U{2029}' || c == '\U{202F}' || c == '\U{205F}'
    || c == '\U{3000}' || c == '\U{FEFF}'
  }

  /** Every character is white space (the empty string included). */
  predicate Blank(s: string) {
    forall i :: 0 <= i < |s| ==> IsJsSpace(s[i])
  }

  /** The number of white-space characters `s` starts with. */
  function LeadingSpaces(s: string): (k: nat)
    ensures k <= |s|
    ensures forall i :: 0 <= i < k ==> IsJsSpace(s[i])
    ensures k < |s| ==> !IsJsSpace(s[k])
  {
    if |s| > 0 && IsJsSpace(s[0]) then
      var k := 1 + LeadingSpaces(s[1..]);
      assert forall i :: 1 <= i < k ==> s[i] == s[1..][i - 1];
      k
    else 0
  }

  /** The number of white-space characters `s` ends with. */
  function TrailingSpaces(s: string): (k: nat)
    ensures k <= |s|
    ensures forall i :: |s| - k <= i < |s| ==> IsJsSpace(s[i])
    ensures k < |s| ==> !IsJsSpace(s[|s| - k - 1])
  {
    if |s| > 0 && IsJsSpace(s[|s| - 1]) then
      var k := 1 + TrailingSpaces(s[..|s| - 1]);
      assert forall i :: |s| - k <= i < |s| - 1 ==> s[i] == s[..|s| - 1][i];
      k
    else 0
  }

  function TrimStart(s: string): string {
    s[LeadingSpaces(s)..]
  }

  function TrimEnd(s: string): string {
    s[..|s| - TrailingSpaces(s)]
  }

  /** `String.prototype.trim`: the string without its leading and trailing white space. */
  function Trim(s: string): (r: string)
    ensures |r| > 0 ==> !IsJsSpace(r[0]) && !IsJsSpace(r[|r| - 1])
  {
    var t := TrimStart(s);
    assert |t| > 0 ==> t[0] == s[LeadingSpaces(s)];
    assert |TrimEnd(t)| > 0 ==> TrimEnd(t)[0] == t[0];
    TrimEnd(t)
  }

  /** `s.trim()` is falsy exactly when `s` consists of white space only. */
  lemma TrimEmptyIffBlank(s: string)
    ensures Trim(s) == "" <==> Blank(s)
  {
    var k := LeadingSpaces(s);
    var t := s[k..];
    if k < |s| {
      assert t[0] == s[k];
      assert TrailingSpaces(t) < |t|;
      assert Trim(s) != "" && !Blank(s);
    }
  }

  /** A string whose ends are not white space is its own trim. */
  lemma TrimOfClean(s: string)
    requires |s| > 0 ==> !IsJsSpace(s[0]) && !IsJsSpace(s[|s| - 1])
    ensures Trim(s) == s
  {
    assert LeadingSpaces(s) == 0;
    assert s[0..] == s;
  }

  /** Trailing white space of a concatenation: the right part's, reaching into the left only when the right is blank. */
  lemma {:induction false} TrailingSpacesConcat(p: string, q: string)
    ensures !Blank(q) ==> TrailingSpaces(p + q) == TrailingSpaces(q)
    ensures Blank(q) ==> TrailingSpaces(p + q) == TrailingSpaces(p) + |q|
    decreases |q|
  {
    if |q| == 0 {
      assert p + q == p;
    } else if IsJsSpace(q[|q| - 1]) {
      var q' := q[..|q| - 1];
      assert (p + q)[..|p + q| - 1] == p + q';
      TrailingSpacesConcat(p, q');
      assert Blank(q) <==> Blank(q') by {
        if Blank(q') {
          assert forall i :: 0 <= i < |q| - 1 ==> q[i] == q'[i];
        }
      }
    } else {
      assert !Blank(q);
    }
  }

  /** Trimming a string that starts with a clean, non-empty part only trims the end of the rest. */
  lemma TrimAfterClean(p: string, q: string)
    requires |p| > 0 && !IsJsSpace(p[0]) && !IsJsSpace(p[|p| - 1])
    ensures Trim(p + q) == p + TrimEnd(q)
  {
    assert (p + q)[0] == p[0];
    assert LeadingSpaces(p + q) == 0;
    assert (p + q)[0..] == p + q;
    assert TrailingSpaces(p) == 0;
    TrailingSpacesConcat(p, q);
    if Blank(q) {
      assert (p + q)[..|p|] == p;
    } else {
      assert (p + q)[..|p + q| - TrailingSpaces(q)] == p + q[..|q| - TrailingSpaces(q)];
    }
  }

  /** Trimming the end of a space and a text: nothing when the text is blank, else the space and the text's own trimmed end. */
  lemma TrimEndAfterSpace(t: string)
    ensures Blank(t) ==> TrimEnd(" " + t) == ""
    ensures !Blank(t) ==> TrimEnd(" " + t) == " " + TrimEnd(t)
  {
    TrailingSpacesConcat(" ", t);
    if !Blank(t) {
      assert (" " + t)[..|" " + t| - TrailingSpaces(t)] == " " + t[..|t| - TrailingSpaces(t)];
    }
  }

  /** Trimming twice is trimming once. */
  lemma TrimIdempotent(s: string)
    ensures Trim(Trim(s)) == Trim(s)
  {
    TrimOfClean(Trim(s));
  }

  // ---------------------------------------------------------------------------
  // toLowerCase, as far as comparisons with ASCII keys can tell

  /**
   * A character lowered: an ASCII capital becomes its small letter, and the
   * Kelvin sign, the one non-ASCII code point `toLowerCase` maps into ASCII,
   * becomes 'k'. Every other character is kept.
   */
  function LowerChar(c: char): (r: char)
    ensures 'a' <= r <= 'z' <==> 'a' <= c <= 'z' || 'A' <= c <= 'Z' || c == '\U{212A}'
    ensures r != c ==> 'A' <= c <= 'Z' || c == '\U{212A}'
  {
    if 'A' <= c <= 'Z' then (c as int + 32) as char
    else if c == '\U{212A}' then 'k'
    else c
  }

  /**
   * `toLowerCase` as seen by a comparison with an ASCII lower-case key:
   * the two agree on whether the lowered text equals the key. Any other
   * character `toLowerCase` changes is lowered to one outside ASCII (or, for
   * U+0130, to two characters one of which is outside ASCII), and the model
   * keeps such a character outside ASCII as it is.
   */
  function LowerCase(s: string): (r: string)
    ensures |r| == |s|
    ensures forall i :: 0 <= i < |s| ==> r[i] == LowerChar(s[i])
  {
    seq(|s|, i requires 0 <= i < |s| => LowerChar(s[i]))
  }

  /** A string without ASCII capitals or Kelvin signs is its own lower case. */
  lemma LowerCaseOfNoUpper(s: string)
    requires forall i :: 0 <= i < |s| ==> !('A' <= s[i] <= 'Z') && s[i] != '\U{212A}'
    ensures LowerCase(s) == s
  {
  }

  lemma LowerCaseIdempotent(s: string)
    ensures LowerCase(LowerCase(s)) == LowerCase(s)
  {
  }

  // ---------------------------------------------------------------------------
  // digits and number-to-text

  /** The value of `c` as a digit in base `radix` (letters count from 10), if it is one. */
  function DigitValue(c: char, radix: nat): (r: Option<nat>)
    ensures r.Some? ==> r.value < radix
  {
    var d :=
      if '0' <= c <= '9' then c as int - '0' as int
      else if 'a' <= c <= 'z' then c as int - 'a' as int + 10
      else if 'A' <= c <= 'Z' then c as int - 'A' as int + 10
      else radix;
    if d < radix then Some(d) else None
  }

  predicate AllDigits(s: string, radix: nat) {
    forall i :: 0 <= i < |s| ==> DigitValue(s[i], radix).Some?
  }

  /** The number that the digit string `ds` writes in base `radix`. */
  function DigitsValue(ds: string, radix: nat): nat
    requires AllDigits(ds, radix)
  {
    if |ds| == 0 then 0
    else DigitsValue(ds[..|ds| - 1], radix) * radix + DigitValue(ds[|ds| - 1], radix).value
  }

  function DigitChar(d: nat): (c: char)
    requires d < 10
    ensures DigitValue(c, 10) == Some(d)
  {
    ('0' as int + d) as char
  }

  /** The decimal text of a natural number, as `String(n)` writes it. */
  function NatText(n: nat): (r: string)
    ensures |r| > 0 && AllDigits(r, 10)
    ensures |r| > 1 ==> r[0] != '0'
    ensures r[0] != '-' && r[0] != '+' && !IsJsSpace(r[0])
  {
    if n < 10 then [DigitChar(n)] else NatText(n / 10) + [DigitChar(n % 10)]
  }

  /** `String(n)` for an integer. */
  function IntText(n: int): (r: string)
    ensures |r| > 0
  {
    if n < 0 then "-" + NatText(-n) else NatText(n)
  }

  lemma {:induction false} NatTextValue(n: nat)
    ensures DigitsValue(NatText(n), 10) == n
  {
    if n >= 10 {
      var t := NatText(n);
      assert t[..|t| - 1] == NatText(n / 10);
      NatTextValue(n / 10);
    }
  }

  // ---------------------------------------------------------------------------
  // parseInt and SQLite integer text

  /** The longest prefix of `s` made of base-`radix` digits. */
  function DigitPrefix(s: string, radix: nat): (r: string)
    ensures |r| <= |s| && AllDigits(r, radix) && r == s[..|r|]
    ensures |r| < |s| ==> DigitValue(s[|r|], radix).None?
  {
    if |s| > 0 && DigitValue(s[0], radix).Some? then [s[0]] + DigitPrefix(s[1..], radix) else []
  }

  lemma {:induction false} DigitPrefixOfDigits(s: string, radix: nat)
    requires AllDigits(s, radix)
    ensures DigitPrefix(s, radix) == s
  {
    if |s| > 0 {
      DigitPrefixOfDigits(s[1..], radix);
    }
  }

  /**
   * `parseInt(s)` with no radix: leading white space and one sign are skipped,
   * a `0x`/`0X` prefix selects base 16, and the longest run of digits is read.
   * `None` is NaN (no digit at all).
   */
  function ParseInt(s: string): Option<int> {
    var t := TrimStart(s);
    var negative := |t| > 0 && t[0] == '-';
    var u := if |t| > 0 && (t[0] == '-' || t[0] == '+') then t[1..] else t;
    var hex := |u| >= 2 && u[0] == '0' && (u[1] == 'x' || u[1] == 'X');
    var radix := if hex then 16 else 10;
    var ds := DigitPrefix(if hex then u[2..] else u, radix);
    if ds == [] then None
    else Some(if negative then -(DigitsValue(ds, radix) as int) else DigitsValue(ds, radix))
  }

  /** `parseInt` reads back every integer's decimal text. */
  lemma ParseIntOfIntText(n: int)
    ensures ParseInt(IntText(n)) == Some(n)
  {
    var m: nat := if n < 0 then -n else n;
    var u := NatText(m);
    var t := IntText(n);
    assert !IsJsSpace(t[0]);
    assert LeadingSpaces(t) == 0;
    assert TrimStart(t) == t;
    UnsignedDigitsParse(u);
    NatTextValue(m);
    if n < 0 {
      assert t[1..] == u;
    }
  }

  /** A decimal digit string has no hexadecimal prefix and is its own digit run. */
  lemma UnsignedDigitsParse(u: string)
    requires AllDigits(u, 10)
    ensures !(|u| >= 2 && u[0] == '0' && (u[1] == 'x' || u[1] == 'X'))
    ensures DigitPrefix(u, 10) == u
  {
    if |u| >= 2 {
      assert DigitValue(u[1], 10).Some?;
    }
    DigitPrefixOfDigits(u, 10);
  }

  /**
   * The integer a text value stands for when SQLite applies INTEGER affinity
   * to it: an optional sign followed by decimal digits and nothing else.
   */
  function SqlInteger(s: string): Option<int> {
    var negative := |s| > 0 && s[0] == '-';
    var u := if |s| > 0 && (s[0] == '-' || s[0] == '+') then s[1..] else s;
    if |u| > 0 && AllDigits(u, 10) then
      Some(if negative then -(DigitsValue(u, 10) as int) else DigitsValue(u, 10))
    else None
  }

  lemma SqlIntegerOfIntText(n: int)
    ensures SqlInteger(IntText(n)) == Some(n)
  {
    var m: nat := if n < 0 then -n else n;
    NatTextValue(m);
    if n < 0 {
      assert IntText(n)[1..] == NatText(m);
    }
  }

  /** Different integers have different texts. */
  lemma IntTextInjective(a: int, b: int)
    requires IntText(a) == IntText(b)
    ensures a == b
  {
    SqlIntegerOfIntText(a);
    SqlIntegerOfIntText(b);
  }

  lemma NatTextInjective(a: nat, b: nat)
    requires NatText(a) == NatText(b)
    ensures a == b
  {
    IntTextInjective(a, b);
  }
}
