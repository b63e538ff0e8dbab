/**
 * The JavaScript string and number primitives the worksheet tool leans on:
 * `trim`, ASCII `toLowerCase`/`toUpperCase`, `includes`, integer-to-text
 * conversion as done by template literals, `parseInt` with no radix, and
 * `String.fromCharCode`. Strings are sequences of Unicode scalar values.
 */
module JsText {
  import opened Wrappers

  /** The ECMAScript WhiteSpace and LineTerminator code points: what `trim` removes and `parseInt` skips. */
  predicate IsJsWhitespace(c: char) {
    var k := c as int;
    k == 0x09 || k == 0x0A || k == 0x0B || k == 0x0C || k == 0x0D || k == 0x20 || k == 0xA0
    || k == 0x1680 || (0x2000 <= k <= 0x200A) || k == 0x2028 || k == 0x2029
    || k == 0x202F || k == 0x205F || k == 0x3000 || k == 0xFEFF
  }

  predicate AllWhitespace(s: string) {
    forall i :: 0 <= i < |s| ==> IsJsWhitespace(s[i])
  }

  /** Drops leading whitespace: the result is the suffix of `s` that starts at its first non-space. */
  function TrimStart(s: string): (r: string)
    ensures |r| <= |s| && r == s[|s| - |r|..]
    ensures r != [] ==> !IsJsWhitespace(r[0])
    ensures AllWhitespace(s[..|s| - |r|])
    decreases |s|
  {
    if s != [] && IsJsWhitespace(s[0]) then
      var r := TrimStart(s[1..]);
      assert s[1..][..|s[1..]| - |r|] == s[1..|s| - |r|];
      r
    else s
  }

  /** Drops trailing whitespace: the result is the prefix of `s` that ends at its last non-space. */
  function TrimEnd(s: string): (r: string)
    ensures |r| <= |s| && r == s[..|r|]
    ensures r != [] ==> !IsJsWhitespace(r[|r| - 1])
    ensures AllWhitespace(s[|r|..])
    decreases |s|
  {
    if s != [] && IsJsWhitespace(s[|s| - 1]) then
      var r := TrimEnd(s[..|s| - 1]);
      assert s[..|s| - 1][|r|..] + [s[|s| - 1]] == s[|r|..];
      r
    else s
  }

  /** `String.prototype.trim`. */
  function Trim(s: string): string {
    TrimEnd(TrimStart(s))
  }

  /** A string trims to "" exactly when every character of it is whitespace. */
  lemma TrimEmptyIffBlank(s: string)
    ensures Trim(s) == [] <==> AllWhitespace(s)
  {
    var t := TrimStart(s);
    if Trim(s) == [] {
      assert t[0..] == t;
      assert t == [];
      assert s[..|s|] == s;
    }
  }

  /** The trimmed text neither starts nor ends with whitespace, and trimming it again changes nothing. */
  lemma TrimIdempotent(s: string)
    ensures var r := Trim(s); (r != [] ==> !IsJsWhitespace(r[0]) && !IsJsWhitespace(r[|r| - 1]))
    ensures Trim(Trim(s)) == Trim(s)
  {
    var t := TrimStart(s);
    var r := TrimEnd(t);
    if r != [] {
      assert r[0] == t[0];
    }
    assert TrimStart(r) == r;
  }

  function LowerChar(c: char): char {
    if 'A' <= c <= 'Z' then (c as int + 32) as char else c
  }

  function UpperChar(c: char): char {
    if 'a' <= c <= 'z' then (c as int - 32) as char else c
  }

  /** `toLowerCase`, over the ASCII letters only. */
  function ToLower(s: string): string {
    seq(|s|, i requires 0 <= i < |s| => LowerChar(s[i]))
  }

  /** `toUpperCase`, over the ASCII letters only. */
  function ToUpper(s: string): string {
    seq(|s|, i requires 0 <= i < |s| => UpperChar(s[i]))
  }

  /** Lower-casing is a projection: doing it twice is doing it once, and it leaves no upper-case ASCII letter. */
  lemma ToLowerIdempotent(s: string)
    ensures ToLower(ToLower(s)) == ToLower(s)
    ensures forall i :: 0 <= i < |s| ==> !('A' <= ToLower(s)[i] <= 'Z')
  {
  }

  /** `needle` sits in `hay` starting at position `i`. */
  predicate OccursAt(hay: string, needle: string, i: int) {
    0 <= i <= |hay| - |needle| && hay[i..i + |needle|] == needle
  }

  /** An occurrence at `i > 0` in `hay` is an occurrence at `i - 1` in `hay` without its first character. */
  lemma OccursAtShift(hay: string, needle: string, i: int)
    requires hay != [] && 0 < i
    ensures OccursAt(hay, needle, i) <==> OccursAt(hay[1..], needle, i - 1)
  {
    if i <= |hay| - |needle| {
      var here, there := hay[i..i + |needle|], hay[1..][i - 1..i - 1 + |needle|];
      forall t | 0 <= t < |needle| ensures here[t] == there[t] { }
      assert here == there;
    }
  }

  /** `String.prototype.includes`: `needle` occurs somewhere in `hay` as a contiguous piece. */
  function Includes(hay: string, needle: string): (b: bool)
    ensures b <==> exists i :: OccursAt(hay, needle, i)
    decreases |hay|
  {
    if needle <= hay then
      assert OccursAt(hay, needle, 0);
      true
    else if hay == [] then
      false
    else
      var b := Includes(hay[1..], needle);
      if b then
        var j :| OccursAt(hay[1..], needle, j);
        OccursAtShift(hay, needle, j + 1);
        true
      else
        forall i | 0 <= i <= |hay| - |needle| ensures !OccursAt(hay, needle, i) {
          if i > 0 {
            OccursAtShift(hay, needle, i);
          }
        }
        false
  }

  function DigitChar(d: nat): char
    requires d < 10
  {
    ('0' as int + d) as char
  }

  /** Decimal text of a natural number, as a template literal prints it. */
  function NatToString(n: nat): (s: string)
    ensures |s| >= 1
    ensures forall i :: 0 <= i < |s| ==> '0' <= s[i] <= '9'
    decreases n
  {
    if n < 10 then [DigitChar(n)] else NatToString(n / 10) + [DigitChar(n % 10)]
  }

  /** Decimal text of an integer, with a leading '-' when it is negative. */
  function IntToString(i: int): string {
    if i < 0 then "-" + NatToString(-i) else NatToString(i)
  }

  /** The value of `c` as a digit in base `radix` (10 or 16), if it is one. */
  function DigitValue(c: char, radix: nat): (d: Option<nat>)
    ensures d.Some? ==> d.value < radix
  {
    if '0' <= c <= '9' && (c as int - '0' as int) < radix then Some(c as int - '0' as int)
    else if radix == 16 && 'a' <= c <= 'f' then Some(c as int - 'a' as int + 10)
    else if radix == 16 && 'A' <= c <= 'F' then Some(c as int - 'A' as int + 10)
    else None
  }

  predicate AllDigits(s: string, radix: nat) {
    forall i :: 0 <= i < |s| ==> DigitValue(s[i], radix).Some?
  }

  /** Length of the longest prefix of `s` made of base-`radix` digits. */
  function DigitPrefixLength(s: string, radix: nat): (n: nat)
    ensures n <= |s|
    decreases |s|
  {
    if s != [] && DigitValue(s[0], radix).Some? then 1 + DigitPrefixLength(s[1..], radix) else 0
  }

  /** The prefix DigitPrefixLength measures is all digits and cannot be extended. */
  lemma {:induction false} DigitPrefixIsLongest(s: string, radix: nat)
    ensures var n := DigitPrefixLength(s, radix);
      AllDigits(s[..n], radix) && (n < |s| ==> DigitValue(s[n], radix).None?)
    decreases |s|
  {
    if s != [] && DigitValue(s[0], radix).Some? {
      DigitPrefixIsLongest(s[1..], radix);
      var n := DigitPrefixLength(s, radix);
      assert forall i :: 1 <= i < n ==> s[..n][i] == s[1..][..n - 1][i - 1];
    }
  }

  /** The number a string of base-`radix` digits denotes, most significant digit first. */
  function DigitsValue(s: string, radix: nat): nat
    decreases |s|
  {
    if s == [] then 0
    else DigitsValue(s[..|s| - 1], radix) * radix + DigitValue(s[|s| - 1], radix).GetOr(0)
  }

  /** The unsigned part of `parseInt`: a "0x"/"0X" prefix selects base 16, then the longest run of digits is read. */
  function ParseMagnitude(u: string): Option<nat> {
    var hex := |u| >= 2 && u[0] == '0' && (u[1] == 'x' || u[1] == 'X');
    var radix := if hex then 16 else 10;
    var v := if hex then u[2..] else u;
    var z := v[..DigitPrefixLength(v, radix)];
    if z == [] then None else Some(DigitsValue(z, radix))
  }

  /**
   * `parseInt(s)` with no radix: skip leading whitespace, take one optional sign,
   * then read the magnitude. None stands for NaN, which is what an empty run of digits yields.
   */
  function ParseInt(s: string): Option<int> {
    var (negative, unsigned) := SplitSign(TrimStart(s));
    match ParseMagnitude(unsigned)
    case None => None
    case Some(m) => Some(if negative then -(m as int) else m as int)
  }

  /** Takes one leading '-' or '+' off `t`, saying whether it was '-'. */
  function SplitSign(t: string): (bool, string) {
    if t != [] && t[0] == '-' then (true, t[1..])
    else if t != [] && t[0] == '+' then (false, t[1..])
    else (false, t)
  }

  lemma {:induction false} DigitsValueOfNatToString(n: nat)
    ensures AllDigits(NatToString(n), 10)
    ensures DigitsValue(NatToString(n), 10) == n
    decreases n
  {
    var s := NatToString(n);
    assert DigitValue(DigitChar(n % 10), 10) == Some(n % 10);
    if n >= 10 {
      DigitsValueOfNatToString(n / 10);
      assert s[..|s| - 1] == NatToString(n / 10);
      assert s[|s| - 1] == DigitChar(n % 10);
    } else {
      assert s[..0] == [];
    }
  }

  lemma DigitPrefixOfAllDigits(s: string, radix: nat)
    requires AllDigits(s, radix)
    ensures DigitPrefixLength(s, radix) == |s|
  {
  }

  lemma ParseMagnitudeOfDigits(digits: string)
    requires digits != [] && AllDigits(digits, 10)
    ensures ParseMagnitude(digits) == Some(DigitsValue(digits, 10))
  {
    DigitPrefixOfAllDigits(digits, 10);
    assert digits[..|digits|] == digits;
    if |digits| >= 2 {
      assert DigitValue(digits[1], 10).Some?;
    }
  }

  /** Text that does not start with whitespace is left alone by `TrimStart`. */
  lemma TrimStartNoBlank(s: string)
    requires s == [] || !IsJsWhitespace(s[0])
    ensures TrimStart(s) == s
  {
  }

  /** Text with no leading blank or sign parses to its magnitude. */
  lemma ParseIntUnsigned(u: string)
    requires u == [] || (!IsJsWhitespace(u[0]) && u[0] != '-' && u[0] != '+')
    ensures ParseMagnitude(u).None? ==> ParseInt(u).None?
    ensures ParseMagnitude(u).Some? ==> ParseInt(u) == Some(ParseMagnitude(u).value as int)
  {
    TrimStartNoBlank(u);
    assert SplitSign(u) == (false, u);
  }

  /** A non-empty run of decimal digits parses to its value. */
  lemma ParseIntOfDigits(digits: string)
    requires digits != [] && AllDigits(digits, 10)
    ensures ParseInt(digits) == Some(DigitsValue(digits, 10))
  {
    ParseMagnitudeOfDigits(digits);
    assert DigitValue(digits[0], 10).Some?;
    ParseIntUnsigned(digits);
  }

  /** A leading '-' negates whatever the rest parses to. */
  lemma ParseIntOfMinus(u: string)
    ensures ParseMagnitude(u).None? ==> ParseInt("-" + u).None?
    ensures ParseMagnitude(u).Some? ==> ParseInt("-" + u) == Some(-(ParseMagnitude(u).value as int))
  {
    var minus := "-" + u;
    TrimStartNoBlank(minus);
    assert SplitSign(minus) == (true, u);
  }

  /** Reading back the decimal text of any integer gives that integer. */
  lemma ParseIntOfIntToString(n: int)
    ensures ParseInt(IntToString(n)) == Some(n)
  {
    var m := if n < 0 then -n else n;
    DigitsValueOfNatToString(m);
    if n < 0 {
      ParseMagnitudeOfDigits(NatToString(m));
      ParseIntOfMinus(NatToString(m));
    } else {
      ParseIntOfDigits(NatToString(m));
    }
  }

  lemma {:induction false} DigitPrefixOfDigitsThen(digits: string, rest: string, radix: nat)
    requires AllDigits(digits, radix)
    requires rest == [] || DigitValue(rest[0], radix).None?
    ensures DigitPrefixLength(digits + rest, radix) == |digits|
    decreases |digits|
  {
    if digits != [] {
      assert (digits + rest)[1..] == digits[1..] + rest;
      DigitPrefixOfDigitsThen(digits[1..], rest, radix);
    } else {
      assert digits + rest == rest;
    }
  }

  lemma ParseMagnitudeLeadingDigits(digits: string, rest: string)
    requires digits != [] && AllDigits(digits, 10)
    requires rest == [] || (DigitValue(rest[0], 10).None? && rest[0] != 'x' && rest[0] != 'X')
    ensures ParseMagnitude(digits + rest) == Some(DigitsValue(digits, 10))
  {
    var t := digits + rest;
    if |t| >= 2 {
      if |digits| >= 2 {
        assert t[1] == digits[1] && DigitValue(t[1], 10).Some?;
      } else {
        assert t[1] == rest[0];
      }
    }
    DigitPrefixOfDigitsThen(digits, rest, 10);
    assert t[..|digits|] == digits;
  }

  /** `parseInt` reads a leading run of decimal digits and stops at the first character that is not a decimal digit or 'x'/'X'. */
  lemma ParseIntLeadingDigits(digits: string, rest: string)
    requires digits != [] && AllDigits(digits, 10)
    requires rest == [] || (DigitValue(rest[0], 10).None? && rest[0] != 'x' && rest[0] != 'X')
    ensures ParseInt(digits + rest) == Some(DigitsValue(digits, 10))
  {
    var t := digits + rest;
    assert t[0] == digits[0] && DigitValue(t[0], 10).Some?;
    ParseMagnitudeLeadingDigits(digits, rest);
    ParseIntUnsigned(t);
  }

  /** Text whose first character is neither blank, sign nor digit parses to NaN. */
  lemma ParseIntNonNumeric(s: string)
    requires s != [] && !IsJsWhitespace(s[0]) && s[0] != '-' && s[0] != '+'
    requires DigitValue(s[0], 10).None?
    ensures ParseInt(s) == None
  {
    ParseIntUnsigned(s);
    assert DigitPrefixLength(s, 10) == 0;
  }

  /**
   * `String.fromCharCode(code)`: the code is reduced modulo 2^16 to a UTF-16 code unit.
   * A lone surrogate unit has no counterpart among Unicode scalar values; it becomes U+FFFD.
   */
  function FromCharCode(code: nat): char {
    var unit := code % 0x1_0000;
    if 0xD800 <= unit < 0xE000 then '\U{FFFD}' else unit as char
  }

  const ALPHABET := "ABCDEFGHIJKLMNOPQRSTUVWXYZ"

  /** The codes 65 + k for k < 26 are the capital letters A..Z in order, one per k. */
  lemma FromCharCodeLetters(k: nat)
    requires k < 26
    ensures FromCharCode(65 + k) == ALPHABET[k]
    ensures 'A' <= FromCharCode(65 + k) <= 'Z'
  {
  }
}
