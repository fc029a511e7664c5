/**
 * The JavaScript string built-ins the components rely on:
 * `String.prototype.trim`, `String.prototype.toLowerCase` (ASCII letters only),
 * `String.prototype.includes` and the global `parseInt` with no radix argument.
 */
module JsStrings {
  import opened Wrappers

  /** The code points `trim` removes: ECMAScript WhiteSpace and LineTerminator. */
  predicate IsWhitespace(c: char) {
    || c == '\t' || c == '\n' || c == '\U{000B}' || c == '\U{000C}' || c == '\r' || c == ' '
    || c == '\U{00A0}' || c == '\U{1680}' || ('\U{2000}' <= c <= '\U{200A}')
    || c == '\U{2028}' || c == '\U{2029}' || c == '\U{202F}' || c == '\U{205F}'
    || c == '\U{3000}' || c == '\U{FEFF}'
  }

  /** `s.trimStart()`: the suffix of `s` left after dropping leading whitespace. */
  function TrimStart(s: string): (r: string)
    ensures |r| <= |s| && r == s[|s| - |r|..]
    ensures r == [] || !IsWhitespace(r[0])
    ensures forall i :: 0 <= i < |s| - |r| ==> IsWhitespace(s[i])
  {
    if s != [] && IsWhitespace(s[0]) then TrimStart(s[1..]) else s
  }

  /** A string that does not start with whitespace is its own `trimStart`. */
  lemma TrimStartKeeps(s: string)
    requires s == [] || !IsWhitespace(s[0])
    ensures TrimStart(s) == s
  {
  }

  /** `s.trimEnd()`: the prefix of `s` left after dropping trailing whitespace. */
  function TrimEnd(s: string): (r: string)
    ensures |r| <= |s| && r == s[..|r|]
    ensures r == [] || !IsWhitespace(r[|r| - 1])
    ensures forall i :: |r| <= i < |s| ==> IsWhitespace(s[i])
  {
    if s != [] && IsWhitespace(s[|s| - 1]) then TrimEnd(s[..|s| - 1]) else s
  }

  /** `s.trim()`: neither end of the result is whitespace, and it is empty exactly
      when `s` is made of whitespace only. */
  function Trim(s: string): (r: string)
    ensures r == [] || (!IsWhitespace(r[0]) && !IsWhitespace(r[|r| - 1]))
    ensures r == [] <==> forall i :: 0 <= i < |s| ==> IsWhitespace(s[i])
  {
    TrimEnd(TrimStart(s))
  }

  /** `s[a..b]` is what is left once the whitespace before `a` and from `b` on is dropped. */
  predicate WhitespaceOutside(s: string, a: int, b: int) {
    && 0 <= a <= b <= |s|
    && (forall i :: 0 <= i < a ==> IsWhitespace(s[i]))
    && (forall i :: b <= i < |s| ==> IsWhitespace(s[i]))
  }

  /** A prefix of a suffix of `s` is a slice of `s`. */
  lemma PrefixOfSuffix(s: string, a: int, t: string, r: string)
    requires 0 <= a <= |s| && t == s[a..]
    requires |r| <= |t| && r == t[..|r|]
    ensures r == s[a..a + |r|]
  {
    assert forall i :: 0 <= i < |r| ==> r[i] == t[i] == s[a + i];
  }

  /** Whitespace at the end of a suffix of `s` is whitespace at the end of `s`. */
  lemma WhitespaceTail(s: string, a: int, t: string, n: nat)
    requires 0 <= a <= |s| && t == s[a..]
    requires forall i :: n <= i < |t| ==> IsWhitespace(t[i])
    ensures forall i :: a + n <= i < |s| ==> IsWhitespace(s[i])
  {
    forall i | a + n <= i < |s| ensures IsWhitespace(s[i]) {
      assert s[i] == t[i - a];
    }
  }

  /** The bounds of the block `trim` keeps. */
  lemma TrimBounds(s: string) returns (a: int, b: int)
    ensures WhitespaceOutside(s, a, b) && Trim(s) == s[a..b]
  {
    var t := TrimStart(s);
    a := |s| - |t|;
    var r := TrimEnd(t);
    b := a + |r|;
    PrefixOfSuffix(s, a, t, r);
    WhitespaceTail(s, a, t, |r|);
  }

  /** What `trim` removes is whitespace, and what it keeps is one contiguous block of `s`. */
  lemma TrimIsSlice(s: string)
    ensures exists a, b :: WhitespaceOutside(s, a, b) && Trim(s) == s[a..b]
  {
    var a, b := TrimBounds(s);
  }

  /** Trimming twice is trimming once: the trimmed name and phone are stable. */
  lemma TrimIdempotent(s: string)
    ensures Trim(Trim(s)) == Trim(s)
  {
    var r := Trim(s);
    assert TrimStart(r) == r;
    assert TrimEnd(r) == r;
  }

  predicate IsAsciiUpper(c: char) {
    'A' <= c <= 'Z'
  }

  function LowerAscii(c: char): (r: char)
    ensures !IsAsciiUpper(r)
    ensures !IsAsciiUpper(c) ==> r == c
    ensures IsAsciiUpper(c) ==> r as int == c as int + 32
  {
    if IsAsciiUpper(c) then (c as int - 'A' as int + 'a' as int) as char else c
  }

  /** `s.toLowerCase()` over ASCII: the same length, no upper-case ASCII letter left,
      every other character kept in place. */
  function ToLowerAscii(s: string): (r: string)
    ensures |r| == |s|
    ensures forall i :: 0 <= i < |r| ==> !IsAsciiUpper(r[i])
    ensures forall i :: 0 <= i < |s| && !IsAsciiUpper(s[i]) ==> r[i] == s[i]
    ensures forall i :: 0 <= i < |s| && IsAsciiUpper(s[i]) ==> r[i] as int == s[i] as int + 32
  {
    seq(|s|, i requires 0 <= i < |s| => LowerAscii(s[i]))
  }

  /** Lower-casing a lower-cased string changes nothing. */
  lemma ToLowerIdempotent(s: string)
    ensures ToLowerAscii(ToLowerAscii(s)) == ToLowerAscii(s)
  {
  }

  /** `s.includes(t)`, scanning `s` from the left for `t` as a prefix. */
  predicate Includes(s: string, t: string)
    ensures Includes(s, t) ==> |t| <= |s|
  {
    t <= s || (s != [] && Includes(s[1..], t))
  }

  /** `t` occurs in `s` starting at position `i`. */
  predicate OccursAt(s: string, t: string, i: int) {
    0 <= i <= |s| - |t| && s[i..i + |t|] == t
  }

  lemma {:induction false} IncludesWitness(s: string, t: string) returns (i: int)
    requires Includes(s, t)
    ensures OccursAt(s, t, i)
  {
    if t <= s {
      i := 0;
      assert s[0..0 + |t|] == s[..|t|];
    } else {
      var j := IncludesWitness(s[1..], t);
      i := j + 1;
      assert s[i..i + |t|] == s[1..][j..j + |t|];
    }
  }

  lemma {:induction false} OccursIncludes(s: string, t: string, i: int)
    requires OccursAt(s, t, i)
    ensures Includes(s, t)
  {
    if i == 0 {
      assert s[..|t|] == s[0..0 + |t|];
    } else {
      assert s[1..][i - 1..i - 1 + |t|] == s[i..i + |t|];
      OccursIncludes(s[1..], t, i - 1);
    }
  }

  /** `Includes` holds exactly when `t` occurs in `s` at some position. */
  lemma IncludesAt(s: string, t: string)
    ensures Includes(s, t) <==> exists i :: OccursAt(s, t, i)
  {
    if Includes(s, t) {
      var i := IncludesWitness(s, t);
    }
    forall i | OccursAt(s, t, i) ensures Includes(s, t) {
      OccursIncludes(s, t, i);
    }
  }

  /** Every string includes the empty string. */
  lemma IncludesEmpty(s: string)
    ensures Includes(s, "")
  {
  }

  /** The value of `c` as a digit in radix 36 (`0`-`9`, then `a`-`z` or `A`-`Z`). */
  function DigitOf(c: char): (r: Option<nat>)
    ensures r.Some? ==> r.value < 36
  {
    if '0' <= c <= '9' then Some(c as int - '0' as int)
    else if 'a' <= c <= 'z' then Some(c as int - 'a' as int + 10)
    else if 'A' <= c <= 'Z' then Some(c as int - 'A' as int + 10)
    else None
  }

  predicate IsRadixDigit(c: char, radix: nat) {
    DigitOf(c).Some? && DigitOf(c).value < radix
  }

  /** The longest prefix of `s` made of digits of `radix`. */
  function LeadingDigits(s: string, radix: nat): (r: string)
    ensures r <= s
    ensures forall i :: 0 <= i < |r| ==> IsRadixDigit(r[i], radix)
    ensures |r| < |s| ==> !IsRadixDigit(s[|r|], radix)
  {
    if s != [] && IsRadixDigit(s[0], radix) then [s[0]] + LeadingDigits(s[1..], radix) else []
  }

  /** The number that the digits `ds` spell in `radix`, most significant first. */
  function DigitsValue(ds: string, radix: nat): nat {
    if ds == [] then 0
    else DigitsValue(ds[..|ds| - 1], radix) * radix + DigitOf(ds[|ds| - 1]).GetOr(0)
  }

  /** The number spelled by the longest run of `radix` digits at the start of `s`,
      or `None` when `s` does not start with such a digit. */
  function LeadingNumber(s: string, radix: nat): (r: Option<int>)
    ensures r.None? <==> LeadingDigits(s, radix) == []
    ensures r.Some? ==> r.value >= 0
  {
    var ds := LeadingDigits(s, radix);
    if ds == [] then None else Some(DigitsValue(ds, radix))
  }

  /** The digits `parseInt` reads after the sign: hexadecimal after a `0x`/`0X` prefix,
      decimal otherwise. */
  function ParseMagnitude(u: string): (r: Option<int>)
    ensures r.Some? ==> r.value >= 0
  {
    if |u| >= 2 && u[0] == '0' && (u[1] == 'x' || u[1] == 'X') then LeadingNumber(u[2..], 16)
    else LeadingNumber(u, 10)
  }

  /**
   * `parseInt(s)` with no radix: skip leading whitespace, take an optional sign,
   * then read the magnitude.  `None` stands for `NaN`, the result when no digit follows.
   */
  function ParseInt(s: string): (r: Option<int>)
    ensures r.None? <==> ParseMagnitude(AfterSign(TrimStart(s))).None?
    ensures r.Some? && r.value < 0 ==> TrimStart(s)[0] == '-'
  {
    var t := TrimStart(s);
    if t != [] && t[0] == '-' then
      match ParseMagnitude(t[1..])
      case None => None
      case Some(v) => Some(-v)
    else if t != [] && t[0] == '+' then ParseMagnitude(t[1..])
    else ParseMagnitude(t)
  }

  /** `t` without its leading sign, if it has one. */
  function AfterSign(t: string): (r: string)
    ensures r == t || (t != [] && t[0] in "+-" && r == t[1..])
  {
    if t != [] && (t[0] == '-' || t[0] == '+') then t[1..] else t
  }

  /** The decimal digits of `n`, without leading zeros. */
  function NatToDecimal(n: nat): (r: string)
    ensures r != []
    ensures forall i :: 0 <= i < |r| ==> '0' <= r[i] <= '9'
  {
    var d := ['0' + (n % 10) as char];
    if n < 10 then d else NatToDecimal(n / 10) + d
  }

  /** How an integer is written in decimal, with a `-` sign when negative. */
  function IntToDecimal(n: int): (r: string) {
    if n < 0 then "-" + NatToDecimal(-n) else NatToDecimal(n)
  }

  lemma {:induction false} NatToDecimalValue(n: nat)
    ensures forall i :: 0 <= i < |NatToDecimal(n)| ==> IsRadixDigit(NatToDecimal(n)[i], 10)
    ensures DigitsValue(NatToDecimal(n), 10) == n
  {
    var r := NatToDecimal(n);
    assert forall i :: 0 <= i < |r| ==> IsRadixDigit(r[i], 10);
    if n >= 10 {
      NatToDecimalValue(n / 10);
      assert r[..|r| - 1] == NatToDecimal(n / 10);
    }
  }

  lemma {:induction false} LeadingDigitsOfDigits(s: string, radix: nat)
    requires forall i :: 0 <= i < |s| ==> IsRadixDigit(s[i], radix)
    ensures LeadingDigits(s, radix) == s
  {
    if s != [] {
      LeadingDigitsOfDigits(s[1..], radix);
    }
  }

  /** A non-empty run of decimal digits is read as its value. */
  lemma MagnitudeOfDigits(u: string)
    requires u != [] && forall i :: 0 <= i < |u| ==> IsRadixDigit(u[i], 10)
    ensures ParseMagnitude(u) == Some(DigitsValue(u, 10))
  {
    LeadingDigitsOfDigits(u, 10);
    assert |u| >= 2 ==> u[1] != 'x' && u[1] != 'X';
  }

  /** After a leading `-`, `parseInt` negates the magnitude it reads. */
  lemma ParseIntMinus(s: string, v: int)
    requires s != [] && s[0] == '-' && ParseMagnitude(s[1..]) == Some(v)
    ensures ParseInt(s) == Some(-v)
  {
    assert TrimStart(s) == s by {
      assert !IsWhitespace(s[0]);
      TrimStartKeeps(s);
    }
  }

  /** Starting with a decimal digit, `parseInt` reads the magnitude as it is. */
  lemma ParseIntUnsigned(s: string, v: int)
    requires s != [] && '0' <= s[0] <= '9' && ParseMagnitude(s) == Some(v)
    ensures ParseInt(s) == Some(v)
  {
    assert TrimStart(s) == s by {
      assert !IsWhitespace(s[0]);
      TrimStartKeeps(s);
    }
  }

  lemma ParseIntNatDecimal(m: nat)
    ensures ParseInt(NatToDecimal(m)) == Some(m)
  {
    var ds := NatToDecimal(m);
    assert ParseMagnitude(ds) == Some(m) by {
      NatToDecimalValue(m);
      MagnitudeOfDigits(ds);
    }
    ParseIntUnsigned(ds, m);
  }

  lemma ParseIntNegativeDecimal(m: nat)
    ensures ParseInt("-" + NatToDecimal(m)) == Some(-(m as int))
  {
    var ds := NatToDecimal(m);
    assert ParseMagnitude(ds) == Some(m) by {
      NatToDecimalValue(m);
      MagnitudeOfDigits(ds);
    }
    var s := "-" + ds;
    assert s[1..] == ds;
    ParseIntMinus(s, m);
  }

  /** `parseInt` reads back every integer written in decimal. */
  lemma ParseIntDecimal(n: int)
    ensures ParseInt(IntToDecimal(n)) == Some(n)
  {
    if n < 0 {
      ParseIntNegativeDecimal(-n);
    } else {
      ParseIntNatDecimal(n);
    }
  }
}
