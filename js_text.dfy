/**
 * The few JavaScript built-ins on strings and numbers that the assembler
 * leans on, written out: the `\s` character class (the same set that
 * `String.prototype.trim` and `parseInt` skip), `trim`, `parseInt` in radix
 * 10 and 16, and the decimal text of an integer (template literals,
 * `String(n)`).
 *
 * Numbers are unbounded integers here; see README for what that leaves out.
 */
module JsText {
  import opened Common

  /** ECMAScript WhiteSpace and LineTerminator code points (`\s`). */
  predicate IsWhiteSpace(c: char)
  {
    c == '\t' || c == '\n' || c == '\U{000B}' || c == '\U{000C}' || c == '\r' || c == ' '
    || c == '\U{00A0}' || c == '\U{1680}' || ('\U{2000}' <= c <= '\U{200A}')
    || c == '\U{2028}' || c == '\U{2029}' || c == '\U{202F}' || c == '\U{205F}'
    || c == '\U{3000}' || c == '\U{FEFF}'
  }

  /** `\d` */
  predicate IsDigit(c: char) { '0' <= c <= '9' }

  /** `[A-Z]` */
  predicate IsUpper(c: char) { 'A' <= c <= 'Z' }

  /** `[0-9A-F]` */
  predicate IsUpperHexDigit(c: char) { IsDigit(c) || ('A' <= c <= 'F') }

  /** `[0-9A-Z]` */
  predicate IsUpperOrDigit(c: char) { IsDigit(c) || IsUpper(c) }

  /** `\w`: `[A-Za-z0-9_]` */
  predicate IsWordChar(c: char) { IsDigit(c) || IsUpper(c) || ('a' <= c <= 'z') || c == '_' }

  /** `.`: any character but an ECMAScript LineTerminator. */
  predicate IsNotLineTerminator(c: char) { c != '\n' && c != '\r' && c != '\U{2028}' && c != '\U{2029}' }

  /** `\b` between positions `i - 1` and `i` of `s`, for `1 <= i`: exactly one side is a word character. */
  predicate WordBoundary(s: string, i: nat)
    requires 1 <= i <= |s|
  {
    IsWordChar(s[i - 1]) != (i < |s| && IsWordChar(s[i]))
  }

  /**
   * JavaScript's `length` of `s`: its number of UTF-16 code units, two for
   * a character outside the Basic Multilingual Plane.
   */
  function Utf16Length(s: string): (n: nat)
    ensures |s| <= n <= 2 * |s|
  {
    if s == [] then 0 else (if s[0] as int < 0x1_0000 then 1 else 2) + Utf16Length(s[1..])
  }

  /** Every character of `s` is one UTF-16 code unit. */
  predicate InBmp(s: string)
  {
    forall i :: 0 <= i < |s| ==> s[i] as int < 0x1_0000
  }

  /** `length` counts the characters exactly when all of them lie in the Basic Multilingual Plane. */
  lemma {:induction false} Utf16LengthInBmp(s: string)
    ensures Utf16Length(s) == |s| <==> InBmp(s)
  {
    if s != [] {
      Utf16LengthInBmp(s[1..]);
      if InBmp(s) {
        assert InBmp(s[1..]) by {
          forall i | 0 <= i < |s[1..]| ensures s[1..][i] as int < 0x1_0000 { assert s[1..][i] == s[i + 1]; }
        }
      }
      if Utf16Length(s) == |s| {
        assert s[0] as int < 0x1_0000 && Utf16Length(s[1..]) == |s[1..]|;
        forall i | 0 <= i < |s| ensures s[i] as int < 0x1_0000 {
          if i > 0 { assert s[i] == s[1..][i - 1]; }
        }
      }
    }
  }

  function TrimStart(s: string): (r: string)
    ensures |r| <= |s| && r == s[|s| - |r|..]
    ensures r == [] || !IsWhiteSpace(r[0])
    ensures forall i :: 0 <= i < |s| - |r| ==> IsWhiteSpace(s[i])
  {
    if s != [] && IsWhiteSpace(s[0]) then TrimStart(s[1..]) else s
  }

  function TrimEnd(s: string): (r: string)
    ensures |r| <= |s| && r == s[..|r|]
    ensures r == [] || !IsWhiteSpace(r[|r| - 1])
    ensures forall i :: |r| <= i < |s| ==> IsWhiteSpace(s[i])
  {
    if s != [] && IsWhiteSpace(s[|s| - 1]) then TrimEnd(s[..|s| - 1]) else s
  }

  /** `String.prototype.trim` */
  function Trim(s: string): string
  {
    TrimEnd(TrimStart(s))
  }

  /** A line is blank for `trim() == ""` exactly when every character is white space. */
  lemma TrimEmptyIffBlank(s: string)
    ensures Trim(s) == [] <==> forall i :: 0 <= i < |s| ==> IsWhiteSpace(s[i])
  {
    var t := TrimStart(s);
    if Trim(s) == [] {
      forall i | 0 <= i < |s| ensures IsWhiteSpace(s[i]) {
        if i >= |s| - |t| {
          assert s[i] == t[i - (|s| - |t|)];
        }
      }
    } else {
      var r := Trim(s);
      assert r[0] == t[0];
      assert t[0] == s[|s| - |t|];
    }
  }

  /** The value of a digit character in radix 10 or 16 (either case), if it is one. */
  function DigitValue(c: char, radix: nat): (r: Option<nat>)
    requires radix == 10 || radix == 16
    ensures r.Some? ==> r.value < radix
  {
    if '0' <= c <= '9' then Some(c as nat - '0' as nat)
    else if radix == 16 && 'a' <= c <= 'f' then Some(c as nat - 'a' as nat + 10)
    else if radix == 16 && 'A' <= c <= 'F' then Some(c as nat - 'A' as nat + 10)
    else None
  }

  predicate AllDigits(s: string, radix: nat)
    requires radix == 10 || radix == 16
  {
    forall i :: 0 <= i < |s| ==> DigitValue(s[i], radix).Some?
  }

  /** Length of the longest prefix of `s` made of digits. */
  function DigitRun(s: string, radix: nat): (k: nat)
    requires radix == 10 || radix == 16
    ensures k <= |s| && AllDigits(s[..k], radix)
    ensures k < |s| ==> DigitValue(s[k], radix).None?
  {
    if s == [] || DigitValue(s[0], radix).None? then 0
    else
      var k := DigitRun(s[1..], radix);
      assert s[..k + 1] == [s[0]] + s[1..][..k];
      k + 1
  }

  /** Positional value of a string of digits. */
  function DigitsValue(s: string, radix: nat): nat
    requires radix == 10 || radix == 16
    requires AllDigits(s, radix)
  {
    if s == [] then 0
    else DigitsValue(s[..|s| - 1], radix) * radix + DigitValue(s[|s| - 1], radix).value
  }

  /**
   * `parseInt(s, radix)`: leading white space is skipped, one sign is read,
   * in radix 16 a `0x`/`0X` prefix is dropped, then the longest run of digits
   * is read; no digit at all gives NaN (`None`).
   */
  function ParseInt(s: string, radix: nat): (r: Option<int>)
    requires radix == 10 || radix == 16
  {
    var t := TrimStart(s);
    if t != [] && t[0] == '-' then ParseUnsigned(t[1..], radix, true)
    else if t != [] && t[0] == '+' then ParseUnsigned(t[1..], radix, false)
    else ParseUnsigned(t, radix, false)
  }

  /** The part of `parseInt` after the sign. */
  function ParseUnsigned(u: string, radix: nat, negative: bool): (r: Option<int>)
    requires radix == 10 || radix == 16
  {
    var v := if radix == 16 && |u| >= 2 && u[0] == '0' && (u[1] == 'x' || u[1] == 'X') then u[2..] else u;
    var k := DigitRun(v, radix);
    if k == 0 then None
    else if negative then Some(-(DigitsValue(v[..k], radix) as int))
    else Some(DigitsValue(v[..k], radix))
  }

  /**
   * `parseInt(s)` without a radix: after the sign, a `0x`/`0X` prefix selects
   * radix 16 and anything else radix 10.
   */
  function ParseIntAuto(s: string): (r: Option<int>)
  {
    var t := TrimStart(s);
    var u := if t != [] && (t[0] == '-' || t[0] == '+') then t[1..] else t;
    var hex := |u| >= 2 && u[0] == '0' && (u[1] == 'x' || u[1] == 'X');
    ParseUnsigned(u, if hex then 16 else 10, t != [] && t[0] == '-')
  }

  /** On text without a `0x` prefix, `parseInt(s)` is `parseInt(s, 10)`. */
  lemma ParseIntAutoIsDecimal(s: string)
    requires var t := TrimStart(s);
      var u := if t != [] && (t[0] == '-' || t[0] == '+') then t[1..] else t;
      !(|u| >= 2 && u[0] == '0' && (u[1] == 'x' || u[1] == 'X'))
    ensures ParseIntAuto(s) == ParseInt(s, 10)
  {
  }

  function DigitChar(d: nat): (c: char)
    requires d < 10
    ensures DigitValue(c, 10) == Some(d)
  {
    ['0', '1', '2', '3', '4', '5', '6', '7', '8', '9'][d]
  }

  /** Decimal text of a natural number, without leading zeros. */
  function NatToString(n: nat): (s: string)
    ensures |s| >= 1 && AllDigits(s, 10)
    ensures '-' !in s
    ensures |s| > 1 ==> s[0] != '0'
  {
    if n < 10 then [DigitChar(n)]
    else
      var p := NatToString(n / 10);
      var s := p + [DigitChar(n % 10)];
      assert forall i :: 0 <= i < |p| ==> s[i] == p[i];
      s
  }

  /** `String(n)` for an integer `n`. */
  function IntToString(n: int): string
  {
    if n < 0 then "-" + NatToString(-n) else NatToString(n)
  }

  lemma {:induction false} DigitsValueOfNatToString(n: nat)
    ensures DigitsValue(NatToString(n), 10) == n
  {
    if n >= 10 {
      var s := NatToString(n);
      assert s[..|s| - 1] == NatToString(n / 10);
      DigitsValueOfNatToString(n / 10);
    }
  }

  lemma DigitRunAll(s: string, radix: nat)
    requires radix == 10 || radix == 16
    requires AllDigits(s, radix)
    ensures DigitRun(s, radix) == |s|
  {
  }

  lemma ParseUnsignedDigits(u: string, negative: bool)
    requires |u| >= 1 && AllDigits(u, 10)
    ensures ParseUnsigned(u, 10, negative) == Some(if negative then -(DigitsValue(u, 10) as int) else DigitsValue(u, 10))
  {
    var k := DigitRun(u, 10);
    DigitRunAll(u, 10);
    assert k == |u|;
    assert u[..k] == u;
    var v := DigitsValue(u, 10);
    if negative {
      assert ParseUnsigned(u, 10, negative) == Some(-(v as int));
    } else {
      assert ParseUnsigned(u, 10, negative) == Some(v);
    }
  }

  /** Text that starts with neither white space, a sign nor a digit is NaN. */
  lemma ParseIntOfNonNumber(s: string, radix: nat)
    requires radix == 10 || radix == 16
    requires s != [] && !IsWhiteSpace(s[0]) && s[0] != '-' && s[0] != '+' && DigitValue(s[0], radix).None?
    ensures ParseInt(s, radix).None?
  {
    assert TrimStart(s) == s;
    assert DigitRun(s, radix) == 0;
  }

  lemma ParseUnsignedHexDigits(u: string)
    requires |u| >= 1 && AllDigits(u, 16)
    ensures ParseUnsigned(u, 16, false) == Some(DigitsValue(u, 16))
  {
    if |u| >= 2 {
      assert DigitValue(u[1], 16).Some?;
      assert u[1] != 'x' && u[1] != 'X';
    }
    var k := DigitRun(u, 16);
    DigitRunAll(u, 16);
    assert k == |u|;
    assert u[..k] == u;
  }

  /** A string of hex digits reads as its own value in radix 16 (a digit string never starts with `0x`). */
  lemma ParseIntOfHexDigits(h: string)
    requires |h| >= 1 && AllDigits(h, 16)
    ensures ParseInt(h, 16) == Some(DigitsValue(h, 16))
  {
    assert DigitValue(h[0], 16).Some?;
    assert !IsWhiteSpace(h[0]) && h[0] != '-' && h[0] != '+';
    assert TrimStart(h) == h;
    ParseUnsignedHexDigits(h);
  }

  /** `s` in the shape of the token `-?\d+` reads as its own decimal value. */
  lemma ParseIntOfDecimalToken(s: string)
    requires |s| >= 1 && AllDigits(s, 10)
    ensures ParseInt(s, 10) == Some(DigitsValue(s, 10))
    ensures ParseInt("-" + s, 10) == Some(-(DigitsValue(s, 10) as int))
  {
    assert !IsWhiteSpace(s[0]);
    assert TrimStart(s) == s;
    ParseUnsignedDigits(s, false);
    ParseIntOfNegatedToken("-" + s, s);
  }

  /** `m` is a minus sign followed by the decimal digits `s`. */
  lemma ParseIntOfNegatedToken(m: string, s: string)
    requires |s| >= 1 && AllDigits(s, 10)
    requires |m| == |s| + 1 && m[0] == '-' && m[1..] == s
    ensures ParseInt(m, 10) == Some(-(DigitsValue(s, 10) as int))
  {
    assert !IsWhiteSpace(m[0]);
    assert TrimStart(m) == m;
    ParseUnsignedDigits(s, true);
  }

  /** `parseInt` reads back what `String` writes: `parseInt(String(n), 10) == n`. */
  lemma ParseIntOfIntToString(n: int)
    ensures ParseInt(IntToString(n), 10) == Some(n)
  {
    var m: nat := if n < 0 then -n else n;
    var d := NatToString(m);
    DigitsValueOfNatToString(m);
    ParseIntOfDecimalToken(d);
    var s := IntToString(n);
    if n < 0 {
      assert s == "-" + d;
      assert ParseInt(s, 10) == Some(-(m as int));
    } else {
      assert s == d;
      assert ParseInt(s, 10) == Some(m);
    }
  }

}
