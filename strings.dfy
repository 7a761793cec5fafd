/** The JavaScript string operations the source uses: case mapping, `\s`
    whitespace, `includes`, `trim`, number printing and `parseInt`. */
module Strings {
  import opened Wrappers

  /** The characters JavaScript's `\s` and `trim` treat as white space. */
  predicate IsJsWhitespace(c: char) {
    c == ' ' || c == '\t' || c == '\n' || c == '\U{000B}' || c == '\U{000C}' || c == '\r'
    || c == '\U{00A0}' || c == '\U{1680}' || ('\U{2000}' <= c <= '\U{200A}')
    || c == '\U{2028}' || c == '\U{2029}' || c == '\U{202F}' || c == '\U{205F}'
    || c == '\U{3000}' || c == '\U{FEFF}'
  }

  predicate IsUpperAscii(c: char) { 'A' <= c <= 'Z' }
  predicate IsLowerAscii(c: char) { 'a' <= c <= 'z' }
  predicate IsDigit(c: char) { '0' <= c <= '9' }

  function UpperChar(c: char): char {
    if IsLowerAscii(c) then (c as int - 32) as char else c
  }

  function LowerChar(c: char): char {
    if IsUpperAscii(c) then (c as int + 32) as char else c
  }

  /** `s.toUpperCase()`, for the ASCII letters. */
  function ToUpper(s: string): (r: string)
    ensures |r| == |s|
  {
    if s == [] then [] else [UpperChar(s[0])] + ToUpper(s[1..])
  }

  /** `s.toLowerCase()`, for the ASCII letters. */
  function ToLower(s: string): (r: string)
    ensures |r| == |s|
  {
    if s == [] then [] else [LowerChar(s[0])] + ToLower(s[1..])
  }

  lemma {:induction false} ToUpperAt(s: string, i: nat)
    requires i < |s|
    ensures ToUpper(s)[i] == UpperChar(s[i])
  {
    if i > 0 { ToUpperAt(s[1..], i - 1); }
  }

  /** Upper-casing twice is upper-casing once. */
  lemma {:induction false} ToUpperIdempotent(s: string)
    ensures ToUpper(ToUpper(s)) == ToUpper(s)
  {
    if s != [] {
      ToUpperIdempotent(s[1..]);
      assert ToUpper(s)[1..] == ToUpper(s[1..]);
    }
  }

  /** Lower-casing twice is lower-casing once. */
  lemma {:induction false} ToLowerIdempotent(s: string)
    ensures ToLower(ToLower(s)) == ToLower(s)
  {
    if s != [] {
      ToLowerIdempotent(s[1..]);
      assert ToLower(s)[1..] == ToLower(s[1..]);
    }
  }

  /** `s.replace(/\s/g, '')`. */
  function RemoveWhitespace(s: string): string {
    if s == [] then []
    else (if IsJsWhitespace(s[0]) then [] else [s[0]]) + RemoveWhitespace(s[1..])
  }

  predicate NoWhitespace(s: string) {
    forall i :: 0 <= i < |s| ==> !IsJsWhitespace(s[i])
  }

  lemma {:induction false} RemoveWhitespaceClean(s: string)
    ensures NoWhitespace(RemoveWhitespace(s))
  {
    if s != [] { RemoveWhitespaceClean(s[1..]); }
  }

  lemma {:induction false} RemoveWhitespaceKeeps(s: string)
    requires NoWhitespace(s)
    ensures RemoveWhitespace(s) == s
  {
    if s != [] {
      assert NoWhitespace(s[1..]) by { forall i | 0 <= i < |s| - 1 ensures !IsJsWhitespace(s[1..][i]) { assert s[1..][i] == s[i + 1]; } }
      RemoveWhitespaceKeeps(s[1..]);
    }
  }

  /** Upper-casing does not create or remove white space, so it commutes with removing it. */
  lemma {:induction false} ToUpperRemoveWhitespace(s: string)
    ensures ToUpper(RemoveWhitespace(s)) == RemoveWhitespace(ToUpper(s))
  {
    if s != [] {
      ToUpperRemoveWhitespace(s[1..]);
      assert ToUpper(s)[0] == UpperChar(s[0]) && ToUpper(s)[1..] == ToUpper(s[1..]);
      var head := if IsJsWhitespace(s[0]) then [] else [s[0]];
      ToUpperAppend(head, RemoveWhitespace(s[1..]));
    }
  }

  lemma {:induction false} ToUpperAppend(a: string, b: string)
    ensures ToUpper(a + b) == ToUpper(a) + ToUpper(b)
  {
    if a != [] {
      assert (a + b)[0] == a[0] && (a + b)[1..] == a[1..] + b;
      ToUpperAppend(a[1..], b);
    } else {
      assert a + b == b;
    }
  }

  predicate StartsWith(s: string, prefix: string) {
    |prefix| <= |s| && s[..|prefix|] == prefix
  }

  /** `s.includes(sub)`. */
  predicate Contains(s: string, sub: string)
    decreases |s|
  {
    StartsWith(s, sub) || (s != [] && Contains(s[1..], sub))
  }

  /** `sub` occurs in `s` at position `i`. */
  predicate OccursAt(s: string, sub: string, i: int) {
    0 <= i <= |s| - |sub| && s[i..i + |sub|] == sub
  }

  /** `includes` finds exactly the occurrences at some position. */
  lemma {:induction false} ContainsAt(s: string, sub: string)
    ensures Contains(s, sub) <==> exists i :: OccursAt(s, sub, i)
    decreases |s|
  {
    if s != [] {
      ContainsAt(s[1..], sub);
      if StartsWith(s, sub) { assert OccursAt(s, sub, 0); }
      if exists i :: OccursAt(s, sub, i) {
        var i :| OccursAt(s, sub, i);
        if i > 0 { assert OccursAt(s[1..], sub, i - 1); }
      }
      if Contains(s[1..], sub) && !StartsWith(s, sub) {
        var j :| OccursAt(s[1..], sub, j);
        assert OccursAt(s, sub, j + 1);
      }
    } else if StartsWith(s, sub) {
      assert OccursAt(s, sub, 0);
    }
  }

  function TrimStart(s: string): (r: string)
    ensures |r| <= |s|
    ensures r != [] ==> !IsJsWhitespace(r[0])
  {
    if s != [] && IsJsWhitespace(s[0]) then TrimStart(s[1..]) else s
  }

  function TrimEnd(s: string): (r: string)
    ensures |r| <= |s|
  {
    if s != [] && IsJsWhitespace(s[|s| - 1]) then TrimEnd(s[..|s| - 1]) else s
  }

  /** `s.trim()`. */
  function Trim(s: string): string {
    TrimEnd(TrimStart(s))
  }

  predicate IsBlank(s: string) {
    forall i :: 0 <= i < |s| ==> IsJsWhitespace(s[i])
  }

  lemma {:induction false} TrimStartEmpty(s: string)
    ensures TrimStart(s) == [] <==> IsBlank(s)
  {
    if s != [] && IsJsWhitespace(s[0]) {
      TrimStartEmpty(s[1..]);
      assert IsBlank(s) <==> IsBlank(s[1..]) by {
        if IsBlank(s[1..]) { forall i | 0 <= i < |s| ensures IsJsWhitespace(s[i]) { if i > 0 { assert s[i] == s[1..][i - 1]; } } }
      }
    }
  }

  /** Trimming the end never removes a first character that is not white space. */
  lemma {:induction false} TrimEndKeepsHead(s: string)
    requires s != [] && !IsJsWhitespace(s[0])
    ensures TrimEnd(s) != []
  {
    if IsJsWhitespace(s[|s| - 1]) {
      TrimEndKeepsHead(s[..|s| - 1]);
    }
  }

  /** `!s.trim()` holds exactly of the strings made only of white space. */
  lemma TrimEmpty(s: string)
    ensures Trim(s) == [] <==> IsBlank(s)
  {
    TrimStartEmpty(s);
    if TrimStart(s) != [] { TrimEndKeepsHead(TrimStart(s)); }
  }

  function DigitChar(d: nat): char
    requires d < 10
  {
    ('0' as int + d) as char
  }

  /** `n.toString()` for a non-negative integer. */
  function NatToString(n: nat): (r: string)
    ensures |r| >= 1 && forall i :: 0 <= i < |r| ==> IsDigit(r[i])
  {
    if n < 10 then [DigitChar(n)] else NatToString(n / 10) + [DigitChar(n % 10)]
  }

  /** `i.toString()` for an integer. */
  function IntToString(i: int): string {
    if i < 0 then "-" + NatToString(-i) else NatToString(i)
  }

  /** `String(n).padStart(2, '0')`. */
  function PadStart2(s: string): (r: string)
    ensures |s| < 2 ==> |r| == 2
    ensures |s| >= 2 ==> r == s
  {
    if |s| < 2 then seq(2 - |s|, _ => '0') + s else s
  }

  function HexDigitValue(c: char): Option<nat> {
    if IsDigit(c) then Some(c as int - '0' as int)
    else if 'a' <= c <= 'f' then Some(c as int - 'a' as int + 10)
    else if 'A' <= c <= 'F' then Some(c as int - 'A' as int + 10)
    else None
  }

  /** The value of one digit in base 10 or 16, if the character is one. */
  function DigitValue(c: char, radix: nat): Option<nat> {
    if radix == 16 then HexDigitValue(c)
    else if IsDigit(c) then Some(c as int - '0' as int)
    else None
  }

  /** The length of the longest prefix of `s` made of digits of the radix. */
  function DigitRun(s: string, radix: nat): (k: nat)
    ensures k <= |s|
  {
    if s != [] && DigitValue(s[0], radix).Some? then 1 + DigitRun(s[1..], radix) else 0
  }

  /** The value of a string of digits, most significant first. */
  function DigitsValue(s: string, radix: nat): nat
    requires forall i :: 0 <= i < |s| ==> DigitValue(s[i], radix).Some?
  {
    if s == [] then 0
    else DigitsValue(s[..|s| - 1], radix) * radix + DigitValue(s[|s| - 1], radix).value
  }

  lemma DigitRunDigits(s: string, radix: nat)
    ensures forall i :: 0 <= i < DigitRun(s, radix) ==> DigitValue(s[i], radix).Some?
  {
    if s != [] && DigitValue(s[0], radix).Some? {
      DigitRunDigits(s[1..], radix);
      forall i | 0 < i < DigitRun(s, radix) ensures DigitValue(s[i], radix).Some? {
        assert s[i] == s[1..][i - 1];
      }
    }
  }

  /** The first number `parseInt` reads from the digits of `s` in the radix, or NaN (None). */
  function ParseDigits(s: string, radix: nat): Option<nat> {
    var k := DigitRun(s, radix);
    DigitRunDigits(s, radix);
    if k == 0 then None else Some(DigitsValue(s[..k], radix))
  }

  /** `parseInt(s)` without a radix argument, None standing for NaN: leading white
      space is skipped, one sign is read, a `0x`/`0X` prefix switches to base 16,
      and the longest run of digits that follows is the number. */
  function ParseInt(s: string): Option<int> {
    var t := TrimStart(s);
    var negative := t != [] && t[0] == '-';
    var u := if t != [] && (t[0] == '-' || t[0] == '+') then t[1..] else t;
    var hex := |u| >= 2 && u[0] == '0' && (u[1] == 'x' || u[1] == 'X');
    var digits := ParseDigits(if hex then u[2..] else u, if hex then 16 else 10);
    match digits
    case None => None
    case Some(v) => var n: int := v; Some(if negative then -n else n)
  }

  /** Two decimal digits parse to their two-digit value. */
  lemma ParseTwoDigits(s: string)
    requires |s| == 2 && IsDigit(s[0]) && IsDigit(s[1])
    ensures ParseInt(s) == Some((s[0] as int - '0' as int) * 10 + (s[1] as int - '0' as int))
  {
    assert TrimStart(s) == s;
    assert DigitRun(s[1..][1..], 10) == 0;
    assert DigitRun(s[1..], 10) == 1;
    assert DigitRun(s, 10) == 2;
    assert s[..2] == s;
    assert s[..1] == [s[0]];
    assert DigitsValue(s[..1], 10) == s[0] as int - '0' as int by {
      assert s[..1][..0] == [];
    }
    assert DigitsValue(s, 10) == DigitsValue(s[..1], 10) * 10 + (s[1] as int - '0' as int);
  }
}
