/**
 * The JavaScript string built-ins the core relies on: `trim`, `toLowerCase`,
 * `includes` and `parseInt` (with no radix argument).
 */
module JsText {
  import opened Wrappers

  /** The WhiteSpace and LineTerminator code points of ECMAScript, which `trim` and `parseInt` skip. */
  predicate IsWhitespace(c: char) {
    c == '\t' || c == '\n' || c == '\U{B}' || c == '\U{C}' || c == '\r' || c == ' '
    || c == '\U{A0}' || c == '\U{1680}' || ('\U{2000}' <= c <= '\U{200A}')
    || c == '\U{2028}' || c == '\U{2029}' || c == '\U{202F}' || c == '\U{205F}'
    || c == '\U{3000}' || c == '\U{FEFF}'
  }

  /** `s` with its leading whitespace removed. */
  function TrimStart(s: string): (r: string)
    ensures |r| <= |s| && r == s[|s| - |r|..]
    ensures r == [] || !IsWhitespace(r[0])
    ensures forall i :: 0 <= i < |s| - |r| ==> IsWhitespace(s[i])
  {
    if s != [] && IsWhitespace(s[0]) then TrimStart(s[1..]) else s
  }

  /** `!s.trim()`: nothing but whitespace, so nothing is left once it is trimmed. */
  predicate IsBlank(s: string)
    ensures s == [] ==> IsBlank(s)
    ensures s != [] && !IsWhitespace(s[0]) ==> !IsBlank(s)
    ensures s != [] && !IsWhitespace(s[|s| - 1]) ==> !IsBlank(s)
  {
    forall i :: 0 <= i < |s| ==> IsWhitespace(s[i])
  }

  /** A string is blank exactly when trimming its leading whitespace already leaves nothing. */
  lemma BlankIffTrimsToEmpty(s: string)
    ensures IsBlank(s) <==> TrimStart(s) == []
  {
  }

  /** `toLowerCase` on one character, for the ASCII letters. */
  function LowerChar(c: char): char {
    if 'A' <= c <= 'Z' then (c as int + 32) as char else c
  }

  /** `toUpperCase` on one character, for the ASCII letters. */
  function UpperChar(c: char): char {
    if 'a' <= c <= 'z' then (c as int - 32) as char else c
  }

  /** `toLowerCase`: every ASCII capital becomes its small letter; every other character stays. */
  function ToLower(s: string): (r: string)
    ensures |r| == |s|
    ensures forall i :: 0 <= i < |s| ==> !('A' <= r[i] <= 'Z')
    ensures forall i :: 0 <= i < |s| && !('A' <= s[i] <= 'Z') ==> r[i] == s[i]
  {
    seq(|s|, i requires 0 <= i < |s| => LowerChar(s[i]))
  }

  function ToUpper(s: string): (r: string)
    ensures |r| == |s|
  {
    seq(|s|, i requires 0 <= i < |s| => UpperChar(s[i]))
  }

  /** Lower-casing distributes over concatenation. */
  lemma ToLowerConcat(a: string, b: string)
    ensures ToLower(a + b) == ToLower(a) + ToLower(b)
  {
    assert forall i :: 0 <= i < |a + b| ==> ToLower(a + b)[i] == (ToLower(a) + ToLower(b))[i];
  }

  /** Lower-casing ignores how a string was cased before: it forgets an upper-casing and is idempotent. */
  lemma ToLowerForgetsCase(s: string)
    ensures ToLower(ToUpper(s)) == ToLower(s)
    ensures ToLower(ToLower(s)) == ToLower(s)
  {
    assert forall i :: 0 <= i < |s| ==> ToLower(ToUpper(s))[i] == ToLower(s)[i];
    assert forall i :: 0 <= i < |s| ==> ToLower(ToLower(s))[i] == ToLower(s)[i];
  }

  /** `sub` occurs in `s` starting at index `i`. */
  predicate OccursAt(s: string, sub: string, i: int) {
    0 <= i && i + |sub| <= |s| && s[i..i + |sub|] == sub
  }

  /** `s.includes(sub)`: `sub` occurs in `s` as a contiguous substring. */
  function Includes(s: string, sub: string): (r: bool)
    ensures r <==> exists i :: OccursAt(s, sub, i)
  {
    if sub <= s then
      assert OccursAt(s, sub, 0);
      true
    else if s == [] then
      false
    else
      var r := Includes(s[1..], sub);
      assert forall i :: OccursAt(s, sub, i) <==> (i == 0 && sub <= s) || (i >= 1 && OccursAt(s[1..], sub, i - 1)) by {
        forall i ensures OccursAt(s, sub, i) <==> (i == 0 && sub <= s) || (i >= 1 && OccursAt(s[1..], sub, i - 1)) {
          if i >= 1 {
            OccursAtShift(s, sub, i);
          }
          if i == 0 && i + |sub| <= |s| {
            assert s[..|sub|] == s[0..|sub|];
          }
        }
      }
      assert r ==> OccursAt(s, sub, 1 + (var j :| OccursAt(s[1..], sub, j); j));
      r
  }

  /** An occurrence past the first character is an occurrence in the tail, one place earlier. */
  lemma OccursAtShift(s: string, sub: string, i: int)
    requires s != [] && i >= 1
    ensures OccursAt(s, sub, i) <==> OccursAt(s[1..], sub, i - 1)
  {
    if i + |sub| <= |s| {
      var t := s[1..];
      assert t[i - 1..] == s[i..];
      assert t[i - 1..i - 1 + |sub|] == t[i - 1..][..|sub|];
      assert s[i..i + |sub|] == s[i..][..|sub|];
    }
  }

  /** A string occurring in the middle of a concatenation is included in it. */
  lemma IncludesMiddle(pre: string, w: string, post: string)
    ensures Includes(pre + w + post, w)
  {
    assert OccursAt(pre + w + post, w, |pre|);
  }

  predicate IsDecimalDigit(c: char) {
    '0' <= c <= '9'
  }

  /** A digit in radix 10, or in radix 16 (either case of letter). */
  predicate IsDigitIn(c: char, hex: bool) {
    IsDecimalDigit(c) || (hex && ('a' <= c <= 'f' || 'A' <= c <= 'F'))
  }

  function DigitValue(c: char): nat {
    if IsDecimalDigit(c) then c as int - '0' as int
    else if 'a' <= c <= 'f' then c as int - 'a' as int + 10
    else if 'A' <= c <= 'F' then c as int - 'A' as int + 10
    else 0
  }

  /** The length of the longest prefix of `s` made of digits. */
  function DigitRun(s: string, hex: bool): (n: nat)
    ensures n <= |s|
    ensures forall i :: 0 <= i < n ==> IsDigitIn(s[i], hex)
    ensures n < |s| ==> !IsDigitIn(s[n], hex)
  {
    if s != [] && IsDigitIn(s[0], hex) then 1 + DigitRun(s[1..], hex) else 0
  }

  /** The number a digit string denotes, most significant digit first. */
  function DigitsValue(ds: string, hex: bool): nat {
    if ds == [] then 0
    else DigitsValue(ds[..|ds| - 1], hex) * (if hex then 16 else 10) + DigitValue(ds[|ds| - 1])
  }

  /**
   * The digits after the sign: hexadecimal after a `0x`/`0X` prefix, decimal
   * otherwise, up to the first character that is not a digit. `None` when no
   * digit is there.
   */
  function ParseUnsigned(u: string): (r: Option<nat>)
  {
    var hex := |u| >= 2 && u[0] == '0' && (u[1] == 'x' || u[1] == 'X');
    var digits := if hex then u[2..] else u;
    var n := DigitRun(digits, hex);
    if n == 0 then None else Some(DigitsValue(digits[..n], hex))
  }

  /**
   * `parseInt(s)` with no radix: skip leading whitespace, take one optional sign,
   * then read the digits as `ParseUnsigned` does. `None` is `NaN` (no digit was read).
   */
  function ParseInt(s: string): (r: Option<int>)
    ensures r.Some? ==> TrimStart(s) != []
    ensures r.Some? && r.value < 0 ==> TrimStart(s)[0] == '-'
  {
    var t := TrimStart(s);
    var signed := t != [] && (t[0] == '-' || t[0] == '+');
    var magnitude := ParseUnsigned(if signed then t[1..] else t);
    if magnitude.None? then None
    else if t != [] && t[0] == '-' then Some(-(magnitude.value as int))
    else Some(magnitude.value as int)
  }

  /** `parseInt` only ever yields a number when the text holds a decimal digit somewhere. */
  lemma ParseIntNeedsDigit(s: string)
    ensures (forall i :: 0 <= i < |s| ==> !IsDecimalDigit(s[i])) ==> ParseInt(s).None?
  {
    var t := TrimStart(s);
    if forall i :: 0 <= i < |s| ==> !IsDecimalDigit(s[i]) {
      assert forall i :: 0 <= i < |t| ==> t[i] == s[|s| - |t| + i];
      assert forall i :: 0 <= i < |t| ==> !IsDecimalDigit(t[i]);
      UnsignedNeedsDigit(t);
      if t != [] {
        assert forall i :: 0 <= i < |t[1..]| ==> !IsDecimalDigit(t[1..][i]);
        UnsignedNeedsDigit(t[1..]);
      }
    }
  }

  /** Without a decimal digit there is nothing to read, not even after a `0x`. */
  lemma UnsignedNeedsDigit(u: string)
    ensures (forall i :: 0 <= i < |u| ==> !IsDecimalDigit(u[i])) ==> ParseUnsigned(u).None?
  {
  }

  /** The decimal rendering of a natural number, without leading zeros. */
  function ToDecimal(n: nat): (r: string)
    ensures r != []
    ensures forall i :: 0 <= i < |r| ==> IsDecimalDigit(r[i])
    ensures |r| > 1 ==> r[0] != '0'
  {
    var d := ['0' + (n % 10) as char];
    if n < 10 then d else ToDecimal(n / 10) + d
  }

  lemma {:induction false} ToDecimalValue(n: nat)
    ensures DigitsValue(ToDecimal(n), false) == n
  {
    if n >= 10 {
      ToDecimalValue(n / 10);
      var r := ToDecimal(n);
      assert r[..|r| - 1] == ToDecimal(n / 10);
    }
  }

  /** Text that starts with a decimal digit and no `0x` prefix is read as decimal digits, with no sign. */
  lemma ParseIntUnsignedDecimal(s: string)
    requires s != [] && IsDecimalDigit(s[0])
    requires |s| >= 2 && s[0] == '0' ==> s[1] != 'x' && s[1] != 'X'
    ensures ParseInt(s) == Some(DigitsValue(s[..DigitRun(s, false)], false))
  {
    assert !IsWhitespace(s[0]);
    assert TrimStart(s) == s;
    assert s[0] != '-' && s[0] != '+';
    DecimalDigitsNotHex(s);
  }

  /** Text that starts with a decimal digit and no `0x` is read in radix 10. */
  lemma DecimalDigitsNotHex(s: string)
    requires s != [] && IsDecimalDigit(s[0])
    requires |s| >= 2 && s[0] == '0' ==> s[1] != 'x' && s[1] != 'X'
    ensures ParseUnsigned(s) == Some(DigitsValue(s[..DigitRun(s, false)], false))
  {
    assert DigitRun(s, false) >= 1;
  }

  /**
   * `parseInt` reads back a decimal rendering, and stops at the first character
   * that is not a digit: `parseInt("12abc")` is 12. The one exception is a lone
   * `0` followed by `x` or `X`, which starts a hexadecimal number.
   */
  lemma {:induction false} ParseIntDecimal(n: nat, rest: string)
    requires rest == [] || !IsDecimalDigit(rest[0])
    requires rest != [] && n == 0 ==> rest[0] != 'x' && rest[0] != 'X'
    ensures ParseInt(ToDecimal(n) + rest) == Some(n)
  {
    var d := ToDecimal(n);
    var s := d + rest;
    assert s[0] == d[0];
    assert |s| >= 2 && s[0] == '0' ==> s[1] != 'x' && s[1] != 'X' by {
      if |s| >= 2 && |d| == 1 { assert s[1] == rest[0]; }
      if |s| >= 2 && |d| > 1 { assert s[1] == d[1]; }
    }
    ParseIntUnsignedDecimal(s);
    DigitRunOfDecimal(d, rest);
    assert s[..|d|] == d;
    ToDecimalValue(n);
  }

  lemma {:induction false} DigitRunOfDecimal(d: string, rest: string)
    requires forall i :: 0 <= i < |d| ==> IsDecimalDigit(d[i])
    requires rest == [] || !IsDecimalDigit(rest[0])
    ensures DigitRun(d + rest, false) == |d|
  {
    if d != [] {
      assert (d + rest)[1..] == d[1..] + rest;
      DigitRunOfDecimal(d[1..], rest);
    } else {
      assert d + rest == rest;
    }
  }
}
