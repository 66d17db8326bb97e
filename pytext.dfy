/** The two pieces of Python's text handling that `Missing` relies on:
    `repr()` of a `str`, and `int()` applied to a `str` (base 10).
    Each comes with an independent partner: a decoder of string literals
    for `repr`, and decimal printing for `int`. */
module PyText {
  import opened Wrappers

  // ---------------------------------------------------------------------
  // repr(str)
  // ---------------------------------------------------------------------

  const HexDigits: string := "0123456789abcdef"

  /** Characters that `repr` writes as a `\xhh` escape: the C0 controls
      other than tab, newline and carriage return (those have their own
      escapes), DEL, the C1 controls, NO-BREAK SPACE and SOFT HYPHEN. */
  predicate NeedsHexEscape(c: char) {
    var n := c as int;
    n < 0x20 || (0x7f <= n <= 0xa0) || n == 0xad
  }

  /** The quote `repr` puts around `s`: a double quote when `s` contains a
      single quote and no double quote, a single quote otherwise. */
  function QuoteFor(s: string): (q: char)
    ensures q == '\'' || q == '"'
    ensures q == '"' <==> '\'' in s && '"' !in s
  {
    if '\'' in s && '"' !in s then '"' else '\''
  }

  /** How `repr` writes one character inside quotes `q`. */
  function EscapeChar(c: char, q: char): string {
    if c == q || c == '\\' then ['\\', c]
    else if c == '\t' then "\\t"
    else if c == '\n' then "\\n"
    else if c == '\r' then "\\r"
    else if NeedsHexEscape(c) then
      ['\\', 'x', HexDigits[c as int / 16], HexDigits[c as int % 16]]
    else [c]
  }

  function EscapeBody(s: string, q: char): string {
    if s == [] then [] else EscapeChar(s[0], q) + EscapeBody(s[1..], q)
  }

  /** `repr(s)` for a Python `str`. */
  function StrRepr(s: string): (r: string)
    ensures |r| >= 2 && r[0] == QuoteFor(s) && r[|r| - 1] == QuoteFor(s)
  {
    var q := QuoteFor(s);
    [q] + EscapeBody(s, q) + [q]
  }

  /** The value of a hexadecimal digit, in either case. */
  function HexValue(c: char): Option<nat> {
    if '0' <= c <= '9' then Some(c as int - '0' as int)
    else if 'a' <= c <= 'f' then Some(c as int - 'a' as int + 10)
    else if 'A' <= c <= 'F' then Some(c as int - 'A' as int + 10)
    else None
  }

  function Prepend(c: char, rest: Option<string>): Option<string> {
    match rest
    case None => None
    case Some(t) => Some([c] + t)
  }

  /** Decodes the inside of a Python string literal quoted with `q`: the
      escapes `\\`, `\'`, `\"`, `\t`, `\n`, `\r` and `\xhh`; an unescaped
      `q` or any other escape makes the literal malformed. */
  function UnescapeBody(t: string, q: char): Option<string>
    decreases |t|
  {
    if t == [] then Some([])
    else if t[0] == '\\' then
      if |t| < 2 then None
      else if t[1] == '\\' || t[1] == '\'' || t[1] == '"' then Prepend(t[1], UnescapeBody(t[2..], q))
      else if t[1] == 't' then Prepend('\t', UnescapeBody(t[2..], q))
      else if t[1] == 'n' then Prepend('\n', UnescapeBody(t[2..], q))
      else if t[1] == 'r' then Prepend('\r', UnescapeBody(t[2..], q))
      else if t[1] == 'x' && |t| >= 4 && HexValue(t[2]).Some? && HexValue(t[3]).Some? then
        Prepend((HexValue(t[2]).value * 16 + HexValue(t[3]).value) as char, UnescapeBody(t[4..], q))
      else None
    else if t[0] == q then None
    else Prepend(t[0], UnescapeBody(t[1..], q))
  }

  /** Reads back a quoted Python string literal. */
  function Unrepr(r: string): Option<string> {
    if |r| >= 2 && (r[0] == '\'' || r[0] == '"') && r[|r| - 1] == r[0] then
      UnescapeBody(r[1..|r| - 1], r[0])
    else None
  }

  lemma HexDigitsDecode(d: nat)
    requires d < 16
    ensures HexValue(HexDigits[d]) == Some(d)
  {
  }

  /** Decoding one escaped character and then the rest is decoding the rest
      with that character in front. */
  lemma EscapeCharDecodes(c: char, q: char, rest: string)
    requires q == '\'' || q == '"'
    ensures UnescapeBody(EscapeChar(c, q) + rest, q) == Prepend(c, UnescapeBody(rest, q))
  {
    if c == q || c == '\\' || c == '\t' || c == '\n' || c == '\r' {
      EscapeTwoDecodes(c, q, rest);
    } else if NeedsHexEscape(c) {
      EscapeHexDecodes(c, q, rest);
    } else {
      var t := EscapeChar(c, q) + rest;
      assert t[1..] == rest;
    }
  }

  lemma EscapeTwoDecodes(c: char, q: char, rest: string)
    requires q == '\'' || q == '"'
    requires c == q || c == '\\' || c == '\t' || c == '\n' || c == '\r'
    ensures UnescapeBody(EscapeChar(c, q) + rest, q) == Prepend(c, UnescapeBody(rest, q))
  {
    var t := EscapeChar(c, q) + rest;
    assert |EscapeChar(c, q)| == 2;
    assert t[2..] == rest;
  }

  lemma EscapeHexDecodes(c: char, q: char, rest: string)
    requires q == '\'' || q == '"'
    requires c != q && c != '\\' && c != '\t' && c != '\n' && c != '\r' && NeedsHexEscape(c)
    ensures UnescapeBody(EscapeChar(c, q) + rest, q) == Prepend(c, UnescapeBody(rest, q))
  {
    var n := c as int;
    var t := EscapeChar(c, q) + rest;
    assert EscapeChar(c, q) == ['\\', 'x', HexDigits[n / 16], HexDigits[n % 16]];
    HexDigitsDecode(n / 16);
    HexDigitsDecode(n % 16);
    assert t[0] == '\\' && t[1] == 'x';
    assert t[2] == HexDigits[n / 16] && t[3] == HexDigits[n % 16];
    assert t[4..] == rest;
    assert (n / 16 * 16 + n % 16) as char == c;
  }

  lemma {:induction false} EscapeBodyDecodes(s: string, q: char)
    requires q == '\'' || q == '"'
    ensures UnescapeBody(EscapeBody(s, q), q) == Some(s)
  {
    if s != [] {
      EscapeCharDecodes(s[0], q, EscapeBody(s[1..], q));
      EscapeBodyDecodes(s[1..], q);
      assert [s[0]] + s[1..] == s;
    }
  }

  /** `repr` of a string is a literal that reads back as the same string. */
  lemma StrReprRoundTrip(s: string)
    ensures Unrepr(StrRepr(s)) == Some(s)
  {
    var q := QuoteFor(s);
    var r := StrRepr(s);
    assert r[1..|r| - 1] == EscapeBody(s, q);
    EscapeBodyDecodes(s, q);
  }

  /** Distinct strings have distinct representations. */
  lemma StrReprInjective(s: string, t: string)
    requires StrRepr(s) == StrRepr(t)
    ensures s == t
  {
    StrReprRoundTrip(s);
    StrReprRoundTrip(t);
  }

  // ---------------------------------------------------------------------
  // int(str)
  // ---------------------------------------------------------------------

  /** The white space `int()` strips from both ends of its argument: the
      ASCII characters C's `isspace` accepts (tab, line feed, vertical tab,
      form feed, carriage return, space) and the non-ASCII characters
      `str.isspace()` accepts. The ASCII separators U+001C..U+001F, which
      `str.isspace()` accepts, are not stripped. */
  predicate IsSpace(c: char) {
    var n := c as int;
    (0x09 <= n <= 0x0d) || n == 0x20 || n == 0x85 || n == 0xa0 || n == 0x1680
    || (0x2000 <= n <= 0x200a) || n == 0x2028 || n == 0x2029 || n == 0x202f || n == 0x205f
    || n == 0x3000
  }

  predicate AllSpace(w: string) {
    forall i :: 0 <= i < |w| ==> IsSpace(w[i])
  }

  function TrimLeft(s: string): (r: string)
    ensures r == [] || !IsSpace(r[0])
    decreases |s|
  {
    if s != [] && IsSpace(s[0]) then TrimLeft(s[1..]) else s
  }

  function TrimRight(s: string): (r: string)
    ensures r == [] || !IsSpace(r[|r| - 1])
    decreases |s|
  {
    if s != [] && IsSpace(s[|s| - 1]) then TrimRight(s[..|s| - 1]) else s
  }

  /** `TrimLeft` removes a prefix made of white space only. */
  lemma {:induction false} TrimLeftRemovesSpace(s: string)
    ensures |TrimLeft(s)| <= |s| && TrimLeft(s) == s[|s| - |TrimLeft(s)|..]
    ensures AllSpace(s[..|s| - |TrimLeft(s)|])
    decreases |s|
  {
    if s != [] && IsSpace(s[0]) {
      TrimLeftRemovesSpace(s[1..]);
      var k := |s| - |TrimLeft(s)|;
      assert s[..k] == [s[0]] + s[1..][..k - 1];
    }
  }

  /** `TrimRight` removes a suffix made of white space only. */
  lemma {:induction false} TrimRightRemovesSpace(s: string)
    ensures TrimRight(s) <= s
    ensures AllSpace(s[|TrimRight(s)|..])
    decreases |s|
  {
    if s != [] && IsSpace(s[|s| - 1]) {
      var p := s[..|s| - 1];
      TrimRightRemovesSpace(p);
      var k := |TrimRight(s)|;
      assert s[k..] == p[k..] + [s[|s| - 1]];
    }
  }

  predicate IsDigit(c: char) {
    '0' <= c <= '9'
  }

  /** A base-10 digit string as `int()` accepts it: digits, with single
      underscores allowed between two digits. */
  predicate ValidDigits(b: string) {
    && |b| > 0
    && IsDigit(b[0])
    && IsDigit(b[|b| - 1])
    && (forall i :: 0 <= i < |b| ==> IsDigit(b[i]) || b[i] == '_')
    && (forall i :: 0 <= i < |b| - 1 ==> b[i] == '_' ==> b[i + 1] != '_')
  }

  /** The number a digit string denotes, underscores ignored. */
  function DigitsValue(b: string): nat
    decreases |b|
  {
    if b == [] then 0
    else if b[|b| - 1] == '_' then DigitsValue(b[..|b| - 1])
    else DigitsValue(b[..|b| - 1]) * 10 + DigitOf(b[|b| - 1])
  }

  function DigitOf(c: char): nat {
    if IsDigit(c) then c as int - '0' as int else 0
  }

  /** `int(s)`: `Some(n)` when `s` parses as a base-10 integer, `None`
      where Python raises `ValueError`. */
  function ParseInt(s: string): Option<int> {
    var t := TrimRight(TrimLeft(s));
    if |t| > 0 && (t[0] == '+' || t[0] == '-') then
      if ValidDigits(t[1..]) then
        var magnitude: int := DigitsValue(t[1..]);
        Some(if t[0] == '-' then -magnitude else magnitude)
      else None
    else if ValidDigits(t) then Some(DigitsValue(t))
    else None
  }

  /** `str(n)` for a non-negative integer. */
  function NatToDecimal(n: nat): (r: string)
    ensures |r| > 0 && forall i :: 0 <= i < |r| ==> IsDigit(r[i])
  {
    if n < 10 then [('0' as int + n) as char]
    else NatToDecimal(n / 10) + [('0' as int + n % 10) as char]
  }

  /** `str(n)` for any integer. */
  function IntToDecimal(n: int): string {
    if n < 0 then "-" + NatToDecimal(-n) else NatToDecimal(n)
  }

  lemma {:induction false} NatToDecimalValue(n: nat)
    ensures DigitsValue(NatToDecimal(n)) == n
  {
    var r := NatToDecimal(n);
    if n >= 10 {
      NatToDecimalValue(n / 10);
      assert r[..|r| - 1] == NatToDecimal(n / 10);
    }
  }

  /** `int(str(n)) == n`. */
  lemma ParseIntRoundTrip(n: int)
    ensures ParseInt(IntToDecimal(n)) == Some(n)
  {
    var m: nat := if n < 0 then -n else n;
    var d := NatToDecimal(m);
    var v: int := DigitsValue(d);
    assert v == m by {
      NatToDecimalValue(m);
    }
    if n < 0 {
      assert IntToDecimal(n) == "-" + d;
      ParseIntOfNegative(d);
      assert ParseInt("-" + d) == Some(-v);
    } else {
      assert IntToDecimal(n) == d;
      ParseIntOfDigits(d);
    }
  }

  /** Text that neither starts nor ends with white space is not trimmed. */
  lemma TrimNothing(s: string)
    requires s != [] && !IsSpace(s[0]) && !IsSpace(s[|s| - 1])
    ensures TrimRight(TrimLeft(s)) == s
  {
  }

  lemma ParseIntOfDigits(d: string)
    requires |d| > 0 && forall i :: 0 <= i < |d| ==> IsDigit(d[i])
    ensures ParseInt(d) == Some(DigitsValue(d))
  {
    TrimNothing(d);
    assert ValidDigits(d);
  }

  lemma ParseIntOfNegative(d: string)
    requires |d| > 0 && forall i :: 0 <= i < |d| ==> IsDigit(d[i])
    ensures ParseInt("-" + d) == Some(-(DigitsValue(d) as int))
  {
    var s := "-" + d;
    assert s[|s| - 1] == d[|d| - 1];
    TrimNothing(s);
    var t := TrimRight(TrimLeft(s));
    assert t[0] == '-' && t[1..] == d;
    assert ValidDigits(d);
    var magnitude: int := DigitsValue(d);
    assert ParseInt(s) == Some(-magnitude);
  }

  /** White space `int()` strips, added on either side, does not change
      what it reads. */
  lemma ParseIntIgnoresPadding(w1: string, s: string, w2: string)
    requires AllSpace(w1) && AllSpace(w2)
    ensures ParseInt(w1 + s + w2) == ParseInt(s)
  {
    TrimPadding(w1, s, w2);
  }

  lemma TrimPadding(w1: string, s: string, w2: string)
    requires AllSpace(w1) && AllSpace(w2)
    ensures TrimRight(TrimLeft(w1 + s + w2)) == TrimRight(TrimLeft(s))
  {
    assert w1 + s + w2 == w1 + (s + w2);
    TrimLeftSpaces(w1, s + w2);
    TrimLeftAppend(s, w2);
    var u := TrimLeft(s);
    if u == [] {
      TrimLeftSpaces(w2, []);
      assert w2 + [] == w2;
    } else {
      TrimRightSpaces(u, w2);
    }
  }

  /** Leading white space is skipped entirely. */
  lemma {:induction false} TrimLeftSpaces(w: string, t: string)
    requires AllSpace(w)
    ensures TrimLeft(w + t) == TrimLeft(t)
    decreases |w|
  {
    if w == [] {
      assert w + t == t;
    } else {
      assert (w + t)[0] == w[0];
      assert (w + t)[1..] == w[1..] + t;
      TrimLeftSpaces(w[1..], t);
    }
  }

  /** Trailing white space is skipped entirely. */
  lemma {:induction false} TrimRightSpaces(u: string, w: string)
    requires AllSpace(w)
    ensures TrimRight(u + w) == TrimRight(u)
    decreases |w|
  {
    if w == [] {
      assert u + w == u;
    } else {
      var v := w[..|w| - 1];
      assert (u + w)[|u + w| - 1] == w[|w| - 1];
      assert (u + w)[..|u + w| - 1] == u + v;
      TrimRightSpaces(u, v);
    }
  }

  /** Trimming the left of `s + t` trims `s` first, and runs into `t` only
      when `s` is all white space. */
  lemma {:induction false} TrimLeftAppend(s: string, t: string)
    ensures TrimLeft(s + t) == if TrimLeft(s) == [] then TrimLeft(t) else TrimLeft(s) + t
    decreases |s|
  {
    if s == [] {
      assert s + t == t;
    } else {
      assert (s + t)[0] == s[0];
      if IsSpace(s[0]) {
        assert (s + t)[1..] == s[1..] + t;
        TrimLeftAppend(s[1..], t);
      }
    }
  }

  lemma ParseIntOfNumber()
    ensures ParseInt("123") == Some(123)
  {
    assert TrimLeft("123") == "123";
    assert TrimRight("123") == "123";
    assert ValidDigits("123");
    assert "123"[..2] == "12" && "12"[..1] == "1" && "1"[..0] == "";
    assert DigitsValue("1") == 1;
    assert DigitsValue("12") == 12;
  }

  lemma ParseIntOfWord()
    ensures ParseInt("foo") == None
  {
    assert TrimLeft("foo") == "foo";
    assert TrimRight("foo") == "foo";
    assert !IsDigit('f');
  }

  /** Digits followed by two underscores never parse, whatever follows:
      `int()` allows single underscores between digits only. */
  lemma ParseIntRejectsDoubleUnderscore(a: string, b: string)
    requires |a| > 0 && forall i :: 0 <= i < |a| ==> IsDigit(a[i])
    ensures ParseInt(a + "__" + b) == None
  {
    var s := a + "__" + b;
    assert s[0] == a[0];
    assert TrimLeft(s) == s;
    var t := TrimRight(s);
    TrimRightRemovesSpace(s);
    assert s[|a| + 1] == '_';
    assert |t| > |a| + 1;
    assert t[0] == a[0] && t[|a|] == '_' && t[|a| + 1] == '_';
    assert !ValidDigits(t);
  }
}
