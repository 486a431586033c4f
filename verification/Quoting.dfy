/** Quoted strings as Go prints them with %q and reads them back: texts are code points, names are bytes. */
module Quoting {

  type Bytes = seq<int>

  /** What reading a quoted string gives: the bytes of a name, which need not be text. */
  datatype Unquoted = Name(bytes: Bytes) | SyntaxError

  // ---- UTF-8, section 3 of RFC 3629 ----

  function Utf8Char(c: char): (b: Bytes)
    ensures 1 <= |b| <= 4
  {
    var n := c as int;
    var q1 := n / 0x40;
    var q2 := q1 / 0x40;
    var q3 := q2 / 0x40;
    if n < 0x80 then [n]
    else if n < 0x800 then [0xc0 + q1, 0x80 + n % 0x40]
    else if n < 0x10000 then [0xe0 + q2, 0x80 + q1 % 0x40, 0x80 + n % 0x40]
    else [0xf0 + q3, 0x80 + q2 % 0x40, 0x80 + q1 % 0x40, 0x80 + n % 0x40]
  }

  function Utf8(s: string): Bytes {
    if s == "" then [] else Utf8Char(s[0]) + Utf8(s[1..])
  }

  /** No character's bytes begin those of another. */
  lemma Utf8CharFirst(c: char, d: char, x: Bytes, y: Bytes)
    requires Utf8Char(c) + x == Utf8Char(d) + y
    ensures c == d && x == y
  {
    var a, b := Utf8Char(c), Utf8Char(d);
    assert (a + x)[0] == a[0] && (b + y)[0] == b[0];
    SameLength(c, d);
    assert a == (a + x)[..|a|] && b == (b + y)[..|b|];
    assert x == (a + x)[|a|..] && y == (b + y)[|b|..];
    Utf8CharValue(c);
    Utf8CharValue(d);
  }

  /** The first byte tells how many there are. */
  lemma SameLength(c: char, d: char)
    requires Utf8Char(c)[0] == Utf8Char(d)[0]
    ensures |Utf8Char(c)| == |Utf8Char(d)|
  {
  }

  /** The shape of the bytes, and that the bits behind their marks make up the code point. */
  lemma Utf8Shape(c: char)
    ensures var n, b := c as int, Utf8Char(c);
      && |b| == (if n <= 0x7f then 1 else if n <= 0x7ff then 2 else if n <= 0xffff then 3 else 4)
      && (|b| == 1 ==> b[0] == n)
      && (|b| == 2 ==> 0xc2 <= b[0] <= 0xdf)
      && (|b| == 3 ==> 0xe0 <= b[0] <= 0xef)
      && (|b| == 4 ==> 0xf0 <= b[0] <= 0xf4)
      && (forall i :: 1 <= i < |b| ==> 0x80 <= b[i] <= 0xbf)
    ensures var n, b := c as int, Utf8Char(c);
      && (|b| == 2 ==> n == (b[0] - 0xc0) * 0x40 + b[1] - 0x80)
      && (|b| == 3 ==> n == (b[0] - 0xe0) * 0x1000 + (b[1] - 0x80) * 0x40 + b[2] - 0x80)
      && (|b| == 4 ==> n == (b[0] - 0xf0) * 0x40000 + (b[1] - 0x80) * 0x1000 + (b[2] - 0x80) * 0x40 + b[3] - 0x80)
  {
  }

  function Utf8Value(b: Bytes): int
    requires 1 <= |b| <= 4
  {
    if |b| == 1 then b[0]
    else if |b| == 2 then (b[0] - 0xc0) * 0x40 + (b[1] - 0x80)
    else if |b| == 3 then ((b[0] - 0xe0) * 0x40 + (b[1] - 0x80)) * 0x40 + (b[2] - 0x80)
    else (((b[0] - 0xf0) * 0x40 + (b[1] - 0x80)) * 0x40 + (b[2] - 0x80)) * 0x40 + (b[3] - 0x80)
  }

  lemma Utf8CharValue(c: char)
    ensures Utf8Value(Utf8Char(c)) == c as int
  {
  }

  /** Different texts have different bytes. */
  lemma {:induction false} Utf8Injective(s: string, t: string)
    requires Utf8(s) == Utf8(t)
    ensures s == t
  {
    if s != "" && t != "" {
      Utf8CharFirst(s[0], t[0], Utf8(s[1..]), Utf8(t[1..]));
      Utf8Injective(s[1..], t[1..]);
      assert s == [s[0]] + s[1..] && t == [t[0]] + t[1..];
    }
  }

  // ---- numbers in escapes ----

  function HexDigit(n: nat): (c: char)
    requires n < 16
  {
    if n < 10 then '0' + n as char else 'a' + (n - 10) as char
  }

  /** The value of a hex digit of either case, or 16. */
  function HexValue(c: char): (v: nat)
    ensures v <= 16
  {
    if '0' <= c <= '9' then (c as int) - ('0' as int)
    else if 'a' <= c <= 'f' then (c as int) - ('a' as int) + 10
    else if 'A' <= c <= 'F' then (c as int) - ('A' as int) + 10
    else 16
  }

  function Hex(n: nat, width: nat): (s: string)
    ensures |s| == width
  {
    if width == 0 then "" else Hex(n / 16, width - 1) + [HexDigit(n % 16)]
  }

  predicate IsHex(s: string) {
    forall i :: 0 <= i < |s| ==> HexValue(s[i]) < 16
  }

  function UnHex(s: string): nat {
    if s == "" then 0 else 16 * UnHex(s[..|s| - 1]) + HexValue(s[|s| - 1])
  }

  function Power16(width: nat): nat {
    if width == 0 then 1 else 16 * Power16(width - 1)
  }

  lemma {:induction false} HexRoundTrip(n: nat, width: nat)
    requires n < Power16(width)
    ensures IsHex(Hex(n, width)) && UnHex(Hex(n, width)) == n
  {
    if width > 0 {
      HexRoundTrip(n / 16, width - 1);
      var s := Hex(n, width);
      assert s[..width - 1] == Hex(n / 16, width - 1);
    }
  }

  /** Code points of ASCII are decided here; `printable` decides the others. */
  predicate IsPrint(c: char, printable: char -> bool) {
    if c <= '\U{7f}' then ' ' <= c <= '~' else printable(c)
  }

  /** The digits as they are written, in lower case; both cases are read. */
  lemma HexDigits(n: nat)
    requires n < 16
    ensures HexDigit(n) == "0123456789abcdef"[n] && HexValue("0123456789ABCDEF"[n]) == n
  {
  }

  /** The letter after the backslash for the control codes that have one. */
  function Letter(c: char): char {
    if c == '\U{07}' then 'a' else if c == '\U{08}' then 'b' else if c == '\U{0c}' then 'f'
    else if c == '\n' then 'n' else if c == '\r' then 'r' else if c == '\t' then 't'
    else if c == '\U{0b}' then 'v' else ' '
  }

  function Unletter(e: char): char {
    if e == 'a' then '\U{07}' else if e == 'b' then '\U{08}' else if e == 'f' then '\U{0c}'
    else if e == 'n' then '\n' else if e == 'r' then '\r' else if e == 't' then '\t'
    else if e == 'v' then '\U{0b}' else ' '
  }

  function Escape(c: char, printable: char -> bool): string {
    if c == '"' || c == '\\' then ['\\', c]
    else if IsPrint(c, printable) then [c]
    else if Letter(c) != ' ' then ['\\', Letter(c)]
    else if c < ' ' then "\\x" + Hex(c as int, 2)
    else if (c as int) < 0x10000 then "\\u" + Hex(c as int, 4)
    else "\\U" + Hex(c as int, 8)
  }

  function EscapeAll(s: string, printable: char -> bool): string {
    if s == "" then "" else Escape(s[0], printable) + EscapeAll(s[1..], printable)
  }

  function Quote(s: string, printable: char -> bool): string {
    "\"" + EscapeAll(s, printable) + "\""
  }

  /** The number of hex digits after an escape letter. */
  function Digits(e: char): nat {
    if e == 'x' then 2 else if e == 'u' then 4 else if e == 'U' then 8 else 0
  }

  function Before(b: Bytes, rest: Unquoted): Unquoted {
    if rest.Name? then Name(b + rest.bytes) else rest
  }

  function Cons(c: char, rest: Unquoted): Unquoted {
    Before(Utf8Char(c), rest)
  }

  /** A value written as a byte is that byte, whether or not text comes of it; surrogates become U+FFFD. */
  function Numbered(value: nat, byte: bool, rest: Unquoted): Unquoted {
    if byte then (if value > 0xff then SyntaxError else Before([value], rest))
    else if value > 0x10ffff then SyntaxError
    else if 0xd800 <= value <= 0xdfff then Cons('\U{fffd}', rest)
    else Cons(value as char, rest)
  }

  predicate IsOctal(s: string) {
    forall i :: 0 <= i < |s| ==> '0' <= s[i] <= '7'
  }

  function UnOctal(s: string): nat
    requires IsOctal(s)
  {
    if s == "" then 0 else 8 * UnOctal(s[..|s| - 1]) + ((s[|s| - 1] as int) - ('0' as int))
  }

  /** Reads what stands between the quotes. */
  function Decode(s: string): Unquoted {
    if s == "" then Name([])
    else if s[0] == '"' || s[0] == '\n' then SyntaxError
    else if s[0] != '\\' then Cons(s[0], Decode(s[1..]))
    else if |s| == 1 then SyntaxError
    else
      var e := s[1];
      if Unletter(e) != ' ' then Cons(Unletter(e), Decode(s[2..]))
      else if e == '\\' || e == '"' then Cons(e, Decode(s[2..]))
      else if Digits(e) > 0 then
        if |s| >= 2 + Digits(e) && IsHex(s[2..2 + Digits(e)])
        then Numbered(UnHex(s[2..2 + Digits(e)]), e == 'x', Decode(s[2 + Digits(e)..]))
        else SyntaxError
      else if |s| >= 4 && IsOctal(s[1..4]) then Numbered(UnOctal(s[1..4]), true, Decode(s[4..]))
      else SyntaxError
  }

  /** Reads a string that starts with a double quote. */
  function Unquote(s: string): Unquoted {
    if |s| < 2 || s[0] != '"' || s[|s| - 1] != '"' then SyntaxError else Decode(s[1..|s| - 1])
  }

  lemma DecodeLetter(c: char, rest: string)
    requires Letter(c) != ' '
    ensures Decode(['\\', Letter(c)] + rest) == Cons(c, Decode(rest))
  {
    var s := ['\\', Letter(c)] + rest;
    assert s[2..] == rest;
    assert Unletter(Letter(c)) == c;
  }

  lemma DecodeHex(c: char, e: char, rest: string)
    requires Digits(e) > 0 && (c as int) < Power16(Digits(e)) && (e == 'x' ==> c <= '\U{7f}')
    ensures Decode(['\\', e] + Hex(c as int, Digits(e)) + rest) == Cons(c, Decode(rest))
  {
    HexRoundTrip(c as int, Digits(e));
    hide Hex, UnHex, IsHex, Power16;
    DecodeNumber(['\\', e] + Hex(c as int, Digits(e)) + rest);
    hide Decode, HexValue;
  }

  lemma DecodeNumber(s: string)
    requires |s| >= 2 && s[0] == '\\' && Digits(s[1]) > 0
    requires |s| >= 2 + Digits(s[1]) && IsHex(s[2..2 + Digits(s[1])])
    ensures var d := Digits(s[1]);
      Decode(s) == Numbered(UnHex(s[2..2 + d]), s[1] == 'x', Decode(s[2 + d..]))
  {
    hide IsHex, UnHex, Numbered;
    DigitsAreNoLetter(s[1]);
    hide Unletter;
  }

  lemma DigitsAreNoLetter(e: char)
    requires Digits(e) > 0
    ensures Unletter(e) == ' ' && e != '\\' && e != '"'
  {
  }

  /** Reading back one escaped code point, whatever comes after it. */
  lemma DecodeEscape(c: char, printable: char -> bool, rest: string)
    ensures Decode(Escape(c, printable) + rest) == Cons(c, Decode(rest))
  {
    var s := Escape(c, printable) + rest;
    if c == '"' || c == '\\' {
      assert s[2..] == rest;
    } else if IsPrint(c, printable) {
      assert s[1..] == rest;
    } else if Letter(c) != ' ' {
      DecodeLetter(c, rest);
    } else {
      NumberEscape(c, printable);
      var e := if c < ' ' then 'x' else if (c as int) < 0x10000 then 'u' else 'U';
      hide *;
      assert s == ['\\', e] + Hex(c as int, Digits(e)) + rest;
      DecodeHex(c, e, rest);
    }
  }

  /** A code point that is escaped by its number. */
  lemma NumberEscape(c: char, printable: char -> bool)
    requires c != '"' && c != '\\' && !IsPrint(c, printable) && Letter(c) == ' '
    ensures var e := if c < ' ' then 'x' else if (c as int) < 0x10000 then 'u' else 'U';
      && Escape(c, printable) == ['\\', e] + Hex(c as int, Digits(e))
      && Digits(e) > 0 && (c as int) < Power16(Digits(e)) && (e == 'x' ==> c <= '\U{7f}')
  {
    assert Power16(2) == 0x100 && Power16(4) == 0x10000 && Power16(8) == 0x1_0000_0000;
    hide Hex, Power16;
  }

  lemma {:induction false} DecodeEscapeAll(s: string, printable: char -> bool)
    ensures Decode(EscapeAll(s, printable)) == Name(Utf8(s))
  {
    if s != "" {
      DecodeEscapeAll(s[1..], printable);
      DecodeEscape(s[0], printable, EscapeAll(s[1..], printable));
    }
  }

  /** Quoting loses nothing, whichever code points count as printable: the bytes of the text come back. */
  lemma QuoteRoundTrip(s: string, printable: char -> bool)
    ensures Unquote(Quote(s, printable)) == Name(Utf8(s))
  {
    var q := Quote(s, printable);
    assert q[1..|q| - 1] == EscapeAll(s, printable);
    DecodeEscapeAll(s, printable);
  }

  // ---- what is written, and what is refused ----

  /** Printable ASCII other than quote and backslash. */
  predicate Plain(s: string) {
    forall i :: 0 <= i < |s| ==> ' ' <= s[i] <= '~' && s[i] != '"' && s[i] != '\\'
  }

  lemma {:induction false} PlainStays(s: string, printable: char -> bool)
    requires Plain(s)
    ensures EscapeAll(s, printable) == s
  {
    if s != "" {
      PlainStays(s[1..], printable);
      assert [s[0]] + s[1..] == s;
    }
  }

  /** A plain name is printed as it is, between quotes. */
  lemma PlainQuote(s: string, printable: char -> bool)
    requires Plain(s)
    ensures Quote(s, printable) == "\"" + s + "\""
  {
    PlainStays(s, printable);
  }

  /** The escapes of the code points that have a letter of their own, and of quote and backslash. */
  lemma EscapeTexts(printable: char -> bool)
    ensures Escape('"', printable) == "\\\"" && Escape('\\', printable) == "\\\\"
    ensures Escape('\n', printable) == "\\n" && Escape('\t', printable) == "\\t" && Escape('\r', printable) == "\\r"
    ensures Escape('\U{07}', printable) == "\\a" && Escape('\U{08}', printable) == "\\b"
    ensures Escape('\U{0b}', printable) == "\\v" && Escape('\U{0c}', printable) == "\\f"
  {
    hide Hex;
  }

  /** The other control codes are printed by their number, in two digits below a space and in four for DEL. */
  lemma EscapeControl(c: char, printable: char -> bool)
    requires c < ' ' || c == '\U{7f}'
    requires c !in {'\n', '\t', '\r', '\U{07}', '\U{08}', '\U{0b}', '\U{0c}'}
    ensures Escape(c, printable) == if c < ' ' then "\\x" + Hex(c as int, 2) else "\\u" + Hex(c as int, 4)
  {
    hide Hex;
  }

  /** Code points above ASCII are printed as they are if they count as printable, and otherwise by their number. */
  lemma EscapeAbove(c: char, printable: char -> bool)
    requires c > '\U{7f}'
    ensures Escape(c, printable) ==
      if printable(c) then [c]
      else if (c as int) <= 0xffff then "\\u" + Hex(c as int, 4) else "\\U" + Hex(c as int, 8)
  {
  }

  /** Between the quotes no quote, newline or lone backslash may stand, and after a backslash only these. */
  lemma DecodeRefuses(e: char, rest: string)
    ensures Decode(['"'] + rest).SyntaxError? && Decode(['\n'] + rest).SyntaxError? && Decode(['\\']).SyntaxError?
    ensures e !in {'a', 'b', 'f', 'n', 'r', 't', 'v', '\\', '"', 'x', 'u', 'U'} && !('0' <= e <= '7') ==>
      Decode(['\\', e] + rest).SyntaxError?
  {
    var s := ['\\', e] + rest;
    assert s[0] == '\\' && s[1] == e;
    assert |s| >= 4 ==> s[1..4][0] == e;
  }

  /** A quoted string ends with a quote of its own. */
  lemma UnquoteRefuses(s: string)
    ensures Unquote("\"").SyntaxError?
    ensures s != "" && s[|s| - 1] != '"' ==> Unquote("\"" + s).SyntaxError?
    ensures Unquote("\"" + s + "\"") == Decode(s)
  {
    var t := "\"" + s + "\"";
    assert t[1..|t| - 1] == s && t[|t| - 1] == '"';
    hide Decode;
  }

  /** Digits are asked for in full, and a number beyond Unicode is refused. */
  lemma NumberRefuses(e: char, digits: string, rest: string)
    requires Digits(e) > 0 && |digits| == Digits(e)
    ensures !IsHex(digits) ==> Decode(['\\', e] + digits + rest).SyntaxError?
    ensures |rest| < Digits(e) ==> Decode(['\\', e] + rest).SyntaxError?
    ensures IsHex(digits) && UnHex(digits) > (if e == 'x' then 0xff else 0x10ffff) ==>
      Decode(['\\', e] + digits + rest).SyntaxError?
  {
    hide IsHex, UnHex, Unletter;
    DigitsAreNoLetter(e);
    var s, t := ['\\', e] + rest, ['\\', e] + digits + rest;
    assert s[0] == t[0] == '\\' && s[1] == t[1] == e;
    assert t[2..2 + |digits|] == digits;
  }

  /** Numbers are written with the highest digit first. */
  lemma HexTexts(n: nat)
    ensures Hex(n, 2) == [HexDigit(n / 0x10 % 0x10), HexDigit(n % 0x10)]
    ensures Hex(n, 4) == [HexDigit(n / 0x10 / 0x10 / 0x10 % 0x10), HexDigit(n / 0x10 / 0x10 % 0x10),
                          HexDigit(n / 0x10 % 0x10), HexDigit(n % 0x10)]
  {
    assert Hex(n / 0x10 / 0x10 / 0x10 / 0x10, 0) == "" && Hex(n / 0x10 / 0x10, 0) == "";
    assert Hex(n / 0x10, 1) == [HexDigit(n / 0x10 % 0x10)];
    assert Hex(n / 0x10 / 0x10 / 0x10, 1) == [HexDigit(n / 0x10 / 0x10 / 0x10 % 0x10)];
    assert Hex(n / 0x10 / 0x10, 2) == Hex(n / 0x10 / 0x10 / 0x10, 1) + [HexDigit(n / 0x10 / 0x10 % 0x10)];
    hide HexDigit;
  }

  /** Letters after a backslash read as the control codes they stand for. */
  lemma DecodeLetters(rest: string)
    ensures Decode("\\n" + rest) == Before([10], Decode(rest)) && Decode("\\t" + rest) == Before([9], Decode(rest))
    ensures Decode("\\r" + rest) == Before([13], Decode(rest)) && Decode("\\a" + rest) == Before([7], Decode(rest))
    ensures Decode("\\b" + rest) == Before([8], Decode(rest)) && Decode("\\f" + rest) == Before([12], Decode(rest))
    ensures Decode("\\v" + rest) == Before([11], Decode(rest))
  {
    hide Decode;
    DecodeLetter('\n', rest);
    DecodeLetter('\t', rest);
    DecodeLetter('\r', rest);
    DecodeLetter('\U{07}', rest);
    DecodeLetter('\U{08}', rest);
    DecodeLetter('\U{0c}', rest);
    DecodeLetter('\U{0b}', rest);
  }

  /** Three octal digits are one byte. */
  lemma DecodeOctal(a: nat, b: nat, c: nat, rest: string)
    requires a <= 3 && b <= 7 && c <= 7
    ensures Decode(['\\', '0' + a as char, '0' + b as char, '0' + c as char] + rest)
      == Before([64 * a + 8 * b + c], Decode(rest))
  {
    hide *;
    var digits := ['0' + a as char, '0' + b as char, '0' + c as char];
    var s := ['\\'] + digits + rest;
    assert s == ['\\', '0' + a as char, '0' + b as char, '0' + c as char] + rest;
    assert s[1..4] == digits && s[4..] == rest;
    OctalValue(a, b, c);
    ReadOctal(s);
    ByteRead(64 * a + 8 * b + c, Decode(rest));
  }

  lemma ReadOctal(s: string)
    requires |s| >= 4 && s[0] == '\\' && IsOctal(s[1..4])
    ensures Decode(s) == Numbered(UnOctal(s[1..4]), true, Decode(s[4..]))
  {
    OctalIsNoLetter(s[1..4]);
    assert s[1] == s[1..4][0];
    hide UnOctal, Numbered, IsHex, UnHex, IsOctal, Unletter, Digits;
  }

  lemma OctalIsNoLetter(digits: string)
    requires digits != "" && IsOctal(digits)
    ensures var e := digits[0]; Unletter(e) == ' ' && Digits(e) == 0 && e != '\\' && e != '"'
  {
  }

  lemma ByteRead(value: nat, rest: Unquoted)
    requires value <= 0xff
    ensures Numbered(value, true, rest) == Before([value], rest)
  {
  }

  lemma OctalValue(a: nat, b: nat, c: nat)
    requires a <= 7 && b <= 7 && c <= 7
    ensures var s := ['0' + a as char, '0' + b as char, '0' + c as char];
      IsOctal(s) && UnOctal(s) == 64 * a + 8 * b + c
  {
    var s := ['0' + a as char, '0' + b as char, '0' + c as char];
    assert s[..2][..1] == [s[0]] && [s[0]][..0] == [] && s[..2] == [s[0], s[1]];
    assert UnOctal([s[0]]) == a;
    assert UnOctal(s[..2]) == 8 * a + b;
  }

  /** Bytes, each written as an escape of its own. */
  function EscapeBytes(b: Bytes): string
    requires forall i :: 0 <= i < |b| ==> 0 <= b[i] < 0x100
  {
    if b == [] then "" else "\\x" + Hex(b[0], 2) + EscapeBytes(b[1..])
  }

  /** Runs of byte escapes read back as the bytes, so also as the name whose bytes they are. */
  lemma {:induction false} BytesRoundTrip(b: Bytes)
    requires forall i :: 0 <= i < |b| ==> 0 <= b[i] < 0x100
    ensures Decode(EscapeBytes(b)) == Name(b)
  {
    if b != [] {
      BytesRoundTrip(b[1..]);
      assert Power16(2) == 0x100;
      HexRoundTrip(b[0], 2);
      var hex, rest := Hex(b[0], 2), EscapeBytes(b[1..]);
      assert EscapeBytes(b) == ['\\', 'x'] + hex + rest;
      assert [b[0]] + b[1..] == b;
      hide Hex, UnHex, IsHex, Power16;
      DecodeNumber(['\\', 'x'] + hex + rest);
      hide Decode, EscapeBytes;
    }
  }

  lemma {:induction false} HexIsPlain(n: nat, width: nat)
    ensures '\n' !in Hex(n, width)
  {
    if width > 0 {
      HexIsPlain(n / 16, width - 1);
    }
  }

  /** A quoted string is one line. */
  lemma {:induction false} EscapeAllIsOneLine(s: string, printable: char -> bool)
    ensures '\n' !in EscapeAll(s, printable)
  {
    if s != "" {
      EscapeAllIsOneLine(s[1..], printable);
      var c := s[0] as int;
      HexIsPlain(c, 2);
      HexIsPlain(c, 4);
      HexIsPlain(c, 8);
      assert '\n' !in Escape(s[0], printable);
    }
  }
}
