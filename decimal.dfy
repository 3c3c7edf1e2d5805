/** Decimal text as the JavaScript runtime reads and writes it: the global
    `parseInt` (used by the splitter to read percentage strings such as
    "25%") and the formatting of a whole number inside a template literal
    (used by the update menu item). */
module Decimal {
  import opened Wrappers

  /** The characters `parseInt` skips before the number: the white space and
      line terminators of the ECMAScript grammar. */
  predicate IsJsWhitespace(c: char) {
    || c == '\t' || c == '\n' || c == '\U{B}' || c == '\U{C}' || c == '\r'
    || c == ' ' || c == '\U{A0}' || c == '\U{1680}'
    || ('\U{2000}' <= c <= '\U{200A}')
    || c == '\U{2028}' || c == '\U{2029}' || c == '\U{202F}'
    || c == '\U{205F}' || c == '\U{3000}' || c == '\U{FEFF}'
  }

  /** The value of `c` as a digit of radix up to 36; 36 when it is not one. */
  function DigitVal(c: char): nat {
    if '0' <= c <= '9' then (c as int - '0' as int) as nat
    else if 'a' <= c <= 'z' then (c as int - 'a' as int) as nat + 10
    else if 'A' <= c <= 'Z' then (c as int - 'A' as int) as nat + 10
    else 36
  }

  predicate IsDigitIn(c: char, radix: nat) {
    DigitVal(c) < radix
  }

  predicate AllDigits(s: string, radix: nat) {
    forall i :: 0 <= i < |s| ==> IsDigitIn(s[i], radix)
  }

  /** The character for a decimal digit. */
  function DigitChar(d: nat): (c: char)
    requires d < 10
    ensures IsDigitIn(c, 10) && DigitVal(c) == d
  {
    ('0' as int + d) as char
  }

  /** Length of the longest prefix of `s` made of digits of `radix`. */
  function DigitRun(s: string, radix: nat): (n: nat)
    ensures n <= |s|
    ensures AllDigits(s[..n], radix)
    ensures n < |s| ==> !IsDigitIn(s[n], radix)
  {
    if s == [] || !IsDigitIn(s[0], radix) then 0
    else
      var n := 1 + DigitRun(s[1..], radix);
      assert s[..n] == [s[0]] + s[1..][..n - 1];
      n
  }

  /** The number a string of digits denotes, most significant digit first. */
  function DigitsValue(s: string, radix: nat): nat
    requires AllDigits(s, radix)
  {
    if s == [] then 0
    else DigitsValue(s[..|s| - 1], radix) * radix + DigitVal(s[|s| - 1])
  }

  /** JavaScript's `parseInt(s)` with no radix argument: leading white space
      is skipped, one `+` or `-` sign is read, a `0x`/`0X` prefix selects
      radix 16, and the longest run of digits that follows is the number.
      `None` stands for the NaN returned when that run is empty. */
  function ParseInt(s: string): (r: Option<int>)
    ensures s == [] ==> r.None?
    ensures s != [] && IsDigitIn(s[0], 10) && !HasHexPrefix(s) ==>
      r == Some(DigitsValue(s[..DigitRun(s, 10)], 10))
  {
    if s != [] && IsJsWhitespace(s[0]) then ParseInt(s[1..]) else ParseSigned(s)
  }

  /** Leading white space does not change what `parseInt` reads. */
  lemma {:induction false} ParseIntSkipsWhitespace(ws: string, s: string)
    requires forall i :: 0 <= i < |ws| ==> IsJsWhitespace(ws[i])
    ensures ParseInt(ws + s) == ParseInt(s)
  {
    if ws == [] {
      assert ws + s == s;
    } else {
      var t := ws + s;
      assert t != [] && IsJsWhitespace(t[0]);
      assert t[1..] == ws[1..] + s;
      ParseIntSkipsWhitespace(ws[1..], s);
    }
  }

  /** An optional sign, then an unsigned number. */
  function ParseSigned(t: string): Option<int> {
    if |t| > 0 && t[0] == '-' then
      match ParseUnsigned(t[1..])
      case Some(m) => Some(-(m as int))
      case None => None
    else if |t| > 0 && t[0] == '+' then AsInt(ParseUnsigned(t[1..]))
    else AsInt(ParseUnsigned(t))
  }

  function AsInt(m: Option<nat>): Option<int> {
    match m
    case Some(v) => Some(v)
    case None => None
  }

  /** A `0x` or `0X` prefix selects radix 16. */
  predicate HasHexPrefix(u: string) {
    |u| >= 2 && u[0] == '0' && (u[1] == 'x' || u[1] == 'X')
  }

  function ParseUnsigned(u: string): Option<nat> {
    if HasHexPrefix(u) then ParseDigits(u[2..], 16) else ParseDigits(u, 10)
  }

  /** The value of the longest run of digits at the start of `v`. */
  function ParseDigits(v: string, radix: nat): (r: Option<nat>)
    ensures r.None? <==> v == [] || !IsDigitIn(v[0], radix)
  {
    var n := DigitRun(v, radix);
    if n == 0 then None else Some(DigitsValue(v[..n], radix))
  }

  /** `parseInt` of text that starts with something other than white space,
      a sign or a digit is NaN. */
  lemma ParseIntNoDigits(s: string)
    requires |s| > 0 && !IsJsWhitespace(s[0]) && s[0] != '-' && s[0] != '+' && !IsDigitIn(s[0], 10)
    ensures ParseInt(s) == None
  {
    assert !HasHexPrefix(s);
  }

  /** The decimal text of `k`, as `${k}` writes a whole number. */
  function NatToDecimal(k: nat): (s: string)
    ensures |s| >= 1 && AllDigits(s, 10)
    ensures s[0] == '0' ==> k == 0 && s == "0"
  {
    if k < 10 then [DigitChar(k)]
    else NatToDecimal(k / 10) + [DigitChar(k % 10)]
  }

  /** Reading back the decimal text of `k` gives `k`. */
  lemma {:induction false} DecimalValue(k: nat)
    ensures DigitsValue(NatToDecimal(k), 10) == k
  {
    var s := NatToDecimal(k);
    if k >= 10 {
      DecimalValue(k / 10);
      assert s[..|s| - 1] == NatToDecimal(k / 10);
    }
  }

  /** The digit run of a digit string followed by a non-digit is that string. */
  lemma {:induction false} DigitRunOfDigits(d: string, rest: string, radix: nat)
    requires AllDigits(d, radix)
    requires rest == [] || !IsDigitIn(rest[0], radix)
    ensures DigitRun(d + rest, radix) == |d|
  {
    if d != [] {
      assert (d + rest)[1..] == d[1..] + rest;
      DigitRunOfDigits(d[1..], rest, radix);
    }
  }

  /** `parseInt` reads back what `${k}` wrote, whatever non-digit text
      follows it (a `%` sign, for instance), unless that text would turn a
      lone `0` into a hexadecimal prefix. */
  lemma ParseIntOfDecimal(k: nat, rest: string)
    requires rest == [] || (!IsDigitIn(rest[0], 10) && rest[0] != 'x' && rest[0] != 'X')
    ensures ParseInt(NatToDecimal(k) + rest) == Some(k)
  {
    var d := NatToDecimal(k);
    var s := d + rest;
    assert s[0] == d[0] && IsDigitIn(d[0], 10);
    assert !HasHexPrefix(s) by {
      if |s| >= 2 && s[0] == '0' {
        assert d == "0" && s[1] == rest[0];
      }
    }
    assert ParseInt(s) == AsInt(ParseDigits(s, 10));
    DigitRunOfDigits(d, rest, 10);
    assert s[..|d|] == d;
    DecimalValue(k);
  }

  /** A leading `-` negates what follows: `parseInt` reads back `-${k}`
      followed by the same kind of text as in `ParseIntOfDecimal`. */
  lemma ParseIntOfNegativeDecimal(k: nat, rest: string)
    requires rest == [] || (!IsDigitIn(rest[0], 10) && rest[0] != 'x' && rest[0] != 'X')
    ensures ParseInt("-" + NatToDecimal(k) + rest) == Some(-(k as int))
  {
    var u := NatToDecimal(k) + rest;
    assert "-" + NatToDecimal(k) + rest == "-" + u;
    ParseIntOfDecimal(k, rest);
    Negated(u);
  }

  /** `-` in front of text that starts with a digit negates what
      `parseInt` reads from that text. */
  lemma Negated(u: string)
    requires u != [] && IsDigitIn(u[0], 10)
    ensures ParseInt(u).Some? ==> ParseInt("-" + u) == Some(-ParseInt(u).value)
  {
    var s := "-" + u;
    assert s[0] == '-' && !IsJsWhitespace(s[0]) && s[1..] == u;
    assert ParseInt(u) == AsInt(ParseUnsigned(u));
  }

  /** A `0x` or `0X` prefix switches to radix 16: the run of hexadecimal
      digits after it is the number, and the text after that run is
      ignored. */
  lemma ParseIntOfHex(x: char, d: string, rest: string)
    requires x == 'x' || x == 'X'
    requires d != [] && AllDigits(d, 16)
    requires rest == [] || !IsDigitIn(rest[0], 16)
    ensures ParseInt(['0', x] + d + rest) == Some(DigitsValue(d, 16))
  {
    var s := ['0', x] + d + rest;
    assert !IsJsWhitespace(s[0]) && HasHexPrefix(s);
    assert s[2..] == d + rest;
    DigitRunOfDigits(d, rest, 16);
    assert (d + rest)[..|d|] == d;
  }
}
