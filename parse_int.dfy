/**
  ECMAScript `parseInt(string, 10)`, as the booking handler applies it to the
  submitted guest count: skip leading white space and line terminators, read
  one optional sign, then the longest run of decimal digits; no digits gives
  NaN (`None`). The value is an exact integer, and `-0` is the integer 0.
 */
module JsParseInt {
  import opened JsValues

  /** WhiteSpace and LineTerminator code points, which parseInt trims first. */
  predicate IsWhiteSpace(c: char) {
    || c == '\t' || c == '\n' || c == '\U{B}' || c == '\U{C}' || c == '\r'
    || c == ' ' || c == '\U{A0}' || c == '\U{1680}'
    || ('\U{2000}' <= c <= '\U{200A}')
    || c == '\U{2028}' || c == '\U{2029}' || c == '\U{202F}' || c == '\U{205F}'
    || c == '\U{3000}' || c == '\U{FEFF}'
  }

  predicate IsDigit(c: char) {
    '0' <= c <= '9'
  }

  predicate AllWhiteSpace(s: string) {
    forall i :: 0 <= i < |s| ==> IsWhiteSpace(s[i])
  }

  predicate AllDigits(s: string) {
    forall i :: 0 <= i < |s| ==> IsDigit(s[i])
  }

  function DigitValue(c: char): (v: nat)
    requires IsDigit(c)
    ensures v < 10
  {
    c as int - '0' as int
  }

  function DigitChar(v: nat): (c: char)
    requires v < 10
    ensures IsDigit(c) && DigitValue(c) == v
  {
    ('0' as int + v) as char
  }

  /** The value of a run of decimal digits, most significant first. */
  function DigitsValue(d: string): nat
    requires AllDigits(d)
  {
    if d == [] then 0 else DigitsValue(d[..|d| - 1]) * 10 + DigitValue(d[|d| - 1])
  }

  /** The string with its leading white space removed. */
  function TrimStart(s: string): string {
    if s != [] && IsWhiteSpace(s[0]) then TrimStart(s[1..]) else s
  }

  /** TrimStart drops exactly the longest white-space prefix. */
  lemma {:induction false} TrimStartDropsWhiteSpace(s: string)
    ensures var t := TrimStart(s);
      && |t| <= |s| && t == s[|s| - |t|..]
      && AllWhiteSpace(s[..|s| - |t|])
      && (t == [] || !IsWhiteSpace(t[0]))
  {
    if s != [] && IsWhiteSpace(s[0]) {
      TrimStartDropsWhiteSpace(s[1..]);
      var t := TrimStart(s[1..]);
      assert s[..|s| - |t|] == [s[0]] + s[1..][..|s[1..]| - |t|];
    }
  }

  /** The longest prefix of `s` made of decimal digits. */
  function DigitRun(s: string): (d: string)
    ensures AllDigits(d)
  {
    if s != [] && IsDigit(s[0]) then [s[0]] + DigitRun(s[1..]) else []
  }

  /** DigitRun is a prefix of its input, and the character after it (if any) is not a digit. */
  lemma {:induction false} DigitRunIsLongestPrefix(s: string)
    ensures var d := DigitRun(s);
      && |d| <= |s| && d == s[..|d|]
      && (|d| == |s| || !IsDigit(s[|d|]))
  {
    if s != [] && IsDigit(s[0]) {
      DigitRunIsLongestPrefix(s[1..]);
    }
  }

  /** `parseInt(s, 10)`; `None` stands for NaN. */
  function ParseInt(s: string): (r: Option<int>)
  {
    ParseTrimmed(TrimStart(s))
  }

  /** parseInt once the leading white space is gone: an optional sign, then digits. */
  function ParseTrimmed(t: string): (r: Option<int>)
  {
    var negative := t != [] && t[0] == '-';
    var unsigned := if t != [] && (t[0] == '+' || t[0] == '-') then t[1..] else t;
    var digits := DigitRun(unsigned);
    var magnitude: int := if digits == [] then 0 else DigitsValue(digits);
    if digits == [] then None
    else if negative then Some(-magnitude)
    else Some(magnitude)
  }

  /** JavaScript `String(v)` of an optional request field: `undefined` prints as "undefined". */
  function FieldText(field: Option<string>): string {
    if field.Some? then field.value else "undefined"
  }

  /** The sign a parseInt input may carry: none, "+" or "-". */
  predicate IsSign(sign: string) {
    sign == "" || sign == "+" || sign == "-"
  }

  /** The magnitude `m` carrying the sign written before it. */
  function Signed(sign: string, m: nat): int {
    if sign == "-" then -(m as int) else m
  }

  lemma {:induction false} TrimStartPrefix(ws: string, t: string)
    requires AllWhiteSpace(ws)
    requires t == [] || !IsWhiteSpace(t[0])
    ensures TrimStart(ws + t) == t
  {
    if ws != [] {
      assert (ws + t)[1..] == ws[1..] + t;
      TrimStartPrefix(ws[1..], t);
    }
  }

  lemma {:induction false} DigitRunPrefix(d: string, rest: string)
    requires AllDigits(d)
    requires rest == [] || !IsDigit(rest[0])
    ensures DigitRun(d + rest) == d
  {
    if d != [] {
      assert (d + rest)[1..] == d[1..] + rest;
      DigitRunPrefix(d[1..], rest);
      assert d == [d[0]] + d[1..];
    }
  }

  /**
    Every string of the form white space, optional sign, a non-empty digit run,
    then anything not starting with a digit, parses to the signed digit value.
   */
  lemma ParseIntDigits(ws: string, sign: string, digits: string, rest: string)
    requires AllWhiteSpace(ws) && IsSign(sign)
    requires digits != [] && AllDigits(digits)
    requires rest == [] || !IsDigit(rest[0])
    ensures ParseInt(ws + sign + digits + rest) == Some(Signed(sign, DigitsValue(digits)))
  {
    var t := sign + (digits + rest);
    assert ws + sign + digits + rest == ws + t;
    TrimStartPrefix(ws, t);
    ParseTrimmedDigits(sign, digits, rest);
  }

  lemma ParseTrimmedDigits(sign: string, digits: string, rest: string)
    requires IsSign(sign)
    requires digits != [] && AllDigits(digits)
    requires rest == [] || !IsDigit(rest[0])
    ensures ParseTrimmed(sign + (digits + rest)) == Some(Signed(sign, DigitsValue(digits)))
  {
    var unsigned := digits + rest;
    var t := sign + unsigned;
    DigitRunPrefix(digits, rest);
    assert DigitRun(unsigned) == digits;
    if sign == "" {
      assert t == unsigned;
      assert t[0] == digits[0];
      assert ParseTrimmed(t) == Some(DigitsValue(digits));
    } else {
      assert t[0] == sign[0];
      assert t[1..] == unsigned;
      assert ParseTrimmed(t) == Some(Signed(sign, DigitsValue(digits)));
    }
  }

  /**
    The complementary case: after the white space and an optional sign no
    digit follows, so parseInt yields NaN. With no sign written, `rest` must
    not itself begin with white space or a sign, which would extend the prefix.
   */
  lemma ParseIntNaN(ws: string, sign: string, rest: string)
    requires AllWhiteSpace(ws) && IsSign(sign)
    requires rest == [] || !IsDigit(rest[0])
    requires sign == "" && rest != [] ==> !IsWhiteSpace(rest[0]) && rest[0] != '+' && rest[0] != '-'
    ensures ParseInt(ws + sign + rest) == None
  {
    var t := sign + rest;
    assert ws + sign + rest == ws + t;
    TrimStartPrefix(ws, t);
    if sign != "" {
      assert t[0] == sign[0] && t[1..] == rest;
    }
  }

  /** The decimal digits of a natural number, most significant first, without leading zeros. */
  function NatDigits(n: nat): (d: string)
    ensures d != [] && AllDigits(d)
  {
    if n < 10 then [DigitChar(n)] else NatDigits(n / 10) + [DigitChar(n % 10)]
  }

  /**
    The plain decimal text of an integer, as JavaScript `String(n)` writes an
    integer-valued number below 10^21 in magnitude.
   */
  function DecimalString(n: int): string {
    if n < 0 then "-" + NatDigits(-n) else NatDigits(n)
  }

  lemma {:induction false} NatDigitsValue(n: nat)
    ensures DigitsValue(NatDigits(n)) == n
  {
    if n >= 10 {
      var d := NatDigits(n);
      assert d[..|d| - 1] == NatDigits(n / 10);
      NatDigitsValue(n / 10);
    }
  }

  /** parseInt reads back every integer that String writes. */
  lemma ParseIntDecimalString(n: int)
    ensures ParseInt(DecimalString(n)) == Some(n)
  {
    var sign := if n < 0 then "-" else "";
    var digits := NatDigits(if n < 0 then -n else n);
    NatDigitsValue(if n < 0 then -n else n);
    ParseIntDigits("", sign, digits, "");
    assert DecimalString(n) == "" + sign + digits + "";
  }
}
