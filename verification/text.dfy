/**
 * Character classes and number syntax shared by the line parsers, the command
 * bridge and the command-line formatting.  Strings are `seq<char>`.
 */
module Text {
  import opened Wrappers

  /** The regular-expression class `\d`, restricted to ASCII digits. */
  predicate IsDigit(c: char) {
    '0' <= c <= '9'
  }

  /**
   * The regular-expression class `\s` on `str` patterns, which is also what
   * `str.isspace`, `str.strip` and `str.rstrip` use: the ASCII blanks and
   * separators \t \n \v \f \r \x1c-\x1f and space, plus the Unicode spaces.
   */
  predicate IsSpace(c: char) {
    || c == ' '
    || ('\t' <= c <= '\r')
    || ('\U{1C}' <= c <= '\U{1F}')
    || c == '\U{85}' || c == '\U{A0}' || c == '\U{1680}'
    || ('\U{2000}' <= c <= '\U{200A}')
    || c == '\U{2028}' || c == '\U{2029}' || c == '\U{202F}' || c == '\U{205F}' || c == '\U{3000}'
  }

  /** The regular-expression class `\w`, restricted to ASCII letters, digits and `_`. */
  predicate IsWordChar(c: char) {
    IsDigit(c) || ('a' <= c <= 'z') || ('A' <= c <= 'Z') || c == '_'
  }

  predicate AllDigits(s: string) {
    forall i | 0 <= i < |s| :: IsDigit(s[i])
  }

  /** `.` in a regular expression matches every character except a newline. */
  predicate NoNewline(s: string) {
    forall i | 0 <= i < |s| :: s[i] != '\n'
  }

  predicate NoSpace(s: string) {
    forall i | 0 <= i < |s| :: !IsSpace(s[i])
  }

  lemma NoNewlineConcat(a: string, b: string)
    requires NoNewline(a) && NoNewline(b)
    ensures NoNewline(a + b)
  {
    forall i | 0 <= i < |a + b| ensures (a + b)[i] != '\n' {
      if i >= |a| {
        assert (a + b)[i] == b[i - |a|];
      }
    }
  }

  predicate StartsWith(s: string, prefix: string) {
    |prefix| <= |s| && s[..|prefix|] == prefix
  }

  function DigitValue(c: char): nat
    requires IsDigit(c)
  {
    c as int - '0' as int
  }

  function DigitChar(d: nat): (c: char)
    requires d < 10
    ensures IsDigit(c) && DigitValue(c) == d
  {
    ('0' as int + d) as char
  }

  /** The value of a non-empty run of decimal digits, as Python's `int` reads it. */
  function DigitsValue(s: string): nat
    requires AllDigits(s)
  {
    if s == [] then 0 else DigitsValue(s[..|s| - 1]) * 10 + DigitValue(s[|s| - 1])
  }

  /** Python's `str` of a non-negative integer. */
  function NatToString(n: nat): (s: string)
    ensures |s| > 0 && AllDigits(s)
  {
    if n < 10 then [DigitChar(n)] else NatToString(n / 10) + [DigitChar(n % 10)]
  }

  lemma {:induction false} NatToStringRoundTrip(n: nat)
    ensures DigitsValue(NatToString(n)) == n
  {
    if n >= 10 {
      var s := NatToString(n);
      assert s[..|s| - 1] == NatToString(n / 10);
      NatToStringRoundTrip(n / 10);
    }
  }

  /** Python's `str` of an integer: an optional minus sign, then the digits. */
  function IntToString(n: int): (s: string)
    ensures |s| > 0 && IsDigit(s[|s| - 1])
    ensures NoSpace(s) && NoNewline(s)
    ensures n >= 0 <==> AllDigits(s)
    ensures forall i | 0 <= i < |s| :: IsDigit(s[i]) || (i == 0 && s[i] == '-')
  {
    if n < 0 then
      var s := "-" + NatToString(-n);
      assert !IsDigit(s[0]);
      s
    else
      NatToString(n)
  }

  /** `\d+` followed by `int(...)`. */
  function ParseNat(s: string): Option<nat> {
    if |s| > 0 && AllDigits(s) then Some(DigitsValue(s)) else None
  }

  /** `-?\d+` followed by `int(...)`. */
  function ParseSignedInt(s: string): Option<int> {
    if |s| > 0 && s[0] == '-' then
      match ParseNat(s[1..])
      case Some(n) => Some(-(n as int))
      case None => None
    else
      match ParseNat(s)
      case Some(n) => Some(n)
      case None => None
  }

  /** What `-?\d+` accepts: digits, with at most a leading minus sign. */
  lemma ParseSignedIntShape(s: string)
    requires ParseSignedInt(s).Some?
    ensures |s| > 0 && forall i | 0 <= i < |s| :: IsDigit(s[i]) || (i == 0 && s[i] == '-')
  {
    if s[0] == '-' {
      assert forall i | 1 <= i < |s| :: s[i] == s[1..][i - 1];
    }
  }

  lemma IntToStringRoundTrip(n: int)
    ensures ParseSignedInt(IntToString(n)) == Some(n)
  {
    var s := IntToString(n);
    if n < 0 {
      assert s[1..] == NatToString(-n);
      NatToStringRoundTrip(-n);
    } else {
      NatToStringRoundTrip(n);
    }
  }

  function Pow10(k: nat): (p: nat)
    ensures p >= 1
  {
    if k == 0 then 1 else 10 * Pow10(k - 1)
  }

  /** The first index of `c` in `s`, or `|s|` when `c` does not occur. */
  function IndexOf(s: string, c: char): (k: nat)
    ensures k <= |s|
  {
    if s == [] then 0 else if s[0] == c then 0 else 1 + IndexOf(s[1..], c)
  }

  lemma {:induction false} IndexOfSpec(s: string, c: char)
    ensures forall i | 0 <= i < IndexOf(s, c) :: s[i] != c
    ensures IndexOf(s, c) < |s| ==> s[IndexOf(s, c)] == c
  {
    if s != [] && s[0] != c {
      IndexOfSpec(s[1..], c);
      assert forall i | 1 <= i < |s| :: s[i] == s[1..][i - 1];
    }
  }

  function Negate(negative: bool, x: real): real {
    if negative then -x else x
  }

  /** The exact value of an unsigned decimal with integer digits `ip` and fraction digits `fp`. */
  function DecimalValue(ip: string, fp: string): real
    requires AllDigits(ip) && AllDigits(fp)
  {
    DigitsValue(ip) as real + DigitsValue(fp) as real / Pow10(|fp|) as real
  }

  /** `\d+(\.\d+)?` followed by `float(...)`, idealised as the exact decimal it spells. */
  function ParseUnsignedDecimal(body: string): Option<real> {
    var dot := IndexOf(body, '.');
    var ip := body[..dot];
    if |ip| == 0 || !AllDigits(ip) then None
    else if dot == |body| then Some(DigitsValue(ip) as real)
    else
      var fp := body[dot + 1..];
      if |fp| == 0 || !AllDigits(fp) then None
      else Some(DecimalValue(ip, fp))
  }

  /** `-?\d+(\.\d+)?` followed by `float(...)`. */
  function ParseDecimal(s: string): Option<real> {
    if |s| > 0 && s[0] == '-' then
      match ParseUnsignedDecimal(s[1..])
      case Some(x) => Some(-x)
      case None => None
    else
      ParseUnsignedDecimal(s)
  }

  /**
   * Python's `str` of a float that is a whole number of tenths (`n / 10`),
   * such as the result of `round(x, 1)` in the volume range: the integer
   * part, a point and one fraction digit.
   */
  function TenthsToString(n: int): (s: string)
    ensures NoSpace(s) && NoNewline(s)
  {
    var a := if n < 0 then -n else n;
    (if n < 0 then "-" else "") + UnsignedTenths(a)
  }

  function UnsignedTenths(a: nat): (s: string)
    ensures |s| > 0 && IsDigit(s[0])
    ensures NoSpace(s) && NoNewline(s)
  {
    NatToString(a / 10) + "." + [DigitChar(a % 10)]
  }

  lemma UnsignedTenthsRoundTrip(a: nat)
    ensures ParseUnsignedDecimal(UnsignedTenths(a)) == Some(a as real / 10.0)
  {
    var ip := NatToString(a / 10);
    var d := DigitChar(a % 10);
    var tail := "." + [d];
    var body := UnsignedTenths(a);
    assert body == ip + tail;
    IndexOfPrefix(ip, tail, '.');
    assert body[..|ip|] == ip;
    assert body[|ip| + 1..] == [d];
    NatToStringRoundTrip(a / 10);
    assert DigitsValue([d]) == a % 10 by {
      assert [d][..0] == [];
    }
    assert DecimalValue(ip, [d]) == (a / 10) as real + (a % 10) as real / 10.0;
    assert a == 10 * (a / 10) + a % 10;
  }

  /** What `TenthsToString` writes, the decimal parser reads back exactly. */
  lemma TenthsRoundTrip(n: int)
    ensures ParseDecimal(TenthsToString(n)) == Some(n as real / 10.0)
  {
    var s := TenthsToString(n);
    if n < 0 {
      var u := UnsignedTenths(-n);
      assert s == "-" + u;
      assert s[1..] == u;
      UnsignedTenthsRoundTrip(-n);
      assert ParseUnsignedDecimal(s[1..]) == Some((-n) as real / 10.0);
      assert -((-n) as real / 10.0) == n as real / 10.0;
    } else {
      assert s == UnsignedTenths(n);
      UnsignedTenthsRoundTrip(n);
    }
  }

  lemma {:induction false} IndexOfPrefix(p: string, q: string, c: char)
    requires forall i | 0 <= i < |p| :: p[i] != c
    requires |q| > 0 && q[0] == c
    ensures IndexOf(p + q, c) == |p|
  {
    if p != [] {
      assert (p + q)[1..] == p[1..] + q;
      IndexOfPrefix(p[1..], q, c);
    }
  }

  /** ASCII case folding, as Python's `str.lower` does on ASCII letters. */
  function LowerChar(c: char): char {
    if 'A' <= c <= 'Z' then (c as int + 32) as char else c
  }

  function Lower(s: string): (r: string)
    ensures |r| == |s|
    ensures forall i | 0 <= i < |s| :: r[i] == LowerChar(s[i])
  {
    if s == [] then [] else [LowerChar(s[0])] + Lower(s[1..])
  }

  /** `str.strip()`: drop leading and trailing whitespace. */
  function StripLeft(s: string): (r: string)
    ensures |r| <= |s| && r == s[|s| - |r|..]
    ensures r == [] || !IsSpace(r[0])
  {
    if s != [] && IsSpace(s[0]) then StripLeft(s[1..]) else s
  }

  function StripRight(s: string): (r: string)
    ensures |r| <= |s| && r == s[..|r|]
    ensures r == [] || !IsSpace(r[|r| - 1])
  {
    if s != [] && IsSpace(s[|s| - 1]) then StripRight(s[..|s| - 1]) else s
  }

  function Strip(s: string): string {
    StripRight(StripLeft(s))
  }

  /**
   * Python's `int(text)` on ASCII input: surrounding whitespace, an optional
   * sign and at least one digit.  `None` stands for the `ValueError` it raises.
   */
  function PythonInt(text: string): Option<int> {
    var t := Strip(text);
    if |t| > 0 && (t[0] == '-' || t[0] == '+') then
      match ParseNat(t[1..])
      case Some(n) => Some(if t[0] == '-' then -(n as int) else n)
      case None => None
    else
      match ParseNat(t)
      case Some(n) => Some(n)
      case None => None
  }

  /**
   * Python's `float(text)` on plain decimals: surrounding whitespace, an
   * optional sign, and digits with an optional point (`5`, `5.`, `.5`, `5.25`).
   */
  function PythonFloat(text: string): Option<real> {
    var t := Strip(text);
    var negative := |t| > 0 && t[0] == '-';
    var body := if |t| > 0 && (t[0] == '-' || t[0] == '+') then t[1..] else t;
    var dot := IndexOf(body, '.');
    var ip := body[..dot];
    var fp := if dot < |body| then body[dot + 1..] else [];
    if !AllDigits(ip) || !AllDigits(fp) || |ip| + |fp| == 0 then None
    else Some(Negate(negative, DecimalValue(ip, fp)))
  }

  /** On a string without whitespace, `int` accepts what `-?\d+` accepts and reads the same value. */
  lemma PythonIntOfSigned(t: string)
    requires NoSpace(t) && ParseSignedInt(t).Some?
    ensures PythonInt(t) == ParseSignedInt(t)
  {
    NoSpaceStrip(t);
    if t[0] == '-' {
      assert PythonInt(t) == Some(-(ParseNat(t[1..]).value as int));
    } else {
      assert t[0] != '+' by {
        assert IsDigit(t[0]);
      }
      assert PythonInt(t) == Some(ParseNat(t).value as int);
    }
  }

  lemma PythonIntOfIntToString(n: int)
    ensures PythonInt(IntToString(n)) == Some(n)
  {
    IntToStringRoundTrip(n);
    PythonIntOfSigned(IntToString(n));
  }

  lemma NoSpaceStrip(s: string)
    requires NoSpace(s)
    ensures Strip(s) == s
  {
    assert StripLeft(s) == s;
    assert StripRight(s) == s;
  }

  /** `sep.join(parts)`. */
  function Join(parts: seq<string>, sep: string): string {
    if parts == [] then "" else if |parts| == 1 then parts[0] else parts[0] + sep + Join(parts[1..], sep)
  }
}
