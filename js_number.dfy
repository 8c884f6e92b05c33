/** The recency test of both scripts, `game.release.slice(-5) > year`
    (index.js:55, tiedye.js:46). Comparing a string with a number makes
    JavaScript convert the string to a number (the StringToNumber operation
    of section 7.1.4.1.1 of ECMA-262): white space at both ends is trimmed,
    an empty string reads as 0, `0x`/`0o`/`0b` prefixes select base 16, 8 or
    2, and otherwise an optionally signed decimal literal with an optional
    fraction and exponent is read; anything else is `NaN`, which makes every
    comparison false. `NaN` is `None` here. */
module JsNumber {
  import opened Wrappers

  /** White space and line terminators that StringToNumber trims. */
  predicate IsJsSpace(c: char) {
    c == '\t' || c == '\U{000B}' || c == '\U{000C}' || c == ' ' || c == '\U{00A0}'
    || c == '\U{FEFF}' || c == '\n' || c == '\r' || c == '\U{2028}' || c == '\U{2029}'
    || c == '\U{1680}' || ('\U{2000}' <= c <= '\U{200A}') || c == '\U{202F}'
    || c == '\U{205F}' || c == '\U{3000}'
  }

  predicate AllSpaces(s: string) {
    forall i | 0 <= i < |s| :: IsJsSpace(s[i])
  }

  /** Neither end of `s` is white space. */
  predicate Unspaced(s: string) {
    s == [] || (!IsJsSpace(s[0]) && !IsJsSpace(s[|s| - 1]))
  }

  function TrimStart(s: string): (r: string)
    ensures |r| <= |s| && r == s[|s| - |r|..]
    ensures AllSpaces(s[..|s| - |r|])
    ensures r == [] || !IsJsSpace(r[0])
  {
    if s != [] && IsJsSpace(s[0]) then TrimStart(s[1..]) else s
  }

  function TrimEnd(s: string): (r: string)
    ensures |r| <= |s| && r == s[..|r|]
    ensures AllSpaces(s[|r|..])
    ensures r == [] || !IsJsSpace(r[|r| - 1])
  {
    if s != [] && IsJsSpace(s[|s| - 1]) then TrimEnd(s[..|s| - 1]) else s
  }

  /** `String.prototype.trim`: drops the white space at both ends. */
  function Trim(s: string): (r: string)
    ensures |r| <= |s| && Unspaced(r)
  {
    TrimEnd(TrimStart(s))
  }

  lemma {:induction false} TrimStartOver(a: string, u: string)
    requires AllSpaces(a) && (u == [] || !IsJsSpace(u[0]))
    ensures TrimStart(a + u) == u
  {
    if a == [] {
      assert a + u == u;
    } else {
      assert (a + u)[1..] == a[1..] + u;
      TrimStartOver(a[1..], u);
    }
  }

  lemma {:induction false} TrimEndOver(u: string, b: string)
    requires AllSpaces(b) && (u == [] || !IsJsSpace(u[|u| - 1]))
    ensures TrimEnd(u + b) == u
  {
    if b == [] {
      assert u + b == u;
    } else {
      assert (u + b)[..|u + b| - 1] == u + b[..|b| - 1];
      TrimEndOver(u, b[..|b| - 1]);
    }
  }

  /** Trimming removes exactly the surrounding white space: together with
      `Unspaced(Trim(s))` this determines `Trim` completely. */
  lemma TrimFrame(a: string, t: string, b: string)
    requires AllSpaces(a) && Unspaced(t) && AllSpaces(b)
    ensures Trim(a + t + b) == t
  {
    if t == [] {
      assert AllSpaces(a + t + b);
    } else {
      assert a + t + b == a + (t + b);
      TrimStartOver(a, t + b);
      TrimEndOver(t, b);
    }
  }

  /** Value of a digit in base 36 notation ('0'-'9', 'a'-'z', 'A'-'Z'). */
  function DigitValue(c: char): Option<nat> {
    if '0' <= c <= '9' then Some(c as int - '0' as int)
    else if 'a' <= c <= 'z' then Some(c as int - 'a' as int + 10)
    else if 'A' <= c <= 'Z' then Some(c as int - 'A' as int + 10)
    else None
  }

  predicate IsDigitIn(c: char, radix: nat) {
    DigitValue(c).Some? && DigitValue(c).value < radix
  }

  predicate AllDigitsIn(s: string, radix: nat) {
    forall i | 0 <= i < |s| :: IsDigitIn(s[i], radix)
  }

  /** The number that the digit string `s` denotes in base `radix`. */
  function ValueIn(s: string, radix: nat): nat
    requires AllDigitsIn(s, radix)
  {
    if s == [] then 0 else ValueIn(s[..|s| - 1], radix) * radix + DigitValue(s[|s| - 1]).value
  }

  function Pow10(n: nat): (p: nat)
    ensures p >= 1
  {
    if n == 0 then 1 else 10 * Pow10(n - 1)
  }

  /** `x` times ten to the power `e`. */
  function Scale(x: real, e: int): real {
    if e >= 0 then x * Pow10(e) as real else x / Pow10(-e) as real
  }

  /** Position of the first character of `s` in `cs`, or `|s|` if none is. */
  function FirstIndexOf(s: string, cs: set<char>): (k: nat)
    ensures k <= |s|
    ensures forall i | 0 <= i < k :: s[i] !in cs
    ensures k < |s| ==> s[k] in cs
  {
    if s == [] || s[0] in cs then 0 else 1 + FirstIndexOf(s[1..], cs)
  }

  /** Digits with at most one decimal point and at least one digit. */
  function Mantissa(m: string): Option<real> {
    var dot := FirstIndexOf(m, {'.'});
    var whole := m[..dot];
    var fraction := if dot < |m| then m[dot + 1..] else [];
    if |whole| + |fraction| > 0 && AllDigitsIn(whole, 10) && AllDigitsIn(fraction, 10)
    then Some(ValueIn(whole, 10) as real + ValueIn(fraction, 10) as real / Pow10(|fraction|) as real)
    else None
  }

  /** The exponent after `e` or `E`: decimal digits with an optional sign. */
  function SignedInteger(s: string): Option<int> {
    if s != [] && (s[0] == '+' || s[0] == '-') then
      var ds := s[1..];
      if ds != [] && AllDigitsIn(ds, 10) then
        var v: int := ValueIn(ds, 10);
        Some(if s[0] == '-' then -v else v)
      else None
    else if s != [] && AllDigitsIn(s, 10) then Some(ValueIn(s, 10))
    else None
  }

  /** A decimal literal without sign: mantissa, then optionally an exponent. */
  function UnsignedDecimal(t: string): Option<real> {
    var k := FirstIndexOf(t, {'e', 'E'});
    match Mantissa(t[..k])
    case None => None
    case Some(m) =>
      if k == |t| then Some(m)
      else
        match SignedInteger(t[k + 1..])
        case None => None
        case Some(e) => Some(Scale(m, e))
  }

  /** Digits after a `0x`, `0o` or `0b` prefix; no sign is allowed there. */
  function NonDecimal(ds: string, radix: nat): Option<real> {
    if ds != [] && AllDigitsIn(ds, radix) then Some(ValueIn(ds, radix) as real) else None
  }

  function Radix(c: char): nat {
    if c == 'x' || c == 'X' then 16 else if c == 'o' || c == 'O' then 8 else 2
  }

  function Negate(r: Option<real>): Option<real> {
    match r
    case None => None
    case Some(v) => Some(-v)
  }

  /** A trimmed string read as a number: empty reads as 0, then a base
      prefix, then a signed decimal literal. */
  function Literal(t: string): Option<real> {
    if t == [] then Some(0.0)
    else if |t| >= 2 && t[0] == '0' && t[1] in "xXoObB" then NonDecimal(t[2..], Radix(t[1]))
    else if t[0] == '+' then UnsignedDecimal(t[1..])
    else if t[0] == '-' then Negate(UnsignedDecimal(t[1..]))
    else UnsignedDecimal(t)
  }

  /** StringToNumber for strings of at most five characters, the only ones
      the scripts convert. The literal `Infinity` needs eight characters, so
      it cannot occur; reals stand for doubles, which at this length decides
      every comparison with a whole year the same way. */
  function ToNumber(s: string): (r: Option<real>)
    requires |s| <= 5
    ensures Trim(s) == [] ==> r == Some(0.0)
  {
    Literal(Trim(s))
  }

  /** `s.slice(-5)`: the last five characters, or all of a shorter string. */
  function Tail(s: string): (r: string)
    ensures |r| == if |s| < 5 then |s| else 5
    ensures s == s[..|s| - |r|] + r
  {
    if |s| < 5 then s else s[|s| - 5..]
  }

  /** The number that `release.slice(-5)` converts to, or `None` for NaN. */
  function TailNumber(release: string): Option<real> {
    ToNumber(Tail(release))
  }

  /** `release.slice(-5) > year`; NaN compares false. */
  predicate TailAfter(release: string, year: int)
    ensures TailNumber(release).None? ==> !TailAfter(release, year)
  {
    match TailNumber(release)
    case Some(v) => v > year as real
    case None => false
  }

  lemma DecimalDigit(c: char)
    ensures IsDigitIn(c, 10) <==> '0' <= c <= '9'
  {
  }

  /** A string that starts with a decimal digit, and does not continue with
      a base prefix letter, is read as an unsigned decimal literal. */
  lemma {:induction false} StartsDecimal(t: string)
    requires t != [] && IsDigitIn(t[0], 10)
    requires |t| >= 2 ==> IsDigitIn(t[1], 10)
    ensures Literal(t) == UnsignedDecimal(t)
  {
    DecimalDigit(t[0]);
    assert t[0] != '+' && t[0] != '-';
    if |t| >= 2 {
      DecimalDigit(t[1]);
      assert t[1] !in "xXoObB";
    }
  }

  /** Without a decimal point or an exponent, a decimal literal must be all
      digits, and then it denotes its value. */
  lemma {:induction false} PlainDigits(t: string)
    requires forall i | 0 <= i < |t| :: t[i] != 'e' && t[i] != 'E' && t[i] != '.'
    ensures UnsignedDecimal(t) == if t != [] && AllDigitsIn(t, 10) then Some(ValueIn(t, 10) as real) else None
  {
    assert FirstIndexOf(t, {'e', 'E'}) == |t|;
    assert t[..|t|] == t;
    assert FirstIndexOf(t, {'.'}) == |t|;
  }

  /** A string that is empty or all white space converts to 0. */
  lemma BlankIsZero(s: string)
    requires |s| <= 5 && AllSpaces(s)
    ensures ToNumber(s) == Some(0.0)
  {
    TrimFrame(s, [], []);
    assert s + [] + [] == s;
  }

  /** A run of decimal digits after white space reads as its decimal value. */
  lemma {:induction false} DigitsToNumber(sp: string, ds: string)
    requires AllSpaces(sp) && ds != [] && AllDigitsIn(ds, 10) && |sp| + |ds| <= 5
    ensures ToNumber(sp + ds) == Some(ValueIn(ds, 10) as real)
  {
    TrimFrame(sp, ds, []);
    assert sp + ds + [] == sp + ds;
    DecimalDigit('e');
    DecimalDigit('E');
    DecimalDigit('.');
    if |ds| >= 2 {
      assert IsDigitIn(ds[1], 10);
    }
    StartsDecimal(ds);
    PlainDigits(ds);
  }

  /** A release date written as "Oct 26, 2018" ends in a space and a
      four-digit year, and its tail reads as that year. */
  lemma YearTail(release: string)
    requires |release| >= 5 && IsJsSpace(release[|release| - 5])
    requires AllDigitsIn(release[|release| - 4..], 10)
    ensures TailNumber(release) == Some(ValueIn(release[|release| - 4..], 10) as real)
  {
    var year := release[|release| - 4..];
    assert Tail(release) == [release[|release| - 5]] + year;
    DigitsToNumber([release[|release| - 5]], year);
  }

  /** The shape of a "MM-DD" tail: two digits, a dash, two digits. */
  predicate MonthDayShape(t: string) {
    |t| == 5 && t[2] == '-'
    && '0' <= t[0] <= '9' && '0' <= t[1] <= '9' && '0' <= t[3] <= '9' && '0' <= t[4] <= '9'
  }

  lemma MonthDayTrimmed(t: string)
    requires MonthDayShape(t)
    ensures Trim(t) == t
  {
    TrimFrame([], t, []);
    assert [] + t + [] == t;
  }

  lemma MonthDayNotDecimal(t: string)
    requires MonthDayShape(t)
    ensures UnsignedDecimal(t) == None
  {
    PlainDigits(t);
    assert !IsDigitIn(t[2], 10);
  }

  lemma MonthDayLiteral(t: string)
    requires MonthDayShape(t)
    ensures Literal(t) == UnsignedDecimal(t)
  {
    DecimalDigit(t[0]);
    DecimalDigit(t[1]);
    StartsDecimal(t);
  }

  /** "MM-DD" is not a number. */
  lemma MonthDayIsNaN(t: string)
    requires MonthDayShape(t)
    ensures ToNumber(t) == None
  {
    MonthDayTrimmed(t);
    MonthDayLiteral(t);
    MonthDayNotDecimal(t);
  }

  /** A release date written as "2018-05-01" ends in "05-01", which is not
      a number: such a game fails every recency test. */
  lemma IsoDateTailIsNaN(year: string, month: string, day: string)
    requires |month| == 2 && AllDigitsIn(month, 10)
    requires |day| == 2 && AllDigitsIn(day, 10)
    ensures TailNumber(year + "-" + month + "-" + day) == None
    ensures forall cutoff :: !TailAfter(year + "-" + month + "-" + day, cutoff)
  {
    var t := month + "-" + day;
    assert Tail(year + "-" + t) == t;
    assert year + "-" + month + "-" + day == year + "-" + t;
    assert t[0] == month[0] && t[1] == month[1] && t[2] == '-' && t[3] == day[0] && t[4] == day[1];
    DecimalDigit(month[0]);
    DecimalDigit(month[1]);
    DecimalDigit(day[0]);
    DecimalDigit(day[1]);
    MonthDayIsNaN(t);
  }

  /** A sign followed by one to four decimal digits. */
  predicate SignedShape(t: string) {
    2 <= |t| <= 5 && (t[0] == '+' || t[0] == '-') && AllDigitsIn(t[1..], 10)
  }

  lemma SignedTrimmed(t: string)
    requires SignedShape(t)
    ensures Trim(t) == t
  {
    assert t[1..][|t| - 2] == t[|t| - 1];
    assert IsDigitIn(t[|t| - 1], 10);
    assert Unspaced(t);
    TrimFrame([], t, []);
    assert [] + t + [] == t;
  }

  lemma SignedLiteral(t: string)
    requires SignedShape(t)
    ensures Literal(t) == if t[0] == '-' then Negate(UnsignedDecimal(t[1..])) else UnsignedDecimal(t[1..])
  {
  }

  lemma DigitsDecimal(ds: string)
    requires ds != [] && AllDigitsIn(ds, 10)
    ensures UnsignedDecimal(ds) == Some(ValueIn(ds, 10) as real)
  {
    DecimalDigit('e');
    DecimalDigit('E');
    DecimalDigit('.');
    PlainDigits(ds);
  }

  /** A sign followed by decimal digits converts to the digits' value,
      negated after a minus sign. */
  lemma SignedDigits(t: string)
    requires SignedShape(t)
    ensures ToNumber(t) == Some(if t[0] == '-' then -(ValueIn(t[1..], 10) as real) else ValueIn(t[1..], 10) as real)
  {
    SignedTrimmed(t);
    SignedLiteral(t);
    DigitsDecimal(t[1..]);
  }

  /** The characters a string may hold and still read as a number: digits in
      any base up to 16, signs, the decimal point and the base prefixes. */
  predicate InLiteralAlphabet(c: char) {
    '0' <= c <= '9' || 'a' <= c <= 'f' || 'A' <= c <= 'F' || c in "+-.xXoObB"
  }

  lemma ForeignNotAllDigits(s: string, j: nat, radix: nat)
    requires j < |s| && !InLiteralAlphabet(s[j]) && radix <= 16
    ensures !AllDigitsIn(s, radix)
  {
    assert !IsDigitIn(s[j], radix);
  }

  lemma ForeignMantissa(m: string, j: nat)
    requires j < |m| && !InLiteralAlphabet(m[j])
    ensures Mantissa(m) == None
  {
    var dot := FirstIndexOf(m, {'.'});
    if j < dot {
      assert m[..dot][j] == m[j];
      ForeignNotAllDigits(m[..dot], j, 10);
    } else {
      assert j != dot;
      assert m[dot + 1..][j - dot - 1] == m[j];
      ForeignNotAllDigits(m[dot + 1..], j - dot - 1, 10);
    }
  }

  lemma ForeignSignedInteger(s: string, j: nat)
    requires j < |s| && !InLiteralAlphabet(s[j])
    ensures SignedInteger(s) == None
  {
    if s[0] == '+' || s[0] == '-' {
      assert s[1..][j - 1] == s[j];
      ForeignNotAllDigits(s[1..], j - 1, 10);
    } else {
      ForeignNotAllDigits(s, j, 10);
    }
  }

  lemma ForeignUnsignedDecimal(t: string, j: nat)
    requires j < |t| && !InLiteralAlphabet(t[j])
    ensures UnsignedDecimal(t) == None
  {
    var k := FirstIndexOf(t, {'e', 'E'});
    if j < k {
      assert t[..k][j] == t[j];
      ForeignMantissa(t[..k], j);
    } else {
      assert j != k;
      assert t[k + 1..][j - k - 1] == t[j];
      ForeignSignedInteger(t[k + 1..], j - k - 1);
    }
  }

  lemma ForeignLiteral(t: string, j: nat)
    requires j < |t| && !InLiteralAlphabet(t[j])
    ensures Literal(t) == None
  {
    if |t| >= 2 && t[0] == '0' && t[1] in "xXoObB" {
      assert t[2..][j - 2] == t[j];
      ForeignNotAllDigits(t[2..], j - 2, Radix(t[1]));
    } else if t[0] == '+' || t[0] == '-' {
      assert t[1..][j - 1] == t[j];
      ForeignUnsignedDecimal(t[1..], j - 1);
    } else {
      ForeignUnsignedDecimal(t, j);
    }
  }

  /** A string that, once trimmed, holds a character that no numeric literal
      uses ("TBA", "N/A", a month name) converts to NaN. */
  lemma ForeignCharIsNaN(s: string, j: nat)
    requires |s| <= 5 && j < |Trim(s)| && !InLiteralAlphabet(Trim(s)[j])
    ensures ToNumber(s) == None
  {
    ForeignLiteral(Trim(s), j);
  }

  /** A release date whose tail holds such a character fails the recency
      test for every cutoff. */
  lemma ForeignTailFails(release: string, j: nat)
    requires j < |Trim(Tail(release))| && !InLiteralAlphabet(Trim(Tail(release))[j])
    ensures TailNumber(release) == None
    ensures forall cutoff :: !TailAfter(release, cutoff)
  {
    ForeignCharIsNaN(Tail(release), j);
  }

  lemma PrefixedTrimmed(p: char, ds: string)
    requires p in "xXoObB" && 1 <= |ds| <= 3 && AllDigitsIn(ds, Radix(p))
    ensures Trim("0" + [p] + ds) == "0" + [p] + ds
  {
    var t := "0" + [p] + ds;
    assert t[0] == '0' && t[|t| - 1] == ds[|ds| - 1];
    assert IsDigitIn(ds[|ds| - 1], Radix(p));
    assert Unspaced(t);
    TrimFrame([], t, []);
    assert [] + t + [] == t;
  }

  lemma PrefixedLiteral(p: char, ds: string)
    requires p in "xXoObB" && 1 <= |ds| <= 3
    ensures Literal("0" + [p] + ds) == NonDecimal(ds, Radix(p))
  {
    var t := "0" + [p] + ds;
    assert t[0] == '0' && t[1] == p;
    assert t[2..] == ds;
  }

  /** `0x`, `0o` or `0b` (either case) followed by one to three digits of
      that base, the most that fit in a five-character tail, converts to
      their value in base 16, 8 or 2. */
  lemma PrefixedToNumber(p: char, ds: string)
    requires p in "xXoObB" && 1 <= |ds| <= 3 && AllDigitsIn(ds, Radix(p))
    ensures ToNumber("0" + [p] + ds) == Some(ValueIn(ds, Radix(p)) as real)
  {
    PrefixedTrimmed(p, ds);
    PrefixedLiteral(p, ds);
  }

  /** A release date ending in "0x" and three hexadecimal digits reads as
      their value. */
  lemma HexTail(prefix: string, ds: string)
    requires |ds| == 3 && AllDigitsIn(ds, 16)
    ensures TailNumber(prefix + "0x" + ds) == Some(ValueIn(ds, 16) as real)
  {
    var release := prefix + "0x" + ds;
    assert release[|release| - 5..] == "0" + ['x'] + ds;
    assert Tail(release) == "0" + ['x'] + ds;
    PrefixedToNumber('x', ds);
  }

  lemma HexDigits()
    ensures AllDigitsIn("7E2", 16) && ValueIn("7E2", 16) == 2018
  {
    assert AllDigitsIn("7E2", 16);
    assert "7E2"[..2] == "7E" && "7E"[..1] == "7" && "7"[..0] == [];
    assert ValueIn("7E", 16) == 126;
  }

  /** For instance, a release date ending in "0x7E2" counts as 2018. */
  lemma HexYearTail(prefix: string)
    ensures TailNumber(prefix + "0x7E2") == Some(2018.0)
  {
    assert prefix + "0x7E2" == prefix + "0x" + "7E2";
    HexDigits();
    HexTail(prefix, "7E2");
  }
}
