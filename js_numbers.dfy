/** The JavaScript number operations the modelled code uses on integers: the global
    `parseInt` (ECMAScript section 19.2.5, radix argument omitted), the decimal text of an
    integer (`${n}`), and the `%` operator, which truncates toward zero. */
module JsNumbers {
  import opened Wrappers

  /** The code units ECMAScript's StrWhiteSpaceChar accepts: WhiteSpace (including every
      Unicode "Zs" space) and LineTerminator. */
  predicate IsStrWhiteSpace(c: char)
  {
    var u := c as int;
    (9 <= u <= 13) || u == 0x20 || u == 0xA0 || u == 0x1680 || (0x2000 <= u <= 0x200A)
    || u == 0x2028 || u == 0x2029 || u == 0x202F || u == 0x205F || u == 0x3000 || u == 0xFEFF
  }

  /** `s` with its leading white space removed. */
  function TrimStart(s: string): (r: string)
    ensures |r| <= |s| && r == s[|s| - |r|..]
    ensures r == [] || !IsStrWhiteSpace(r[0])
    ensures forall i :: 0 <= i < |s| - |r| ==> IsStrWhiteSpace(s[i])
  {
    if s == [] || !IsStrWhiteSpace(s[0]) then s else TrimStart(s[1..])
  }

  /** The value of `c` as a digit in base 36 (`0`-`9`, then `a`-`z` or `A`-`Z`), or 36 when
      `c` is no such digit. */
  function DigitValue(c: char): (d: nat)
    ensures d <= 36
  {
    if '0' <= c <= '9' then c as int - '0' as int
    else if 'a' <= c <= 'z' then c as int - 'a' as int + 10
    else if 'A' <= c <= 'Z' then c as int - 'A' as int + 10
    else 36
  }

  /** The longest prefix of `s` made of digits of `radix`. */
  function DigitRun(s: string, radix: nat): (r: string)
    ensures r <= s
    ensures forall i :: 0 <= i < |r| ==> DigitValue(r[i]) < radix
    ensures |r| < |s| ==> DigitValue(s[|r|]) >= radix
  {
    if s == [] || DigitValue(s[0]) >= radix then [] else [s[0]] + DigitRun(s[1..], radix)
  }

  /** The number that the digits `ds` denote in base `radix`, most significant first. */
  function DigitsValue(ds: string, radix: nat): nat
  {
    if ds == [] then 0
    else DigitsValue(ds[..|ds| - 1], radix) * radix + DigitValue(ds[|ds| - 1])
  }

  /** `parseInt(s)`: `None` is `NaN`. Leading white space is skipped, then an optional
      sign is read, then the digits (see ParseDigits). */
  function ParseInt(s: string): (r: Option<int>)
    ensures var t := TrimStart(s);
            var u := if |t| > 0 && (t[0] == '-' || t[0] == '+') then t[1..] else t;
            (r.Some? ==> u != [] && DigitValue(u[0]) < 10)
            && (r.Some? && r.value < 0 ==> t[0] == '-')
            && (r.Some? && |t| > 0 && t[0] == '-' ==> r.value <= 0)
  {
    var t := TrimStart(s);
    if |t| > 0 && t[0] == '-' then
      match ParseDigits(t[1..])
      case None => None
      case Some(v) => Some(-v)
    else if |t| > 0 && t[0] == '+' then ParseDigits(t[1..])
    else ParseDigits(t)
  }

  /** The unsigned part of `parseInt`: a `0x` or `0X` prefix selects base 16, otherwise
      base 10; the value is that of the longest run of digits that follows, and `NaN`
      when that run is empty. */
  function ParseDigits(u: string): (r: Option<int>)
    ensures r.Some? ==> r.value >= 0 && u != [] && DigitValue(u[0]) < 10
  {
    var hex := |u| >= 2 && u[0] == '0' && (u[1] == 'x' || u[1] == 'X');
    var radix := if hex then 16 else 10;
    var ds := DigitRun(if hex then u[2..] else u, radix);
    if ds == [] then None else Some(DigitsValue(ds, radix))
  }

  /** The decimal digit for `d`. */
  function DigitChar(d: nat): (c: char)
    requires d < 10
    ensures DigitValue(c) == d
  {
    ['0', '1', '2', '3', '4', '5', '6', '7', '8', '9'][d]
  }

  /** The decimal text of `n`, without leading zeros. */
  function Decimal(n: nat): (s: string)
    ensures |s| > 0
    ensures forall i :: 0 <= i < |s| ==> DigitValue(s[i]) < 10
    ensures s[0] == '0' ==> n == 0 && |s| == 1
  {
    if n < 10 then [DigitChar(n)] else Decimal(n / 10) + [DigitChar(n % 10)]
  }

  /** `${n}` for an integer `n` (below 10^21 in magnitude, where JavaScript switches
      to exponent notation). */
  function IntToString(n: int): (s: string)
    ensures |s| > (if n < 0 then 1 else 0)
    ensures s[0] == '-' <==> n < 0
    ensures forall i :: (if n < 0 then 1 else 0) <= i < |s| ==> DigitValue(s[i]) < 10
  {
    if n < 0 then "-" + Decimal(-n) else Decimal(n)
  }

  /** Reading back the decimal digits of `n` gives `n`. */
  lemma {:induction false} DecimalValue(n: nat)
    ensures DigitsValue(Decimal(n), 10) == n
  {
    if n >= 10 {
      var s := Decimal(n);
      assert s[..|s| - 1] == Decimal(n / 10);
      DecimalValue(n / 10);
    }
  }

  /** A string made only of digits of `radix` is its own longest digit run. */
  lemma {:induction false} DigitRunOfDigits(s: string, radix: nat)
    requires forall i :: 0 <= i < |s| ==> DigitValue(s[i]) < radix
    ensures DigitRun(s, radix) == s
  {
    if s != [] {
      DigitRunOfDigits(s[1..], radix);
      assert s == [s[0]] + s[1..];
    }
  }

  /** The digits of `m` parse back to `m`. */
  lemma ParseDigitsOfDecimal(m: nat)
    ensures ParseDigits(Decimal(m)) == Some(m)
  {
    var d := Decimal(m);
    DigitRunOfDigits(d, 10);
    DecimalValue(m);
    assert |d| >= 2 ==> DigitValue(d[1]) < 10;
  }

  /** `parseInt` reads back the text `${n}` of every integer `n`: an id rendered into a
      URL by the frontend selects that id in the backend. */
  lemma ParseIntRoundTrip(n: int)
    ensures ParseInt(IntToString(n)) == Some(n)
  {
    var m := if n < 0 then -n else n;
    var s := IntToString(n);
    ParseDigitsOfDecimal(m);
    assert !IsStrWhiteSpace(s[0]);
    assert TrimStart(s) == s;
    if n < 0 {
      assert s[0] == '-' && s[1..] == Decimal(m);
      assert ParseInt(s) == Some(-m);
    } else {
      assert DigitValue(s[0]) < 10;
      assert s[0] != '-' && s[0] != '+';
      assert ParseInt(s) == ParseDigits(s);
    }
  }

  /** Digits followed by a character that is no digit of the radix form the whole run. */
  lemma {:induction false} DigitRunStopsAt(ds: string, rest: string, radix: nat)
    requires forall i :: 0 <= i < |ds| ==> DigitValue(ds[i]) < radix
    requires rest == [] || DigitValue(rest[0]) >= radix
    ensures DigitRun(ds + rest, radix) == ds
  {
    if ds == [] {
      assert ds + rest == rest;
    } else {
      DigitRunStopsAt(ds[1..], rest, radix);
      assert (ds + rest)[1..] == ds[1..] + rest;
      assert ds == [ds[0]] + ds[1..];
    }
  }

  /** The digits of `m` followed by text that does not continue them parse to `m`. */
  lemma {:induction false} ParseDigitsReadsPrefix(m: nat, rest: string)
    requires rest == [] || DigitValue(rest[0]) >= 10
    requires m == 0 && rest != [] ==> rest[0] != 'x' && rest[0] != 'X'
    ensures ParseDigits(Decimal(m) + rest) == Some(m)
  {
    var d := Decimal(m);
    var u := d + rest;
    DigitRunStopsAt(d, rest, 10);
    DecimalValue(m);
    if |u| >= 2 && u[0] == '0' {
      assert m == 0 && |d| == 1;
      assert u[1] == rest[0];
    }
  }

  /** The unsigned case of ParseIntReadsPrefix. */
  lemma UnsignedReadsPrefix(m: nat, rest: string)
    requires rest == [] || DigitValue(rest[0]) >= 10
    requires m == 0 && rest != [] ==> rest[0] != 'x' && rest[0] != 'X'
    ensures ParseInt(Decimal(m) + rest) == Some(m)
  {
    var u := Decimal(m) + rest;
    var c := u[0];
    assert '0' <= c <= '9' by {
      assert c == Decimal(m)[0];
    }
    assert !IsStrWhiteSpace(c);
    assert TrimStart(u) == u;
    ParseDigitsReadsPrefix(m, rest);
  }

  /** The negative case of ParseIntReadsPrefix. */
  lemma NegativeReadsPrefix(n: int, rest: string)
    requires n < 0
    requires rest == [] || DigitValue(rest[0]) >= 10
    ensures ParseInt(IntToString(n) + rest) == Some(n)
  {
    var m: nat := -n;
    var u := Decimal(m) + rest;
    var s := IntToString(n) + rest;
    assert s == "-" + u by {
      assert IntToString(n) == "-" + Decimal(m);
    }
    assert TrimStart(s) == s by { assert s[0] == '-'; }
    assert s[1..] == u;
    ParseDigitsReadsPrefix(m, rest);
  }

  /** `parseInt` reads only the numeric prefix of its argument: the text `${n}` followed by
      anything that does not continue the number (no decimal digit, and no `x` or `X`
      after a lone `0`, which would select base 16) parses to `n`. So the path
      `/api/gallery/12abc` selects the record with id 12. */
  lemma ParseIntReadsPrefix(n: int, rest: string)
    requires rest == [] || DigitValue(rest[0]) >= 10
    requires n == 0 && rest != [] ==> rest[0] != 'x' && rest[0] != 'X'
    ensures ParseInt(IntToString(n) + rest) == Some(n)
  {
    if n < 0 {
      NegativeReadsPrefix(n, rest);
    } else {
      assert IntToString(n) == Decimal(n);
      UnsignedReadsPrefix(n, rest);
    }
  }

  /** Digits that do not start with a decimal digit denote `NaN`. */
  lemma DigitsWithoutLeadingDigit(u: string)
    requires u == [] || DigitValue(u[0]) >= 10
    ensures ParseDigits(u) == None
  {
    assert !(|u| >= 2 && u[0] == '0');
    assert DigitRun(u, 10) == [];
  }

  /** A path parameter with no digit where the number should start is `NaN`. */
  lemma NoLeadingDigitIsNaN(s: string)
    requires var t := TrimStart(s);
             var u := if |t| > 0 && (t[0] == '-' || t[0] == '+') then t[1..] else t;
             u == [] || DigitValue(u[0]) >= 10
    ensures ParseInt(s) == None
  {
    var t := TrimStart(s);
    if |t| > 0 && (t[0] == '-' || t[0] == '+') {
      DigitsWithoutLeadingDigit(t[1..]);
    } else {
      DigitsWithoutLeadingDigit(t);
    }
  }

  /** `a % b` in JavaScript: the remainder of division truncated toward zero, which takes
      the sign of `a`. */
  function JsRem(a: int, b: int): (r: int)
    requires b != 0
    ensures a >= 0 && b > 0 ==> r == a % b
    ensures a >= 0 ==> 0 <= r
    ensures a <= 0 ==> r <= 0
    ensures -b < r < b || b < r < -b
    ensures (a - r) % b == 0
  {
    var m := if b < 0 then -b else b;
    TruncatedRemDivides(a, b, m);
    if a >= 0 then a % m else -((-a) % m)
  }

  /** What the dividend loses to the truncated remainder is a multiple of the divisor. */
  lemma TruncatedRemDivides(a: int, b: int, m: int)
    requires b != 0 && m == (if b < 0 then -b else b)
    ensures (a - (if a >= 0 then a % m else -((-a) % m))) % b == 0
  {
    if a >= 0 {
      var q := a / m;
      assert a - a % m == m * q;
      assert m * q == b * (if b > 0 then q else -q);
      MultipleRem(b, if b > 0 then q else -q);
    } else {
      var q := (-a) / m;
      assert a + (-a) % m == -(m * q);
      assert -(m * q) == b * (if b > 0 then -q else q);
      MultipleRem(b, if b > 0 then -q else q);
    }
  }

  /** A multiple of `b` leaves no remainder. */
  lemma MultipleRem(b: int, k: int)
    requires b != 0
    ensures (b * k) % b == 0
  {
    var q, rr := (b * k) / b, (b * k) % b;
    assert b * k == b * q + rr;
    var t := k - q;
    assert b * t == rr;
    if t >= 1 {
      assert b * t == b + b * (t - 1);
      if b > 0 { MulSign(b, t - 1); } else { MulSign(-b, t); }
    } else if t <= -1 {
      assert b * t == -b + b * (t + 1);
      if b > 0 { MulSign(b, -t); assert b * (-t) == -(b * t); } else { MulSign(b, t + 1); }
    }
  }

  /** The sign of a product of two numbers of the same sign. */
  lemma MulSign(x: int, y: int)
    ensures x >= 0 && y >= 0 ==> x * y >= 0
    ensures x <= 0 && y <= 0 ==> x * y >= 0
  {
  }
}
