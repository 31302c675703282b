/** The integer side of JavaScript numbers that the profile validator relies
    on: `parseInt(string)` without a radix, and `toString()` of its result.
    A number is either NaN or an integer; `-0` is identified with `0`, which
    is harmless here because `(-0).toString()` is `"0"` as well. */
module JsNumber {

  datatype IntOrNaN = NaN | Int(value: int)

  /** The characters `parseInt` skips at the start of its argument
      (ECMAScript's WhiteSpace and LineTerminator productions). */
  predicate IsStrWhiteSpace(c: char) {
    c == '\t' || c == '\n' || c == '\U{000B}' || c == '\U{000C}' || c == '\r' || c == ' '
    || c == '\U{00A0}' || c == '\U{1680}' || ('\U{2000}' <= c <= '\U{200A}')
    || c == '\U{2028}' || c == '\U{2029}' || c == '\U{202F}' || c == '\U{205F}'
    || c == '\U{3000}' || c == '\U{FEFF}'
  }

  /** `s` without its leading white space. */
  function TrimStart(s: string): string {
    if s != [] && IsStrWhiteSpace(s[0]) then TrimStart(s[1..]) else s
  }

  /** The value of `c` as a digit in any radix up to 36; 36 for a character
      that is a digit in no radix. */
  function DigitValue(c: char): nat {
    if '0' <= c <= '9' then c as nat - '0' as nat
    else if 'a' <= c <= 'z' then c as nat - 'a' as nat + 10
    else if 'A' <= c <= 'Z' then c as nat - 'A' as nat + 10
    else 36
  }

  /** The longest prefix of `s` made of digits of the given radix. */
  function DigitPrefix(s: string, radix: nat): string {
    if s != [] && DigitValue(s[0]) < radix then [s[0]] + DigitPrefix(s[1..], radix) else []
  }

  /** The value of a string of digits, most significant first. */
  function DigitsValue(z: string, radix: nat): nat {
    if z == [] then 0 else DigitsValue(z[..|z| - 1], radix) * radix + DigitValue(z[|z| - 1])
  }

  /** `parseInt(s)`: skip white space, take an optional sign, a `0x`/`0X`
      prefix selects radix 16, then read the longest run of digits; NaN when
      there is none. */
  function ParseInt(s: string): (r: IntOrNaN)
    ensures TrimStart(s) == [] ==> r.NaN?
    ensures s != [] && '1' <= s[0] <= '9' ==> r.Int? && r.value >= 0
    ensures s != [] && !IsStrWhiteSpace(s[0]) && s[0] != '-' && s[0] != '+' && DigitValue(s[0]) >= 10 ==> r.NaN?
  {
    var t := TrimStart(s);
    var sign := if t != [] && t[0] == '-' then -1 else 1;
    var u := if t != [] && (t[0] == '-' || t[0] == '+') then t[1..] else t;
    var hex := |u| >= 2 && u[0] == '0' && (u[1] == 'x' || u[1] == 'X');
    var radix := if hex then 16 else 10;
    var z := DigitPrefix(if hex then u[2..] else u, radix);
    if z == [] then NaN else Int(sign * DigitsValue(z, radix))
  }

  /** The decimal digits of `n`, without leading zeros. */
  function Decimal(n: nat): (d: string)
    ensures |d| >= 1
  {
    if n < 10 then [('0' as int + n) as char]
    else Decimal(n / 10) + [('0' as int + n % 10) as char]
  }

  /** `Number.prototype.toString()` for the values `parseInt` produces. */
  function NumberToString(x: IntOrNaN): (t: string)
    ensures t != []
    ensures t == "NaN" <==> x.NaN?
    ensures x.Int? ==> (t[0] == '-' <==> x.value < 0)
  {
    match x
    case NaN => "NaN"
    case Int(n) =>
      var m := if n < 0 then -n else n;
      DecimalDigits(m);
      var t := if n < 0 then "-" + Decimal(m) else Decimal(m);
      assert t[0] != "NaN"[0];
      t
  }

  /** Every character of `Decimal(n)` is a decimal digit, and the first is
      not `0` unless `n` is zero. */
  lemma {:induction false} DecimalDigits(n: nat)
    ensures forall i :: 0 <= i < |Decimal(n)| ==> '0' <= Decimal(n)[i] <= '9'
    ensures n > 0 ==> Decimal(n)[0] != '0'
    decreases n
  {
    if n >= 10 {
      DecimalDigits(n / 10);
      assert Decimal(n)[0] == Decimal(n / 10)[0];
    }
  }

  /** Reading the decimal digits of `n` back gives `n`. */
  lemma {:induction false} DecimalValue(n: nat)
    ensures DigitsValue(Decimal(n), 10) == n
    decreases n
  {
    if n >= 10 {
      DecimalValue(n / 10);
      var d := Decimal(n);
      assert d[..|d| - 1] == Decimal(n / 10);
    }
  }

  /** A string made only of digits of the radix is its own digit prefix. */
  lemma {:induction false} DigitPrefixOfDigits(s: string, radix: nat)
    requires forall i :: 0 <= i < |s| ==> DigitValue(s[i]) < radix
    ensures DigitPrefix(s, radix) == s
    decreases |s|
  {
    if s != [] {
      DigitPrefixOfDigits(s[1..], radix);
      assert s == [s[0]] + s[1..];
    }
  }

  /** A run of decimal digits that `parseInt` reads without skipping
      anything: no white space, no sign, no `0x` prefix. */
  predicate IsPlainDecimal(u: string) {
    u != [] && (|u| == 1 || u[0] != '0') && forall i :: 0 <= i < |u| ==> '0' <= u[i] <= '9'
  }

  /** `parseInt` of a plain run of decimal digits is its value. */
  lemma ParseDigits(u: string)
    requires IsPlainDecimal(u)
    ensures ParseInt(u) == Int(DigitsValue(u, 10))
  {
    assert !IsStrWhiteSpace(u[0]);
    assert TrimStart(u) == u;
    assert u[0] != '-' && u[0] != '+';
    assert !(|u| >= 2 && u[0] == '0');
    DigitPrefixOfDigits(u, 10);
  }

  /** `parseInt` of a minus sign and a plain run of decimal digits is the
      negated value. */
  lemma ParseNegatedDigits(u: string)
    requires IsPlainDecimal(u)
    ensures ParseInt("-" + u) == Int(-(DigitsValue(u, 10) as int))
  {
    var v := "-" + u;
    assert !IsStrWhiteSpace(v[0]);
    assert TrimStart(v) == v;
    assert v[1..] == u;
    assert !(|u| >= 2 && u[0] == '0');
    DigitPrefixOfDigits(u, 10);
  }

  /** `toString` of a natural number writes a plain run of decimal digits
      worth that number. */
  lemma DecimalIsPlain(m: nat)
    ensures IsPlainDecimal(Decimal(m)) && DigitsValue(Decimal(m), 10) == m
  {
    DecimalDigits(m);
    DecimalValue(m);
    assert m == 0 ==> Decimal(m) == "0";
  }

  /** `parseInt` reads back `toString` of a natural number. */
  lemma ParseNatToString(m: nat)
    ensures ParseInt(Decimal(m)) == Int(m)
  {
    DecimalIsPlain(m);
    ParseDigits(Decimal(m));
  }

  /** `parseInt` reads back `toString` of a negative number. */
  lemma ParseNegToString(m: nat)
    ensures ParseInt("-" + Decimal(m)) == Int(-(m as int))
  {
    DecimalIsPlain(m);
    ParseNegatedDigits(Decimal(m));
  }

  /** `parseInt` reads back every integer that `toString` writes. */
  lemma ParseIntToString(n: int)
    ensures ParseInt(NumberToString(Int(n))) == Int(n)
  {
    if n < 0 {
      ParseNegToString(-n);
    } else {
      ParseNatToString(n);
    }
  }
}
