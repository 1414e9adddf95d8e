/** `CrowdmarkProcessor.getCurrentDocumentNumber` (content-script.js:451-454):
    `parseInt` of the `num` query value, with a falsy result replaced by 1.
    The value arrives already decoded; an absent parameter is `None`. */
module DocumentNumber {
  import opened JsText

  datatype Option<T> = None | Some(value: T)

  /** A `parseInt` result: `NaN`, or an integer (`-0` is the integer 0). */
  datatype ParsedInt = NaN | Num(value: int)

  /** The value of a digit or letter as a digit of radix up to 36, or 36
      for any other character. */
  function DigitValue(c: char): (d: nat)
    ensures d <= 36
    ensures IsDigit(c) <==> d < 10
  {
    if '0' <= c <= '9' then c as int - '0' as int
    else if 'a' <= c <= 'z' then c as int - 'a' as int + 10
    else if 'A' <= c <= 'Z' then c as int - 'A' as int + 10
    else 36
  }

  /** The longest prefix of `s` made of digits of radix `radix`. */
  function LeadingDigits(s: string, radix: nat): (z: string)
    ensures z <= s
    ensures forall k :: 0 <= k < |z| ==> DigitValue(z[k]) < radix
    ensures |z| == |s| || DigitValue(s[|z|]) >= radix
  {
    if |s| > 0 && DigitValue(s[0]) < radix then [s[0]] + LeadingDigits(s[1..], radix) else []
  }

  /** The number the digits `z` denote in radix `radix`, most significant
      first. */
  function DigitsValue(z: string, radix: nat): nat
  {
    if z == [] then 0 else DigitsValue(z[..|z| - 1], radix) * radix + DigitValue(z[|z| - 1])
  }

  /** The unsigned part of `parseInt`: an optional `0x`/`0X` prefix for
      hexadecimal, then the longest run of digits; `None` when there is no
      digit. */
  function UnsignedValue(u: string): Option<nat>
  {
    var hex := |u| >= 2 && u[0] == '0' && (u[1] == 'x' || u[1] == 'X');
    var radix := if hex then 16 else 10;
    var z := LeadingDigits(if hex then u[2..] else u, radix);
    if z == [] then None else Some(DigitsValue(z, radix))
  }

  /** A sign applied to the unsigned part. */
  function Signed(negative: bool, v: Option<nat>): ParsedInt
  {
    match v
    case None => NaN
    case Some(n) => Num(if negative then -(n as int) else n)
  }

  /** `parseInt(s)` without a radix: leading whitespace skipped, one
      optional sign, then the unsigned part; `NaN` when it has no digit. */
  function ParseInt(s: string): ParsedInt
  {
    var t := TrimStart(s);
    if |t| > 0 && (t[0] == '+' || t[0] == '-') then Signed(t[0] == '-', UnsignedValue(t[1..]))
    else Signed(false, UnsignedValue(t))
  }

  /** `parseInt(urlParams.get('num')) || 1`: an absent value (`null`
      parses as `NaN`), `NaN` and 0 give 1. */
  function GetCurrentDocumentNumber(num: Option<string>): (r: int)
    ensures r != 0
    ensures num.None? ==> r == 1
    ensures num.Some? && ParseInt(num.value).Num? && ParseInt(num.value).value != 0 ==> r == ParseInt(num.value).value
    ensures num.Some? && ParseInt(num.value) in {NaN, Num(0)} ==> r == 1
  {
    if num.None? then 1
    else
      match ParseInt(num.value)
      case NaN => 1
      case Num(v) => if v == 0 then 1 else v
  }

  /** The decimal numeral of `n`, without leading zeros. */
  function Decimal(n: nat): (z: string)
    ensures |z| >= 1 && forall k :: 0 <= k < |z| ==> IsDigit(z[k])
    ensures n > 0 ==> z[0] != '0'
  {
    var d := ['0' + (n % 10) as char];
    if n < 10 then d else Decimal(n / 10) + d
  }

  lemma {:induction false} DecimalValue(n: nat)
    ensures DigitsValue(Decimal(n), 10) == n
  {
    var z := Decimal(n);
    if n >= 10 {
      DecimalValue(n / 10);
      assert z[..|z| - 1] == Decimal(n / 10);
    }
  }

  /** `LeadingDigits` takes a whole digit run and stops at the first other
      character. */
  lemma {:induction false} LeadingDigitsOfRun(z: string, t: string, radix: nat)
    requires forall k :: 0 <= k < |z| ==> DigitValue(z[k]) < radix
    requires t == [] || DigitValue(t[0]) >= radix
    ensures LeadingDigits(z + t, radix) == z
  {
    if z != [] {
      assert (z + t)[1..] == z[1..] + t;
      LeadingDigitsOfRun(z[1..], t, radix);
    } else {
      assert z + t == t;
    }
  }

  /** What may follow the numeral of `n` without changing its value: not
      a digit, and after a lone `0` not an `x` that would make it a
      hexadecimal prefix. */
  predicate EndsNumeral(n: nat, t: string) {
    t == [] || (!IsDigit(t[0]) && !(n == 0 && (t[0] == 'x' || t[0] == 'X')))
  }

  /** The unsigned part reads back a decimal numeral. */
  lemma {:induction false} UnsignedDecimal(n: nat, t: string)
    requires EndsNumeral(n, t)
    ensures UnsignedValue(Decimal(n) + t) == Some(n)
  {
    var z := Decimal(n);
    DecimalValue(n);
    assert t == [] || DigitValue(t[0]) >= 10;
    LeadingDigitsOfRun(z, t, 10);
    assert (z + t)[0] == z[0];
    assert |z + t| >= 2 ==> (z + t)[1] == (if |z| >= 2 then z[1] else t[0]);
  }

  lemma ConcatAssoc(a: string, b: string, c: string)
    ensures a + b + c == a + (b + c)
  {
  }

  /** `parseInt` of text that starts with a digit. */
  lemma ParseIntOfUnsigned(u: string, n: nat)
    requires |u| > 0 && IsDigit(u[0]) && UnsignedValue(u) == Some(n)
    ensures ParseInt(u) == Num(n)
  {
    TrimStartOfTrimmed(u);
    assert !(u[0] == '+' || u[0] == '-');
  }

  /** `parseInt` after leading whitespace, when a digit comes first. */
  lemma ParseIntOfDigits(w: string, u: string, n: nat)
    requires IsBlank(w) && |u| > 0 && IsDigit(u[0]) && UnsignedValue(u) == Some(n)
    ensures ParseInt(w + u) == Num(n)
  {
    TrimStartBlankPrefix(w, u);
    ParseIntOfUnsigned(u, n);
  }

  /** `parseInt` after leading whitespace, when a minus sign comes first. */
  lemma ParseIntOfMinus(w: string, m: string, n: nat)
    requires IsBlank(w) && |m| > 0 && m[0] == '-' && UnsignedValue(m[1..]) == Some(n)
    ensures ParseInt(w + m) == Num(-(n as int))
  {
    TrimStartAfterBlank(w, m);
    var t := TrimStart(w + m);
    assert t == m && |t| > 0 && t[0] == '-' && t[1..] == m[1..];
  }

  /** `parseInt` reads back the decimal numeral of any natural number,
      whatever whitespace precedes it and whatever follows it that ends
      the numeral. */
  lemma ParseIntDecimal(w: string, n: nat, t: string)
    requires IsBlank(w) && EndsNumeral(n, t)
    ensures ParseInt(w + Decimal(n) + t) == Num(n)
  {
    var u := Decimal(n) + t;
    UnsignedDecimal(n, t);
    assert u[0] == Decimal(n)[0];
    ParseIntOfDigits(w, u, n);
    ConcatAssoc(w, Decimal(n), t);
  }

  /** ... and, after a minus sign, its negation. */
  lemma ParseIntNegative(w: string, n: nat, t: string)
    requires IsBlank(w) && EndsNumeral(n, t)
    ensures ParseInt(w + "-" + Decimal(n) + t) == Num(-(n as int))
  {
    var u := Decimal(n) + t;
    var m := "-" + u;
    UnsignedDecimal(n, t);
    assert m[1..] == u;
    ParseIntOfMinus(w, m, n);
    ConcatAssoc(w, "-", Decimal(n));
    ConcatAssoc(w + "-", Decimal(n), t);
    ConcatAssoc(w, "-", u);
    ConcatAssoc("-", Decimal(n), t);
  }

  /** The document number of a decimal numeral is that number; digits
      followed by other text keep their value, as in `"12abc"`. */
  lemma DocumentNumberOfDecimal(n: nat, t: string)
    requires n > 0
    requires t == [] || !IsDigit(t[0])
    ensures GetCurrentDocumentNumber(Some(Decimal(n) + t)) == n
  {
    var u := Decimal(n) + t;
    UnsignedDecimal(n, t);
    assert u[0] == Decimal(n)[0];
    ParseIntOfUnsigned(u, n);
  }

  /** `?num=7` opens document 7. */
  lemma DocumentSeven()
    ensures GetCurrentDocumentNumber(Some("7")) == 7
  {
    assert Decimal(7) == "7";
    DocumentNumberOfDecimal(7, "");
    assert "7" + "" == "7";
  }

  /** `?num=12abc` opens document 12: parsing stops at the first
      non-digit. */
  lemma DocumentTwelve()
    ensures GetCurrentDocumentNumber(Some("12abc")) == 12
  {
    LeadingDigitsOfRun("12", "abc", 10);
    assert "12" + "abc" == "12abc";
    assert DigitsValue("12", 10) == 12;
    ParseIntOfUnsigned("12abc", 12);
  }

  /** A `0x` or `0X` prefix switches to hexadecimal, and hex digits are
      read in either letter case. */
  lemma ParseIntHex(x: char, a: char)
    requires (x == 'x' || x == 'X') && (a == 'A' || a == 'a')
    ensures ParseInt(['0', x, '1', a]) == Num(26)
  {
    var s := ['0', x, '1', a];
    TrimStartOfTrimmed(s);
    LeadingDigitsOfRun(['1', a], "", 16);
    assert s[2..] == ['1', a] + "";
    assert DigitValue(a) == 10 && ['1', a][..1] == ['1'] && ['1'][..0] == [];
    assert DigitsValue(['1', a], 16) == 26;
  }

  /** A plus sign is accepted and changes nothing. */
  lemma ParseIntPlus()
    ensures ParseInt("+7") == Num(7)
  {
    TrimStartOfTrimmed("+7");
    LeadingDigitsOfRun("7", "", 10);
    assert "+7"[1..] == "7" + "";
    assert DigitsValue("7", 10) == 7;
  }

  /** Text that starts with neither whitespace, a sign nor a digit parses
      as `NaN`. */
  lemma ParseIntNoDigit(s: string)
    requires |s| > 0 && !IsSpace(s[0]) && !IsDigit(s[0]) && s[0] != '+' && s[0] != '-'
    ensures ParseInt(s) == NaN
  {
    TrimStartOfTrimmed(s);
    assert DigitValue(s[0]) >= 10;
    assert LeadingDigits(s, 10) == [];
    assert UnsignedValue(s) == None;
    assert !(s[0] == '+' || s[0] == '-');
  }

  /** A `num` that does not start with whitespace, a sign or a digit
      opens document 1 (a missing one does too, by the contract of
      `GetCurrentDocumentNumber`). */
  lemma DocumentOneForText(s: string)
    requires |s| > 0 && !IsSpace(s[0]) && !IsDigit(s[0]) && s[0] != '+' && s[0] != '-'
    ensures GetCurrentDocumentNumber(Some(s)) == 1
  {
    ParseIntNoDigit(s);
  }

  /** `?num=0` opens document 1: 0 is falsy. */
  lemma DocumentOneForZero()
    ensures GetCurrentDocumentNumber(Some("0")) == 1
  {
    assert Decimal(0) == "0";
    ParseIntDecimal([], 0, []);
    assert [] + "0" + [] == "0";
  }
}
