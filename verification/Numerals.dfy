/**
  Numerals as JavaScript reads them, over exact numbers: `Number` with its decimal, exponent and
  prefixed spellings, and `parseInt`. `Number` also understands the word `Infinity`; none of its
  readers here tells that from not-a-number, and both are None.
 */
module Numerals {
  import opened Options
  import opened Text

  predicate IsDigit(c: char) {
    '0' <= c <= '9'
  }

  predicate AllDigits(s: string) {
    forall i :: 0 <= i < |s| ==> IsDigit(s[i])
  }

  /** The language of `/^\d+$/`. */
  predicate DecimalInteger(s: string) {
    s != "" && AllDigits(s)
  }

  function DigitValue(c: char): nat
    requires IsDigit(c)
  {
    c as int - '0' as int
  }

  function DigitsValue(s: string): nat
    requires AllDigits(s)
  {
    if s == "" then 0 else DigitsValue(s[..|s| - 1]) * 10 + DigitValue(s[|s| - 1])
  }

  function Pow10(k: nat): (p: nat)
    ensures p > 0
  {
    if k == 0 then 1 else 10 * Pow10(k - 1)
  }

  lemma TimesTen(a: nat, p: nat, f: nat, d: nat)
    ensures (a * p + f) * 10 + d == a * (10 * p) + (f * 10 + d)
  {
  }

  /** Digits side by side: those in front count ten times more for every digit behind them. */
  lemma {:induction false} DigitsConcat(a: string, b: string)
    requires AllDigits(a) && AllDigits(b)
    ensures DigitsValue(a + b) == DigitsValue(a) * Pow10(|b|) + DigitsValue(b)
  {
    if b == "" {
      assert a + b == a;
    } else {
      var front, last := b[..|b| - 1], b[|b| - 1];
      assert (a + b)[..|a + b| - 1] == a + front;
      DigitsConcat(a, front);
      assert Pow10(|b|) == 10 * Pow10(|front|);
      TimesTen(DigitsValue(a), Pow10(|front|), DigitsValue(front), DigitValue(last));
    }
  }

  /** The decimal spelling of a number, without leading zeros. */
  function Print(n: nat): (s: string)
    ensures DecimalInteger(s) && DigitsValue(s) == n
    decreases n
  {
    var last := [('0' as int + n % 10) as char];
    if n < 10 then
      assert last[..0] == "";
      last
    else
      var s := Print(n / 10) + last;
      assert s[..|s| - 1] == Print(n / 10);
      s
  }

  /** Length of the longest prefix of digits. */
  function LeadingDigits(s: string): (n: nat)
    ensures n <= |s| && AllDigits(s[..n])
    ensures n < |s| ==> !IsDigit(s[n])
  {
    if s == "" || !IsDigit(s[0]) then 0
    else
      var m := LeadingDigits(s[1..]);
      assert s[..m + 1] == [s[0]] + s[1..][..m];
      m + 1
  }

  lemma LeadingDigitsOf(digits: string, rest: string)
    requires AllDigits(digits) && (rest != "" ==> !IsDigit(rest[0]))
    ensures LeadingDigits(digits + rest) == |digits|
  {
    var s := digits + rest;
    var n := LeadingDigits(s);
    forall i | 0 <= i < n ensures IsDigit(s[i]) {
      assert s[i] == s[..n][i];
    }
    assert forall i :: 0 <= i < |digits| ==> s[i] == digits[i];
    if rest != "" {
      assert s[|digits|] == rest[0];
    }
  }

  lemma DigitsAreTrimmed(s: string)
    requires AllDigits(s)
    ensures Trimmed(s) && Trim(s) == s
  {
    TrimOfTrimmed(s);
  }

  // ---------------------------------------------------------------- Number(s)

  /** 2^1024 - 2^970: from here on a numeral is rounded to `Infinity`. */
  const INFINITY_THRESHOLD: nat :=
    0xFFFFFFFFFFFFFC00000000000000000000000000000000000000000000000000000000000000000000000000000000000000000000000000000000000000000000000000000000000000000000000000000000000000000000000000000000000000000000000000000000000000000000000000000000000000000000000000

  /** The exact number `num / 10^scale`. */
  datatype Decimal = Decimal(num: int, scale: nat) {
    function Floor(): int {
      num / Pow10(scale)
    }

    /** `Number.isInteger`, which is false of the infinities. */
    predicate IsInteger() {
      num % Pow10(scale) == 0 && -1 * INFINITY_THRESHOLD < Floor() < INFINITY_THRESHOLD
    }
  }

  lemma WholeDecimal(n: nat)
    ensures Decimal(n, 0).IsInteger() <==> n < INFINITY_THRESHOLD
    ensures Decimal(n, 0).Floor() == n
  {
    assert Pow10(0) == 1;
  }

  predicate HasSign(s: string) {
    s != "" && (s[0] == '-' || s[0] == '+')
  }

  function Signed(s: string, magnitude: int): int {
    if HasSign(s) && s[0] == '-' then -magnitude else magnitude
  }

  /** `digits / 10^places * 10^exponent` */
  function Shifted(digits: nat, places: nat, exponent: int): (d: Decimal)
    ensures d.num >= 0
  {
    if exponent >= 0 then Decimal(digits * Pow10(exponent), places) else Decimal(digits, places - exponent)
  }

  /** The digits before and after the point, and what follows them. */
  datatype Mantissa = Mantissa(whole: string, frac: string, tail: string)

  function SplitMantissa(u: string): (m: Mantissa)
    ensures AllDigits(m.whole) && AllDigits(m.frac)
  {
    var w := LeadingDigits(u);
    var rest := u[w..];
    if rest != "" && rest[0] == '.' then
      var f := LeadingDigits(rest[1..]);
      Mantissa(u[..w], rest[1..][..f], rest[1..][f..])
    else Mantissa(u[..w], "", rest)
  }

  /** The exponent part: empty, or `e` in either case, an optional sign and digits. */
  function Exponent(tail: string): Option<int> {
    if tail == "" then Some(0)
    else if tail[0] != 'e' && tail[0] != 'E' then None
    else
      var t := tail[1..];
      var u := if HasSign(t) then t[1..] else t;
      if DecimalInteger(u) then Some(Signed(t, DigitsValue(u))) else None
  }

  function UnsignedDecimal(u: string): Option<Decimal> {
    var m := SplitMantissa(u);
    var e := Exponent(m.tail);
    if m.whole + m.frac == "" || e.None? then None
    else Some(Shifted(DigitsValue(m.whole + m.frac), |m.frac|, e.value))
  }

  /** The radix of a numeral with a prefix: `0x`, `0o` or `0b`. */
  function Radix(t: string): Option<nat> {
    if |t| < 2 || t[0] != '0' then None
    else if t[1] == 'x' || t[1] == 'X' then Some(16)
    else if t[1] == 'o' || t[1] == 'O' then Some(8)
    else if t[1] == 'b' || t[1] == 'B' then Some(2)
    else None
  }

  function RadixDigit(c: char): Option<nat> {
    if IsDigit(c) then Some(DigitValue(c))
    else if 'a' <= c <= 'f' then Some(c as int - 'a' as int + 10)
    else if 'A' <= c <= 'F' then Some(c as int - 'A' as int + 10)
    else None
  }

  function RadixValue(s: string, radix: nat): Option<nat> {
    if s == "" then Some(0)
    else
      var front, d := RadixValue(s[..|s| - 1], radix), RadixDigit(s[|s| - 1]);
      if front.Some? && d.Some? && d.value < radix then Some(front.value * radix + d.value) else None
  }

  function PrefixedNumber(digits: string, radix: nat): Option<Decimal> {
    var n := RadixValue(digits, radix);
    if digits == "" || n.None? then None else Some(Decimal(n.value, 0))
  }

  /** `Number(s)`: a blank text is 0; prefixed numerals carry no sign. */
  function Number(s: string): Option<Decimal> {
    var t := Trim(s);
    if t == "" then Some(Decimal(0, 0))
    else if Radix(t).Some? then PrefixedNumber(t[2..], Radix(t).value)
    else
      match UnsignedDecimal(if HasSign(t) then t[1..] else t)
      case None => None
      case Some(d) => Some(Decimal(Signed(t, d.num), d.scale))
  }

  // ---------------------------------------------------------------- spellings

  function SignedBy(sign: string, magnitude: int): int {
    if sign == "-" then -magnitude else magnitude
  }

  datatype ExponentPart = NoExponent | ExponentPart(mark: char, sign: string, digits: string) {
    predicate Ok() {
      ExponentPart? ==>
        && (mark == 'e' || mark == 'E')
        && (sign == "" || sign == "+" || sign == "-")
        && DecimalInteger(digits)
    }

    function Text(): string {
      if NoExponent? then "" else [mark] + (sign + digits)
    }

    function Value(): int
      requires Ok()
    {
      if NoExponent? then 0 else SignedBy(sign, DigitsValue(digits))
    }
  }

  /** A decimal numeral by its pieces; those that are not there are empty. */
  datatype Spelling = Spelling(sign: string, whole: string, point: string, frac: string, exponent: ExponentPart) {
    ghost predicate Ok() {
      && (sign == "" || sign == "+" || sign == "-")
      && AllDigits(whole) && AllDigits(frac)
      && (point == "." || (point == "" && frac == ""))
      && whole + frac != ""
      && exponent.Ok()
    }

    function Unsigned(): string {
      whole + (point + (frac + exponent.Text()))
    }

    function Text(): string {
      sign + Unsigned()
    }

    /** The number it writes, without the sign. */
    function Magnitude(): Decimal
      requires AllDigits(whole) && AllDigits(frac) && exponent.Ok()
    {
      Shifted(DigitsValue(whole + frac), |frac|, exponent.Value())
    }
  }

  lemma SignOf(sign: string, rest: string, magnitude: int)
    requires sign == "" || sign == "+" || sign == "-"
    requires rest != "" && !HasSign(rest)
    ensures Signed(sign + rest, magnitude) == SignedBy(sign, magnitude)
    ensures (if HasSign(sign + rest) then (sign + rest)[1..] else sign + rest) == rest
  {
    if sign == "" {
      assert sign + rest == rest;
    } else {
      assert (sign + rest)[0] == sign[0] && (sign + rest)[1..] == rest;
    }
  }

  lemma ExponentOf(x: ExponentPart)
    requires x.Ok()
    ensures Exponent(x.Text()) == Some(x.Value())
    ensures x.Text() != "" ==> x.Text()[0] == 'e' || x.Text()[0] == 'E'
  {
    if x.ExponentPart? {
      assert x.Text()[1..] == x.sign + x.digits;
      SignOf(x.sign, x.digits, DigitsValue(x.digits));
    }
  }

  lemma MantissaOf(whole: string, point: string, frac: string, tail: string)
    requires AllDigits(whole) && AllDigits(frac) && (point == "." || (point == "" && frac == ""))
    requires tail != "" ==> !IsDigit(tail[0]) && tail[0] != '.'
    ensures SplitMantissa(whole + (point + (frac + tail))) == Mantissa(whole, frac, tail)
  {
    var rest := point + (frac + tail);
    var u := whole + rest;
    if point == "." {
      assert rest[1..] == frac + tail;
      LeadingDigitsOf(frac, tail);
      assert (frac + tail)[..|frac|] == frac && (frac + tail)[|frac|..] == tail;
    } else {
      assert rest == tail;
    }
    LeadingDigitsOf(whole, rest);
    assert u[..|whole|] == whole && u[|whole|..] == rest;
  }

  predicate StartsNumeral(s: string) {
    s != "" && (IsDigit(s[0]) || s[0] == '.')
  }

  predicate EndsNumeral(s: string) {
    s != "" && (IsDigit(s[|s| - 1]) || s[|s| - 1] == '.')
  }

  lemma EndsConcat(a: string, b: string)
    requires if b == "" then EndsNumeral(a) else EndsNumeral(b)
    ensures EndsNumeral(a + b)
  {
    if b == "" {
      assert a + b == a;
    } else {
      assert (a + b)[|a + b| - 1] == b[|b| - 1];
    }
  }

  lemma ExponentEnds(x: ExponentPart)
    requires x.Ok() && x.ExponentPart?
    ensures EndsNumeral(x.Text())
  {
    EndsConcat(x.sign, x.digits);
    EndsConcat([x.mark], x.sign + x.digits);
  }

  lemma UnsignedEnds(sp: Spelling)
    requires sp.Ok()
    ensures EndsNumeral(sp.Unsigned())
  {
    var x := sp.exponent.Text();
    if sp.exponent.ExponentPart? {
      ExponentEnds(sp.exponent);
    }
    if sp.frac + x != "" {
      EndsConcat(sp.frac, x);
    }
    if sp.point + (sp.frac + x) != "" {
      EndsConcat(sp.point, sp.frac + x);
    }
    EndsConcat(sp.whole, sp.point + (sp.frac + x));
  }

  /** Digits with a fraction or an exponent after them start no prefix. */
  lemma StartsConcat(whole: string, rest: string)
    requires AllDigits(whole) && (whole == "" ==> rest != "" && rest[0] == '.')
    requires rest != "" ==> rest[0] == '.' || rest[0] == 'e' || rest[0] == 'E'
    ensures StartsNumeral(whole + rest) && Radix(whole + rest).None?
  {
    var u := whole + rest;
    if whole == "" {
      assert u[0] == rest[0];
    } else {
      assert u[0] == whole[0];
      if |u| > 1 {
        assert u[1] == if |whole| > 1 then whole[1] else rest[0];
      }
    }
  }

  lemma UnsignedStarts(sp: Spelling)
    requires sp.Ok()
    ensures StartsNumeral(sp.Unsigned()) && Radix(sp.Unsigned()).None?
  {
    var x := sp.exponent.Text();
    ExponentOf(sp.exponent);
    if sp.point == "" {
      assert sp.point + (sp.frac + x) == x;
    }
    StartsConcat(sp.whole, sp.point + (sp.frac + x));
  }

  lemma UnsignedDecimalOf(sp: Spelling)
    requires sp.Ok()
    ensures UnsignedDecimal(sp.Unsigned()) == Some(sp.Magnitude())
  {
    ExponentOf(sp.exponent);
    MantissaOf(sp.whole, sp.point, sp.frac, sp.exponent.Text());
  }

  lemma SignedIsTrimmed(sign: string, u: string)
    requires sign == "" || sign == "+" || sign == "-"
    requires StartsNumeral(u) && EndsNumeral(u) && Radix(u).None?
    ensures Trimmed(sign + u) && Radix(sign + u).None?
  {
    var t := sign + u;
    assert t[|t| - 1] == u[|u| - 1];
    if sign == "" {
      assert t == u;
    } else {
      assert t[0] == sign[0];
    }
  }

  lemma SpellingIsTrimmed(sp: Spelling)
    requires sp.Ok()
    ensures Trimmed(sp.Text())
  {
    UnsignedStarts(sp);
    UnsignedEnds(sp);
    SignedIsTrimmed(sp.sign, sp.Unsigned());
  }

  lemma NumberOfSigned(sign: string, u: string, d: Decimal)
    requires sign == "" || sign == "+" || sign == "-"
    requires StartsNumeral(u) && EndsNumeral(u) && Radix(u).None?
    requires UnsignedDecimal(u) == Some(d)
    ensures Number(sign + u) == Some(Decimal(SignedBy(sign, d.num), d.scale))
  {
    SignedIsTrimmed(sign, u);
    TrimOfTrimmed(sign + u);
    SignOf(sign, u, d.num);
  }

  /** Every decimal spelling is read as the exact number it writes. */
  lemma NumberOfSpelling(sp: Spelling, d: Decimal)
    requires sp.Ok() && d == sp.Magnitude()
    ensures Number(sp.Text()) == Some(Decimal(SignedBy(sp.sign, d.num), d.scale))
  {
    UnsignedStarts(sp);
    UnsignedEnds(sp);
    UnsignedDecimalOf(sp);
    NumberOfSigned(sp.sign, sp.Unsigned(), d);
  }

  function DigitsSpelling(s: string): Spelling {
    Spelling("", s, "", "", NoExponent)
  }

  lemma DigitsSpell(s: string)
    requires DecimalInteger(s)
    ensures var sp := DigitsSpelling(s);
            sp.Ok() && sp.Text() == s && sp.Magnitude() == Decimal(DigitsValue(s), 0)
  {
    var sp := DigitsSpelling(s);
    assert s + "" == s && sp.Text() == s;
    assert Pow10(0) == 1;
  }

  lemma NumberOfDigits(s: string)
    requires DecimalInteger(s)
    ensures Number(s) == Some(Decimal(DigitsValue(s), 0))
  {
    DigitsSpell(s);
    NumberOfSpelling(DigitsSpelling(s), Decimal(DigitsValue(s), 0));
  }

  // ---------------------------------------------------------------- what Number accepts

  lemma MantissaIsSound(u: string) returns (point: string)
    ensures var m := SplitMantissa(u);
            && u == m.whole + (point + (m.frac + m.tail))
            && (point == "." || (point == "" && m.frac == ""))
  {
    var w := LeadingDigits(u);
    var rest := u[w..];
    assert u == u[..w] + rest;
    if rest != "" && rest[0] == '.' {
      point := ".";
      var f := LeadingDigits(rest[1..]);
      assert rest[1..] == rest[1..][..f] + rest[1..][f..];
      assert rest == "." + rest[1..];
    } else {
      point := "";
      assert rest == "" + ("" + rest);
    }
  }

  lemma SignIsSound(t: string) returns (sign: string)
    ensures sign == "" || sign == "+" || sign == "-"
    ensures t == sign + if HasSign(t) then t[1..] else t
  {
    sign := if HasSign(t) then t[..1] else "";
  }

  lemma MarkedIsSound(tail: string, sign: string, digits: string)
    requires tail != "" && tail[1..] == sign + digits
    ensures ExponentPart(tail[0], sign, digits).Text() == tail
  {
    assert tail == [tail[0]] + tail[1..];
  }

  lemma ExponentIsSound(tail: string) returns (x: ExponentPart)
    requires Exponent(tail).Some?
    ensures x.Ok() && x.Text() == tail
  {
    if tail == "" {
      x := NoExponent;
    } else {
      var t := tail[1..];
      var digits := if HasSign(t) then t[1..] else t;
      var sign := SignIsSound(t);
      x := ExponentPart(tail[0], sign, digits);
      MarkedIsSound(tail, sign, digits);
    }
  }

  lemma DecimalIsSpelled(t: string) returns (sp: Spelling)
    requires UnsignedDecimal(if HasSign(t) then t[1..] else t).Some?
    ensures sp.Ok() && sp.Text() == t
  {
    var u := if HasSign(t) then t[1..] else t;
    var sign := SignIsSound(t);
    var m := SplitMantissa(u);
    var point := MantissaIsSound(u);
    var x := ExponentIsSound(m.tail);
    sp := Spelling(sign, m.whole, point, m.frac, x);
    assert sp.Unsigned() == u;
  }

  ghost predicate IsSpelling(t: string) {
    exists sp: Spelling :: sp.Ok() && sp.Text() == t
  }

  /** Digits of the radix behind the prefix, one at least. */
  ghost predicate IsPrefixed(t: string) {
    && Radix(t).Some? && |t| > 2
    && forall i :: 2 <= i < |t| ==> RadixDigit(t[i]).Some? && RadixDigit(t[i]).value < Radix(t).value
  }

  lemma {:induction false} RadixValueIff(s: string, radix: nat)
    ensures RadixValue(s, radix).Some? <==>
            forall i :: 0 <= i < |s| ==> RadixDigit(s[i]).Some? && RadixDigit(s[i]).value < radix
  {
    if s == "" {
    } else {
      var front := s[..|s| - 1];
      RadixValueIff(front, radix);
      assert forall i :: 0 <= i < |front| ==> front[i] == s[i];
    }
  }

  lemma PrefixedIff(t: string)
    requires Radix(t).Some?
    ensures PrefixedNumber(t[2..], Radix(t).value).Some? <==> IsPrefixed(t)
  {
    RadixValueIff(t[2..], Radix(t).value);
    assert forall i :: 2 <= i < |t| ==> t[i] == t[2..][i - 2];
  }

  /** What `Number` reads: white space around nothing, around a decimal spelling, or around a prefixed numeral. */
  lemma NumberIff(s: string)
    ensures Number(s).Some? <==> Trim(s) == "" || IsSpelling(Trim(s)) || IsPrefixed(Trim(s))
  {
    var t := Trim(s);
    if IsSpelling(t) {
      var sp: Spelling :| sp.Ok() && sp.Text() == t;
      SpellingIsTrimmed(sp);
      NumberOfSpelling(sp, sp.Magnitude());
      TrimOfTrimmed(t);
    }
    if Radix(t).Some? {
      PrefixedIff(t);
    } else if t != "" && Number(s).Some? {
      var sp := DecimalIsSpelled(t);
    }
  }

  // ---------------------------------------------------------------- parseInt(s, 10)

  /** The number at the very front: a sign and digits. */
  function LeadingInt(t: string): Option<int> {
    var u := if HasSign(t) then t[1..] else t;
    var w := LeadingDigits(u);
    if w == 0 then None else Some(Signed(t, DigitsValue(u[..w])))
  }

  /** `parseInt(s, 10)`: skips leading white space, reads a sign and digits, ignores what follows; None is NaN. */
  function ParseInt(s: string): Option<int> {
    LeadingInt(TrimStart(s))
  }

  lemma LeadingIntOf(sign: string, digits: string, rest: string)
    requires sign == "" || sign == "+" || sign == "-"
    requires DecimalInteger(digits) && (rest != "" ==> !IsDigit(rest[0]))
    ensures LeadingInt(sign + (digits + rest)) == Some(SignedBy(sign, DigitsValue(digits)))
  {
    var u := digits + rest;
    assert u[0] == digits[0];
    SignOf(sign, u, DigitsValue(digits));
    LeadingDigitsOf(digits, rest);
    assert u[..|digits|] == digits;
  }

  lemma NoLeadingSpace(sign: string, u: string)
    requires (sign == "" || sign == "+" || sign == "-") && u != "" && IsDigit(u[0])
    ensures sign + u != "" && !IsSpace((sign + u)[0])
  {
    assert (sign + u)[0] == if sign == "" then u[0] else sign[0];
  }

  /** The digits at the front, with their sign, whatever precedes them in white space and follows them. */
  lemma ParseIntOfPrefix(before: string, sign: string, digits: string, rest: string)
    requires AllSpace(before) && (sign == "" || sign == "+" || sign == "-")
    requires DecimalInteger(digits) && (rest != "" ==> !IsDigit(rest[0]))
    ensures ParseInt(before + (sign + (digits + rest))) == Some(SignedBy(sign, DigitsValue(digits)))
  {
    var u := digits + rest;
    assert u[0] == digits[0];
    NoLeadingSpace(sign, u);
    TrimStartOfPadded(before, sign + u);
    LeadingIntOf(sign, digits, rest);
  }

  /** On digits in any padding, `parseInt` and `Number` read the same number. */
  lemma ParseIntOfDigits(s: string)
    requires DecimalInteger(Trim(s))
    ensures ParseInt(s) == Some(DigitsValue(Trim(s)))
  {
    var before, after := TrimSplits(s);
    assert s == before + ("" + (Trim(s) + after));
    ParseIntOfPrefix(before, "", Trim(s), after);
  }

  lemma ParseIntOfBlank(s: string)
    requires Blank(s)
    ensures ParseInt(s) == None
  {
    BlankIffAllSpace(s);
    TrimStartOfPadded(s, "");
    assert s + "" == s;
  }

  // ---------------------------------------------------------------- Content-Length

  const MAX_SAFE_INTEGER: nat := 0x1F_FFFF_FFFF_FFFF

  /** A whole number of bytes that is not negative and is exact as a double. */
  function UsableLength(d: Decimal): Option<nat> {
    if d.IsInteger() && 0 <= d.Floor() <= MAX_SAFE_INTEGER then Some(d.Floor()) else None
  }

  /** A well-formed Content-Length, or None when it is absent or unusable. */
  function ParseDeclaredLength(raw: Option<string>): Option<nat> {
    if raw.None? then None
    else
      var n := Number(Trim(raw.value));
      if n.None? then None else UsableLength(n.value)
  }

  lemma QuotientSigns(a: nat, b: nat)
    requires b > 0
    ensures a / b >= 0 && 0 / b == 0 && 0 % b == 0
    ensures a > 0 ==> -1 * a / b < 0
  {
    var q := -1 * a / b;
    assert q >= 0 ==> q * b >= 0;
    assert -1 * a == q * b + (-1 * a) % b;
  }

  lemma UsableLengthOf(sign: string, digits: nat, scale: nat)
    ensures var unit := Pow10(scale);
            UsableLength(Decimal(SignedBy(sign, digits), scale)) ==
            if digits % unit == 0 && (sign != "-" || digits == 0) && digits / unit <= MAX_SAFE_INTEGER
            then Some(digits / unit) else None
  {
    QuotientSigns(digits, Pow10(scale));
  }

  /** The number a spelling writes, taken apart: `m * 10^e / 10^k` of the digits on both sides of the point. */
  lemma MagnitudeOf(sp: Spelling)
    requires sp.Ok()
    ensures var k, e := |sp.frac|, sp.exponent.Value();
            var m := DigitsValue(sp.whole) * Pow10(k) + DigitsValue(sp.frac);
            && sp.Magnitude().num == (if e >= 0 then m * Pow10(e) else m)
            && sp.Magnitude().scale == (if e >= 0 then k else k - e)
  {
    DigitsConcat(sp.whole, sp.frac);
  }

  /**
    Every decimal spelling of a length, in any padding. With digits W before and F after the point,
    k of the latter, and an exponent e, it is usable exactly when (W * 10^k + F) * 10^e / 10^k is a
    whole number that is not negative and at most 2^53 - 1, and then it is that number.
   */
  lemma DeclaredLengthOfSpelling(before: string, sp: Spelling, after: string)
    requires sp.Ok() && AllSpace(before) && AllSpace(after)
    ensures var k, e := |sp.frac|, sp.exponent.Value();
            var m := DigitsValue(sp.whole) * Pow10(k) + DigitsValue(sp.frac);
            var digits, unit := if e >= 0 then m * Pow10(e) else m, Pow10(if e >= 0 then k else k - e);
            ParseDeclaredLength(Some(before + sp.Text() + after)) ==
            if digits % unit == 0 && (sp.sign != "-" || digits == 0) && digits / unit <= 9007199254740991
            then Some(digits / unit) else None
  {
    SpellingIsTrimmed(sp);
    TrimOfPadded(before, sp.Text(), after);
    MagnitudeOf(sp);
    NumberOfSpelling(sp, sp.Magnitude());
    UsableLengthOf(sp.sign, sp.Magnitude().num, sp.Magnitude().scale);
  }

  /** A length printed in digits, in any padding, is read back exactly up to 2^53 - 1, and is unusable beyond. */
  lemma DeclaredLengthRoundTrip(n: nat, before: string, after: string)
    requires AllSpace(before) && AllSpace(after)
    ensures ParseDeclaredLength(Some(before + Print(n) + after)) == if n <= 9007199254740991 then Some(n) else None
  {
    DigitsAreTrimmed(Print(n));
    TrimOfPadded(before, Print(n), after);
    NumberOfDigits(Print(n));
    WholeDecimal(n);
  }

  const RADIX_DIGITS := "0123456789abcdef"

  lemma RadixDigitOf(d: nat)
    requires d < 16
    ensures RadixDigit(RADIX_DIGITS[d]) == Some(d)
  {
  }

  lemma RadixAppend(front: string, c: char, radix: nat)
    ensures RadixValue(front + [c], radix) ==
            var f, d := RadixValue(front, radix), RadixDigit(c);
            if f.Some? && d.Some? && d.value < radix then Some(f.value * radix + d.value) else None
  {
    assert (front + [c])[..|front|] == front;
  }

  /** The number that a list of digits stands for, the most significant one first. */
  function Horner(ds: seq<nat>, radix: nat): nat {
    if ds == [] then 0 else Horner(ds[..|ds| - 1], radix) * radix + ds[|ds| - 1]
  }

  function RadixText(ds: seq<nat>): (s: string)
    requires forall i :: 0 <= i < |ds| ==> ds[i] < 16
    ensures |s| == |ds|
  {
    if ds == [] then "" else RadixText(ds[..|ds| - 1]) + [RADIX_DIGITS[ds[|ds| - 1]]]
  }

  lemma {:induction false} RadixRoundTrip(ds: seq<nat>, radix: nat)
    requires radix <= 16 && forall i :: 0 <= i < |ds| ==> ds[i] < radix
    ensures RadixValue(RadixText(ds), radix) == Some(Horner(ds, radix))
    ensures ds != [] ==> RadixDigit(RadixText(ds)[|ds| - 1]).Some?
  {
    if ds == [] {
    } else {
      var front, last := ds[..|ds| - 1], ds[|ds| - 1];
      RadixRoundTrip(front, radix);
      RadixDigitOf(last);
      RadixAppend(RadixText(front), RADIX_DIGITS[last], radix);
    }
  }

  ghost predicate MarksRadix(mark: char, radix: nat) {
    || (radix == 16 && (mark == 'x' || mark == 'X'))
    || (radix == 8 && (mark == 'o' || mark == 'O'))
    || (radix == 2 && (mark == 'b' || mark == 'B'))
  }

  lemma PrefixedText(mark: char, digits: string, radix: nat)
    requires MarksRadix(mark, radix) && digits != "" && RadixDigit(digits[|digits| - 1]).Some?
    ensures var t := ['0', mark] + digits; Trimmed(t) && Radix(t) == Some(radix) && t[2..] == digits
  {
    var t := ['0', mark] + digits;
    assert t[|t| - 1] == digits[|digits| - 1];
  }

  lemma NumberOfPrefixed(mark: char, digits: string, n: nat, radix: nat)
    requires MarksRadix(mark, radix) && digits != "" && RadixDigit(digits[|digits| - 1]).Some?
    requires RadixValue(digits, radix) == Some(n)
    ensures Number(['0', mark] + digits) == Some(Decimal(n, 0))
  {
    PrefixedText(mark, digits, radix);
    TrimOfTrimmed(['0', mark] + digits);
  }

  /** A length in hexadecimal, octal or binary digits, behind its prefix. */
  lemma PrefixedLengthRoundTrip(before: string, mark: char, ds: seq<nat>, radix: nat, after: string)
    requires AllSpace(before) && AllSpace(after) && MarksRadix(mark, radix)
    requires ds != [] && forall i :: 0 <= i < |ds| ==> ds[i] < radix
    ensures var n := Horner(ds, radix);
            ParseDeclaredLength(Some(before + (['0', mark] + RadixText(ds)) + after)) ==
            if n <= 9007199254740991 then Some(n) else None
  {
    var digits := RadixText(ds);
    RadixRoundTrip(ds, radix);
    PrefixedText(mark, digits, radix);
    TrimOfPadded(before, ['0', mark] + digits, after);
    NumberOfPrefixed(mark, digits, Horner(ds, radix), radix);
    WholeDecimal(Horner(ds, radix));
  }

  /** A blank length is 0. */
  lemma BlankLengthIsZero(s: string)
    requires AllSpace(s)
    ensures ParseDeclaredLength(Some(s)) == Some(0)
  {
    BlankIffAllSpace(s);
    TrimOfTrimmed("");
    WholeDecimal(0);
  }

  lemma NoDigitsNoDecimal(u: string)
    requires forall i :: 0 <= i < |u| ==> !IsDigit(u[i])
    ensures UnsignedDecimal(u) == None
  {
    var m := SplitMantissa(u);
    assert m.whole == "" && u[0..] == u;
    assert m.frac == "";
  }

  /** Any other text without a digit cannot be read, and is as good as no length at all. */
  lemma WordIsNoLength(s: string)
    requires !AllSpace(s) && forall i :: 0 <= i < |s| ==> !IsDigit(s[i])
    ensures Number(Trim(s)) == None && ParseDeclaredLength(Some(s)) == None
  {
    BlankIffAllSpace(s);
    var before, after := TrimSplits(s);
    var t := Trim(s);
    TrimOfTrimmed(t);
    forall i | 0 <= i < |t| ensures !IsDigit(t[i]) {
      assert t[i] == s[|before| + i];
    }
    NoDigitsNoDecimal(if HasSign(t) then t[1..] else t);
  }
}
