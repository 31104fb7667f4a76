/**
  The grammar of body-size limits. Two places read it: the resolver tests a pattern against the
  configured text, the budget takes the text apart with a pattern of its own. Here the resolver's
  pattern is a grammar (what the regular expression matches), the budget's a scanner, and the two
  are proved to agree.
 */
module BodyLimits {
  import opened Options
  import opened Text
  import opened Numerals

  // ---------------------------------------------------------------- units

  const UNITS: seq<string> := ["b", "kb", "mb", "gb", "tb", "pb"]

  function Pow1024(k: nat): (p: nat)
    ensures p > 0
  {
    if k == 0 then 1 else 1024 * Pow1024(k - 1)
  }

  function FindUnit(lower: string, k: nat): (found: Option<nat>)
    requires k <= |UNITS|
    ensures found.Some? ==> k <= found.value < |UNITS| && UNITS[found.value] == lower
    ensures found.None? ==> lower !in UNITS[k..]
    decreases |UNITS| - k
  {
    if k == |UNITS| then None else if lower == UNITS[k] then Some(k) else FindUnit(lower, k + 1)
  }

  /** The position of a unit in `UNITS`, in any letter case. */
  function UnitIndex(u: string): Option<nat> {
    FindUnit(LowerCase(u), 0)
  }

  predicate IsUnit(u: string) {
    UnitIndex(u).Some?
  }

  /** Bytes in one unit; a missing unit counts as bytes. */
  function UnitBytes(u: string): (bytes: nat)
    requires u != "" ==> IsUnit(u)
    ensures bytes > 0
  {
    if u == "" then 1 else Pow1024(UnitIndex(u).value)
  }

  lemma UnitAt(u: string, k: nat)
    requires k < 6 && InAnyCase(u, ["b", "kb", "mb", "gb", "tb", "pb"][k])
    ensures UnitIndex(u) == Some(k)
  {
    LowerCaseIff(u, UNITS[k]);
  }

  lemma PowersOf1024()
    ensures Pow1024(0) == 1 && Pow1024(1) == 1024 && Pow1024(2) == 1048576
    ensures Pow1024(3) == 1073741824 && Pow1024(4) == 1099511627776 && Pow1024(5) == 1125899906842624
  {
    assert Pow1024(2) == 1024 * Pow1024(1) && Pow1024(1) == 1024 * Pow1024(0);
    assert Pow1024(3) == 1024 * Pow1024(2);
    assert Pow1024(4) == 1024 * Pow1024(3) && Pow1024(5) == 1024 * Pow1024(4);
  }

  /** The six units, in every letter case, and their bytes; there is no other unit, and none at all means bytes. */
  lemma UnitTable(u: string)
    ensures u == "" ==> UnitBytes(u) == 1
    ensures InAnyCase(u, "b") ==> IsUnit(u) && UnitBytes(u) == 1
    ensures InAnyCase(u, "kb") ==> IsUnit(u) && UnitBytes(u) == 1024
    ensures InAnyCase(u, "mb") ==> IsUnit(u) && UnitBytes(u) == 1048576
    ensures InAnyCase(u, "gb") ==> IsUnit(u) && UnitBytes(u) == 1073741824
    ensures InAnyCase(u, "tb") ==> IsUnit(u) && UnitBytes(u) == 1099511627776
    ensures InAnyCase(u, "pb") ==> IsUnit(u) && UnitBytes(u) == 1125899906842624
    ensures IsUnit(u) ==> exists k :: 0 <= k < 6 && InAnyCase(u, ["b", "kb", "mb", "gb", "tb", "pb"][k])
  {
    PowersOf1024();
    forall k: nat | k < 6 && InAnyCase(u, ["b", "kb", "mb", "gb", "tb", "pb"][k]) ensures UnitIndex(u) == Some(k) {
      UnitAt(u, k);
    }
    if IsUnit(u) {
      var k := UnitIndex(u).value;
      LowerCaseIff(u, UNITS[k]);
    }
  }

  // ---------------------------------------------------------------- the grammar

  /** What may follow the whole part: `(\.\d+)?`, `\s?` and `(b|kb|mb|gb|tb|pb)?` in any letter case. */
  ghost predicate TailPieces(frac: string, gap: string, unit: string) {
    && (frac != "" ==> frac[0] == '.' && DecimalInteger(frac[1..]))
    && (gap != "" ==> |gap| == 1 && IsSpace(gap[0]))
    && (unit != "" ==> IsUnit(unit))
  }

  /** `/^\d+(\.\d+)?\s?(b|kb|mb|gb|tb|pb)?$/i` with its four pieces; `frac` includes the point. */
  ghost predicate Spells(s: string, whole: string, frac: string, gap: string, unit: string) {
    s == whole + (frac + (gap + unit)) && DecimalInteger(whole) && TailPieces(frac, gap, unit)
  }

  ghost predicate MatchesBodyLimit(s: string) {
    exists whole, frac, gap, unit :: Spells(s, whole, frac, gap, unit)
  }

  const DEFAULT_LIMIT := "25mb"

  /** The configured limit, or the default when it does not match the pattern. */
  ghost function ResolveBodyLimit(env: Option<string>): string {
    if env.Some? && Trim(env.value) != "" && MatchesBodyLimit(Trim(env.value)) then Trim(env.value) else DEFAULT_LIMIT
  }

  // ---------------------------------------------------------------- the scanner

  /** What the parser's pattern captures; `frac` without the point. */
  datatype Parts = Parts(whole: string, frac: string, unit: string)

  predicate PartsOk(p: Parts) {
    DecimalInteger(p.whole) && AllDigits(p.frac) && (p.unit != "" ==> IsUnit(p.unit))
  }

  /** Number of digits after a point at the start of `s`; 0 when there is no fraction. */
  function FractionDigits(s: string): (n: nat)
    ensures n > 0 ==> n < |s| && s[0] == '.' && DecimalInteger(s[1..n + 1])
  {
    if s == "" || s[0] != '.' then 0
    else
      var n := LeadingDigits(s[1..]);
      assert s[1..][..n] == s[1..n + 1];
      n
  }

  /** What is left of `s` after one optional white-space character. */
  function SkipGap(s: string): string {
    if s != "" && IsSpace(s[0]) then s[1..] else s
  }

  /** Fraction digits and unit after the whole part. */
  function SplitTail(rest: string): (p: Option<(string, string)>)
    ensures p.Some? ==> AllDigits(p.value.0) && (p.value.1 != "" ==> IsUnit(p.value.1))
  {
    var f := FractionDigits(rest);
    var unit := SkipGap(if f > 0 then rest[f + 1..] else rest);
    if unit != "" && !IsUnit(unit) then None
    else Some((if f > 0 then rest[1..f + 1] else "", unit))
  }

  function SplitLimit(s: string): (p: Option<Parts>)
    ensures p.Some? ==> PartsOk(p.value)
  {
    var w := LeadingDigits(s);
    var tail := SplitTail(s[w..]);
    if w == 0 || tail.None? then None else Some(Parts(s[..w], tail.value.0, tail.value.1))
  }

  const FALLBACK_LIMIT_BYTES: nat := 25 * 1024 * 1024

  /** `Math.floor` of the quotient of two natural numbers. */
  function FloorDiv(a: nat, b: nat): (q: nat)
    requires b > 0
    ensures q * b <= a < (q + 1) * b
  {
    assert a == a / b * b + a % b;
    a / b
  }

  /** The bytes a limit writes, times 10 to the number of decimals. */
  function ScaledBytes(p: Parts): nat
    requires PartsOk(p)
  {
    DigitsValue(p.whole + p.frac) * UnitBytes(p.unit)
  }

  /** By place value: W bytes times 10^k and F bytes, of the unit, for W before and the k digits F after the point. */
  lemma ScaledBytesOf(p: Parts)
    requires PartsOk(p)
    ensures ScaledBytes(p) == (DigitsValue(p.whole) * Pow10(|p.frac|) + DigitsValue(p.frac)) * UnitBytes(p.unit)
  {
    DigitsConcat(p.whole, p.frac);
  }

  /** Bytes a limit stands for: the exact rational it writes, times its unit, rounded down. */
  function LimitBytes(p: Parts): (bytes: nat)
    requires PartsOk(p)
    ensures var scaled := (DigitsValue(p.whole) * Pow10(|p.frac|) + DigitsValue(p.frac)) * UnitBytes(p.unit);
            bytes * Pow10(|p.frac|) <= scaled < (bytes + 1) * Pow10(|p.frac|)
  {
    ScaledBytesOf(p);
    FloorDiv(ScaledBytes(p), Pow10(|p.frac|))
  }

  function ParseBodyLimitBytes(limit: string): nat {
    match SplitLimit(Trim(limit))
    case None => FALLBACK_LIMIT_BYTES
    case Some(p) => LimitBytes(p)
  }

  // ---------------------------------------------------------------- the two agree

  lemma UnitStartsWithLetter(u: string)
    requires IsUnit(u)
    ensures u != "" && !IsSpace(u[0]) && !IsSpace(u[|u| - 1]) && !IsDigit(u[0]) && u[0] != '.'
  {
    var l := LowerCase(u);
    assert l[0] == Lower(u[0]) && l[|u| - 1] == Lower(u[|u| - 1]);
  }

  lemma FractionOf(frac: string, tail: string)
    requires frac != "" ==> frac[0] == '.' && DecimalInteger(frac[1..])
    requires tail != "" ==> !IsDigit(tail[0]) && tail[0] != '.'
    ensures FractionDigits(frac + tail) == if frac == "" then 0 else |frac| - 1
  {
    if frac == "" {
      assert frac + tail == tail;
    } else {
      assert (frac + tail)[1..] == frac[1..] + tail;
      LeadingDigitsOf(frac[1..], tail);
    }
  }

  lemma GapOf(gap: string, unit: string)
    requires gap != "" ==> |gap| == 1 && IsSpace(gap[0])
    requires unit != "" ==> IsUnit(unit)
    ensures SkipGap(gap + unit) == unit
    ensures gap + unit != "" ==> !IsDigit((gap + unit)[0]) && (gap + unit)[0] != '.'
  {
    if unit != "" {
      UnitStartsWithLetter(unit);
    }
    if gap == "" {
      assert gap + unit == unit;
    } else {
      assert (gap + unit)[1..] == unit;
    }
  }

  function DigitsOf(frac: string): string {
    if frac == "" then "" else frac[1..]
  }

  lemma TailFindsPieces(frac: string, gap: string, unit: string)
    requires TailPieces(frac, gap, unit)
    ensures SplitTail(frac + (gap + unit)) == Some((DigitsOf(frac), unit))
    ensures var rest := frac + (gap + unit); rest != "" ==> !IsDigit(rest[0])
  {
    var tail := gap + unit;
    var rest := frac + tail;
    GapOf(gap, unit);
    FractionOf(frac, tail);
    if frac == "" {
      assert rest == tail;
    } else {
      assert rest[|frac|..] == tail && rest[1..|frac|] == frac[1..];
    }
  }

  /** The scanner finds the pieces of every text the pattern matches, and there is only one way to cut it. */
  lemma ScannerFindsPieces(s: string, whole: string, frac: string, gap: string, unit: string)
    requires Spells(s, whole, frac, gap, unit)
    ensures SplitLimit(s) == Some(Parts(whole, DigitsOf(frac), unit))
  {
    var rest := frac + (gap + unit);
    TailFindsPieces(frac, gap, unit);
    LeadingDigitsOf(whole, rest);
    assert s[|whole|..] == rest && s[..|whole|] == whole;
  }

  lemma GapIsSound(tail: string) returns (gap: string)
    ensures tail == gap + SkipGap(tail)
    ensures gap != "" ==> |gap| == 1 && IsSpace(gap[0])
  {
    gap := if tail != "" && IsSpace(tail[0]) then tail[..1] else "";
  }

  lemma TailIsSound(rest: string) returns (frac: string, gap: string, unit: string)
    requires SplitTail(rest).Some?
    ensures rest == frac + (gap + unit) && TailPieces(frac, gap, unit)
  {
    var f := FractionDigits(rest);
    if f == 0 {
      frac, unit := "", SkipGap(rest);
      gap := GapIsSound(rest);
      assert rest == "" + rest;
    } else {
      frac, unit := rest[..f + 1], SkipGap(rest[f + 1..]);
      gap := GapIsSound(rest[f + 1..]);
      assert rest == frac + rest[f + 1..];
      assert frac[1..] == rest[1..f + 1];
    }
  }

  /** Conversely, whatever the scanner accepts the pattern matches. */
  lemma ScannerIsSound(s: string)
    requires SplitLimit(s).Some?
    ensures MatchesBodyLimit(s)
  {
    var w := LeadingDigits(s);
    var frac, gap, unit := TailIsSound(s[w..]);
    assert s == s[..w] + s[w..];
    assert Spells(s, s[..w], frac, gap, unit);
  }

  /** The scanner accepts exactly the language of the pattern. */
  lemma ScannerIffPattern(s: string)
    ensures SplitLimit(s).Some? <==> MatchesBodyLimit(s)
  {
    if SplitLimit(s).Some? {
      ScannerIsSound(s);
    }
    if MatchesBodyLimit(s) {
      var whole, frac, gap, unit :| Spells(s, whole, frac, gap, unit);
      ScannerFindsPieces(s, whole, frac, gap, unit);
    }
  }

  lemma MegabyteUnit()
    ensures IsUnit("mb") && UnitBytes("mb") == 1024 * 1024
  {
    assert LowerCase("mb") == "mb";
    assert FindUnit("mb", 0) == FindUnit("mb", 1) == FindUnit("mb", 2) == Some(2);
    assert Pow1024(2) == 1024 * Pow1024(1) && Pow1024(1) == 1024 * Pow1024(0);
  }

  lemma TwentyFive()
    ensures DecimalInteger("25") && DigitsValue("25") == 25
  {
    assert "25"[..1] == "2" && "2"[..0] == "";
    assert DigitsValue("2") == 2;
  }

  lemma DefaultLimitBytes()
    ensures IsUnit("mb") && PartsOk(Parts("25", "", "mb")) && LimitBytes(Parts("25", "", "mb")) == 26214400
  {
    MegabyteUnit();
    TwentyFive();
    assert "25" + "" == "25" && Pow10(0) == 1;
  }

  lemma DefaultLimitParses()
    ensures SplitLimit(Trim(DEFAULT_LIMIT)).Some? && ParseBodyLimitBytes(DEFAULT_LIMIT) == FALLBACK_LIMIT_BYTES
  {
    DefaultLimitBytes();
    TrimOfTrimmed(DEFAULT_LIMIT);
    assert DEFAULT_LIMIT == "25" + ("" + ("" + "mb"));
    ScannerFindsPieces(DEFAULT_LIMIT, "25", "", "", "mb");
  }

  /**
    Whatever the environment says, the resolver returns a text the budget's parser accepts, so the
    parser's fallback is never taken after it; and going through the resolver never changes the
    number of bytes the parser would have read from the configured text itself.
   */
  lemma ResolvedLimitAlwaysParses(env: Option<string>)
    ensures ResolveBodyLimit(env) ==
            if env.Some? && SplitLimit(Trim(env.value)).Some? then Trim(env.value) else "25mb"
    ensures SplitLimit(Trim(ResolveBodyLimit(env))).Some?
    ensures ParseBodyLimitBytes(ResolveBodyLimit(env)) ==
            if env.Some? then ParseBodyLimitBytes(env.value) else 26214400
  {
    DefaultLimitParses();
    if env.Some? {
      ScannerIffPattern(Trim(env.value));
      var before, after := TrimSplits(env.value);
      TrimOfTrimmed(Trim(env.value));
    }
  }

  // ---------------------------------------------------------------- round trips

  /** A limit may stand in any padding: trimming finds exactly the matched text. */
  lemma SpelledIsTrimmed(s: string, whole: string, frac: string, gap: string, unit: string)
    requires Spells(s, whole, frac, gap, unit) && (unit == "" ==> gap == "")
    ensures Trimmed(s)
  {
    assert s[0] == whole[0];
    if unit != "" {
      UnitStartsWithLetter(unit);
      assert s[|s| - 1] == unit[|unit| - 1];
    } else if frac != "" {
      assert s[|s| - 1] == frac[1..][|frac| - 2];
    } else {
      assert s[|s| - 1] == whole[|whole| - 1];
    }
  }

  /**
    A spelled limit, in any padding, with or without fraction, space and unit, parses to what it
    says: by the contract of `LimitBytes`, the greatest whole number of bytes not above its digits
    / 10^places * unit.
   */
  lemma SpelledLimitBytes(before: string, s: string, after: string,
                          whole: string, frac: string, gap: string, unit: string)
    requires Spells(s, whole, frac, gap, unit) && (unit == "" ==> gap == "")
    requires AllSpace(before) && AllSpace(after)
    ensures PartsOk(Parts(whole, DigitsOf(frac), unit))
    ensures ParseBodyLimitBytes(before + s + after) == LimitBytes(Parts(whole, DigitsOf(frac), unit))
  {
    SpelledIsTrimmed(s, whole, frac, gap, unit);
    TrimOfPadded(before, s, after);
    ScannerFindsPieces(s, whole, frac, gap, unit);
  }

  /** Round trip: every n, in every unit and letter case, with or without one white-space character before the unit. */
  lemma LimitRoundTrip(before: string, n: nat, gap: string, unit: string, after: string)
    requires AllSpace(before) && AllSpace(after)
    requires IsUnit(unit) && |gap| <= 1 && AllSpace(gap)
    ensures ParseBodyLimitBytes(before + (Print(n) + ("" + (gap + unit))) + after) == n * UnitBytes(unit)
  {
    var s := Print(n) + ("" + (gap + unit));
    assert UnitIndex("").None?;
    SpelledLimitBytes(before, s, after, Print(n), "", gap, unit);
    assert Print(n) + "" == Print(n);
  }

  /** A limit without a unit is a number of bytes. */
  lemma BytesRoundTrip(before: string, n: nat, after: string)
    requires AllSpace(before) && AllSpace(after)
    ensures ParseBodyLimitBytes(before + Print(n) + after) == n
  {
    var s := Print(n);
    assert s == s + ("" + ("" + "")) && s + "" == s;
    SpelledLimitBytes(before, s, after, s, "", "", "");
    UnitTable("");
    assert Pow10(0) == 1 && DigitsValue("") == 0;
  }

  // ---------------------------------------------------------------- the aggregate budget

  const DEFAULT_BUDGET_MULTIPLIER: nat := 4

  /** The explicit budget, when it is a positive integer. */
  function ExplicitBudget(env: Option<string>): Option<nat> {
    if env.None? || Trim(env.value) == "" then None
    else
      var n := Number(Trim(env.value));
      if n.Some? && n.value.IsInteger() && n.value.Floor() > 0 then Some(n.value.Floor()) else None
  }

  ghost function ResolveInflightBodyBudgetBytes(budgetEnv: Option<string>, limitEnv: Option<string>): nat {
    match ExplicitBudget(budgetEnv)
    case Some(n) => n
    case None => DEFAULT_BUDGET_MULTIPLIER * ParseBodyLimitBytes(ResolveBodyLimit(limitEnv))
  }

  /** The limit writes less than one byte: (W * 10^k + F) units are fewer than 10^k bytes. */
  predicate BelowOneByte(p: Parts)
    requires PartsOk(p)
  {
    (DigitsValue(p.whole) * Pow10(|p.frac|) + DigitsValue(p.frac)) * UnitBytes(p.unit) < Pow10(|p.frac|)
  }

  lemma FloorIsZeroIff(a: nat, b: nat)
    requires b > 0
    ensures FloorDiv(a, b) == 0 <==> a < b
  {
    if FloorDiv(a, b) > 0 {
      assert b <= FloorDiv(a, b) * b;
    }
  }

  lemma LimitIsZeroIff(p: Parts)
    requires PartsOk(p)
    ensures LimitBytes(p) == 0 <==> BelowOneByte(p)
  {
    ScaledBytesOf(p);
    FloorIsZeroIff(ScaledBytes(p), Pow10(|p.frac|));
  }

  lemma PositiveInteger(sign: string, digits: nat, scale: nat)
    ensures var d, unit := Decimal(SignedBy(sign, digits), scale), Pow10(scale);
            (d.IsInteger() && d.Floor() > 0 <==>
               digits % unit == 0 && sign != "-" && 0 < digits / unit < INFINITY_THRESHOLD)
            && (sign != "-" ==> d.Floor() == digits / unit)
  {
    QuotientSigns(digits, Pow10(scale));
  }

  lemma LastOfText(sp: Spelling)
    requires sp.Ok()
    ensures sp.Text() != ""
  {
    UnsignedStarts(sp);
  }

  /**
    Every decimal spelling of an explicit budget, in any padding: with W, F, k and e as in
    `DeclaredLengthOfSpelling` it counts exactly when it writes a positive whole number that does not
    overflow, and then it is that number.
   */
  lemma ExplicitBudgetOfSpelling(before: string, sp: Spelling, after: string)
    requires sp.Ok() && AllSpace(before) && AllSpace(after)
    ensures var k, e := |sp.frac|, sp.exponent.Value();
            var m := DigitsValue(sp.whole) * Pow10(k) + DigitsValue(sp.frac);
            var digits, unit := if e >= 0 then m * Pow10(e) else m, Pow10(if e >= 0 then k else k - e);
            ExplicitBudget(Some(before + sp.Text() + after)) ==
            if digits % unit == 0 && sp.sign != "-" && 0 < digits / unit < INFINITY_THRESHOLD
            then Some(digits / unit) else None
  {
    SpellingIsTrimmed(sp);
    TrimOfPadded(before, sp.Text(), after);
    MagnitudeOf(sp);
    NumberOfSpelling(sp, sp.Magnitude());
    PositiveInteger(sp.sign, sp.Magnitude().num, sp.Magnitude().scale);
    LastOfText(sp);
  }

  /**
    When is the resolved budget 0, so that every request with a body is refused? Exactly when no
    positive integer is given explicitly and the body limit denotes less than one byte, which the
    pattern accepts although its description asks for a positive number.
   */
  lemma BudgetIsZeroIff(budgetEnv: Option<string>, limitEnv: Option<string>)
    ensures ResolveInflightBodyBudgetBytes(budgetEnv, limitEnv) == 0 <==>
            && ExplicitBudget(budgetEnv).None?
            && limitEnv.Some?
            && var p := SplitLimit(Trim(limitEnv.value));
               p.Some? && BelowOneByte(p.value)
  {
    ResolvedLimitAlwaysParses(limitEnv);
    if limitEnv.Some? && SplitLimit(Trim(limitEnv.value)).Some? {
      var p := SplitLimit(Trim(limitEnv.value)).value;
      LimitIsZeroIff(p);
    }
  }

  /** The limit "0" is such a one. */
  lemma ZeroLimitGivesZeroBudget()
    ensures ResolveInflightBodyBudgetBytes(None, Some("0")) == 0
  {
    assert Spells("0", "0", "", "", "");
    ScannerFindsPieces("0", "0", "", "", "");
    TrimOfTrimmed("0");
    assert "0" + "" == "0" && "0"[..0] == "";
    assert DigitsValue("0") == 0;
    BudgetIsZeroIff(None, Some("0"));
  }
}
