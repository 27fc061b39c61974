/** Quote amounts: exact two-decimal strings, their minor units, and the two fee checks. */
module Money {
  import opened Sequences
  import opened Text
  import opened DecimalText

  datatype RangeError = RangeError

  /** MONEY_AMOUNT_PATTERN: at most twelve digits without a superfluous zero, a point, two digits. */
  predicate IsAmount(s: string) {
    |s| >= 4 && CanonicalNat(s[..|s| - 3]) && |s| - 3 <= 12 && s[|s| - 3] == '.' && AllDigits(s[|s| - 2..])
  }

  /** `value.split(".")[0]` and `[1]` of an amount. */
  function Whole(s: string): string
    requires IsAmount(s)
  {
    s[..|s| - 3]
  }

  function Fraction(s: string): string
    requires IsAmount(s)
  {
    s[|s| - 2..]
  }

  function ToMinorUnits(s: string): Result<nat, RangeError> {
    if IsAmount(s) then Ok(NatValue(Whole(s)) * 100 + NatValue(Fraction(s))) else Err(RangeError)
  }

  /** The number PostgreSQL reads: `s::numeric`. */
  function Numeric(s: string): real
    requires IsAmount(s)
  {
    NatValue(Whole(s)) as real + NatValue(Fraction(s)) as real / 100.0
  }

  function AmountText(n: nat): string {
    NatText(n / 100) + "." + [Digit(n / 10 % 10), Digit(n % 10)]
  }

  // ---- A bijection onto 0 .. 10^14 - 1 ----

  const LIMIT: nat := TenToThe(14)

  lemma {:induction false} DigitsBound(s: string)
    requires AllDigits(s)
    ensures NatValue(s) < TenToThe(|s|)
    decreases |s|
  {
    if s != "" { DigitsBound(s[..|s| - 1]); }
  }

  lemma {:induction false} PowersGrow(m: nat, n: nat)
    requires m <= n
    ensures TenToThe(m) <= TenToThe(n)
  {
    if m < n { PowersGrow(m, n - 1); }
  }

  lemma {:induction false} NatTextLength(n: nat, digits: nat)
    requires n < TenToThe(digits) && digits > 0
    ensures |NatText(n)| <= digits
  {
    if n >= 10 {
      NatTextLength(n / 10, digits - 1);
    }
  }

  lemma TwoDigits(s: string)
    requires |s| == 2 && AllDigits(s)
    ensures NatValue(s) == DigitValue(s[0]) * 10 + DigitValue(s[1]) < 100
  {
    var first := s[..1];
    assert first[..0] == "" && NatValue("") == 0;
    assert NatValue(first) == DigitValue(s[0]);
  }

  lemma Powers()
    ensures TenToThe(2) == 100 && LIMIT == TenToThe(12) * 100
  {
    assert TenToThe(14) == 10 * TenToThe(13) == 100 * TenToThe(12);
    assert TenToThe(2) == 10 * TenToThe(1) == 100 * TenToThe(0);
  }

  /** Every count of minor units below 10^14 has an amount, which reads back as that count. */
  lemma PrintThenParse(n: nat)
    requires n < LIMIT
    ensures ToMinorUnits(AmountText(n)) == Ok(n)
  {
    Powers();
    var whole, fraction := NatText(n / 100), [Digit(n / 10 % 10), Digit(n % 10)];
    NatTextIsCanonical(n / 100);
    NatTextLength(n / 100, 12);
    AmountParts(whole, fraction);
    TwoDigits(fraction);
    Hundreds(n);
  }

  lemma Hundreds(n: nat)
    ensures n == n / 100 * 100 + n / 10 % 10 * 10 + n % 10
  {
    assert n / 10 == n / 100 * 10 + n / 10 % 10;
  }

  lemma AmountParts(whole: string, fraction: string)
    requires CanonicalNat(whole) && |whole| <= 12 && |fraction| == 2 && AllDigits(fraction)
    ensures var s := whole + "." + fraction;
            IsAmount(s) && Whole(s) == whole && Fraction(s) == fraction
  {
    var s := whole + "." + fraction;
    assert s[..|s| - 3] == whole && s[|s| - 2..] == fraction;
  }

  /** Every amount is the text of its own minor units, and those stay below 10^14: no two amounts share a value. */
  lemma ParseThenPrint(s: string)
    requires IsAmount(s)
    ensures ToMinorUnits(s).value < LIMIT && AmountText(ToMinorUnits(s).value) == s
  {
    var whole, fraction := Whole(s), Fraction(s);
    TwoDigits(fraction);
    CanonicalIsNatText(whole);
    DigitsBound(whole);
    PowersGrow(|whole|, 12);
    Powers();
    SplitHundreds(NatValue(whole), DigitValue(fraction[0]), DigitValue(fraction[1]));
    assert s == whole + "." + fraction;
    assert fraction == [Digit(DigitValue(fraction[0])), Digit(DigitValue(fraction[1]))];
  }

  lemma SplitHundreds(whole: nat, tens: nat, ones: nat)
    requires tens < 10 && ones < 10
    ensures var n := whole * 100 + tens * 10 + ones;
            n / 100 == whole && n / 10 % 10 == tens && n % 10 == ones
  {
  }

  /** Minor units order amounts as the numbers they spell. */
  lemma MinorUnitsAreHundredths(s: string, t: string)
    requires IsAmount(s) && IsAmount(t)
    ensures ToMinorUnits(s).value as real == Numeric(s) * 100.0
    ensures ToMinorUnits(s).value < ToMinorUnits(t).value <==> Numeric(s) < Numeric(t)
    ensures Numeric(s) == Numeric(t) <==> s == t
  {
    if Numeric(s) == Numeric(t) {
      ParseThenPrint(s);
      ParseThenPrint(t);
    }
  }

  // ---- The two fee checks ----

  datatype FeeBreakdown = FeeBreakdown(professionalFee: string, processingFee: string, platformCommission: string)

  function IsZeroMoneyAmount(s: string): Result<bool, RangeError> {
    var units :- ToMinorUnits(s);
    Ok(units == 0)
  }

  /** The application's check. A commission other than zero is refused before the fees are read. */
  function QuoteFeeBreakdownMatchesTotal(total: string, fees: FeeBreakdown): Result<bool, RangeError> {
    var zero :- IsZeroMoneyAmount(fees.platformCommission);
    if !zero then Ok(false)
    else
      var professional :- ToMinorUnits(fees.professionalFee);
      var processing :- ToMinorUnits(fees.processingFee);
      var all :- ToMinorUnits(total);
      Ok(professional + processing == all)
  }

  /** payment_quote_breakdown_check, in numeric arithmetic. */
  predicate BreakdownCheck(amount: real, fees: FeeBreakdown) {
    && IsAmount(fees.professionalFee) && IsAmount(fees.processingFee) && IsAmount(fees.platformCommission)
    && Numeric(fees.professionalFee) >= 0.0 && Numeric(fees.processingFee) >= 0.0
    && Numeric(fees.platformCommission) == 0.0
    && amount == Numeric(fees.professionalFee) + Numeric(fees.processingFee) + Numeric(fees.platformCommission)
  }

  /** The application accepts exactly the quotes whose total is an amount and which the database accepts. */
  lemma FeeChecksAgree(total: string, fees: FeeBreakdown)
    ensures QuoteFeeBreakdownMatchesTotal(total, fees) == Ok(true) <==>
            IsAmount(total) && BreakdownCheck(Numeric(total), fees)
  {
    if IsAmount(total) { MinorUnitsAreHundredths(total, total); }
    if IsAmount(fees.professionalFee) { MinorUnitsAreHundredths(fees.professionalFee, fees.professionalFee); }
    if IsAmount(fees.processingFee) { MinorUnitsAreHundredths(fees.processingFee, fees.processingFee); }
    if IsAmount(fees.platformCommission) { MinorUnitsAreHundredths(fees.platformCommission, fees.platformCommission); }
  }
}
