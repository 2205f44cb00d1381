/** What convert_any_currency does with one request, as a function of the
    rate list and the three strings typed into the form: which dialogs it
    raises and what it returns. */
module Conversion {
  import opened Text
  import opened RateTables
  import opened Rounding

  /** The modal dialogs a conversion can raise. */
  datatype Dialog =
    | EmptyFieldsError      // a field was left empty
    | NotIntegerError       // the amount is not a whole number
    | UnknownCurrencyError  // asks for a listed currency: bad code, no rate, or a zero result
    | ResultInfo(amount: string, fromCode: string, shown: Decimal, toCode: string)

  /** The value convert_any_currency returns: its initial "" or the float it computed. */
  datatype Returned = Blank | Number(value: real)

  datatype Outcome = Outcome(returned: Returned, dialogs: seq<Dialog>)

  /** The checks made before any lookup, in order; the first that fails
      decides the error dialog. */
  function Validate(fromCode: string, toCode: string, amount: string): (error: Option<Dialog>)
    ensures error.None? <==>
      |fromCode| > 0 && |toCode| > 0 && IsDigits(amount) && !IsDigits(fromCode) && !IsDigits(toCode)
    ensures error == Some(EmptyFieldsError) <==> |fromCode| == 0 || |toCode| == 0 || |amount| == 0
  {
    if |fromCode| == 0 || |toCode| == 0 || |amount| == 0 then Some(EmptyFieldsError)
    else if !IsDigits(amount) then Some(NotIntegerError)
    else if IsDigits(fromCode) then Some(UnknownCurrencyError)
    else if IsDigits(toCode) then Some(UnknownCurrencyError)
    else None
  }

  /** The cross rate times the amount, once both codes have been looked up. */
  function RawResult(rates: seq<Rate>, fromCode: string, toCode: string, amount: string): (raw: real)
    requires AllDigitChars(amount) && Lookup(rates, fromCode) != 0.0
    ensures raw == 0.0 <==> Lookup(rates, toCode) == 0.0 || DigitsValue(amount) == 0
  {
    var rateTo, rateFrom, n := Lookup(rates, toCode), Lookup(rates, fromCode), DigitsValue(amount) as real;
    ScaledQuotientZeroIff(rateTo, rateFrom, n);
    rateTo / rateFrom * n
  }

  /** A cross rate times an amount is 0 exactly when the to-rate or the
      amount is. */
  lemma ScaledQuotientZeroIff(rateTo: real, rateFrom: real, n: real)
    requires rateFrom != 0.0
    ensures rateTo / rateFrom * n == 0.0 <==> rateTo == 0.0 || n == 0.0
  {
  }

  /** The dialog shown for a computed result: an error when it rounds to 0,
      otherwise the result rounded by check_result. */
  function Verdict(raw: real, fromCode: string, toCode: string, amount: string): (d: Dialog)
    ensures d.ResultInfo? <==> !RoundsToZero(raw)
    ensures d.ResultInfo? ==> d == ResultInfo(amount, fromCode, CheckResult(raw), toCode)
    ensures !d.ResultInfo? ==> d == UnknownCurrencyError
  {
    CheckResultZeroIff(raw);
    var shown := CheckResult(raw);
    if shown.Value() == 0.0 then UnknownCurrencyError
    else ResultInfo(amount, fromCode, shown, toCode)
  }

  /** convert_any_currency. A valid request over an empty list raises no
      dialog at all; a zero (or missing) from-rate stops at the first pass of
      the to-rate scan with one error and leaves "" as the result. */
  function Convert(rates: seq<Rate>, fromCode: string, toCode: string, amount: string): (out: Outcome)
    ensures out.returned.Number? ==> Validate(fromCode, toCode, amount) == None && rates != []
    ensures |out.dialogs| <= 1
  {
    match Validate(fromCode, toCode, amount)
    case Some(error) => Outcome(Blank, [error])
    case None =>
      if rates == [] then Outcome(Blank, [])
      else if Lookup(rates, fromCode) == 0.0 then Outcome(Blank, [UnknownCurrencyError])
      else
        var raw := RawResult(rates, fromCode, toCode, amount);
        Outcome(Number(raw), [Verdict(raw, fromCode, toCode, amount)])
  }

  /** An empty field gives the empty-fields error whatever the other inputs
      and the rates are, and nothing is computed. */
  lemma EmptyFieldWins(rates: seq<Rate>, fromCode: string, toCode: string, amount: string)
    requires |fromCode| == 0 || |toCode| == 0 || |amount| == 0
    ensures Convert(rates, fromCode, toCode, amount) == Outcome(Blank, [EmptyFieldsError])
  {
  }

  /** With every field filled in, the amount is checked first, then the
      from-code, then the to-code; each failure is one dialog and a "" result. */
  lemma ValidationOrder(rates: seq<Rate>, fromCode: string, toCode: string, amount: string)
    requires |fromCode| > 0 && |toCode| > 0 && |amount| > 0
    ensures !IsDigits(amount) ==>
      Convert(rates, fromCode, toCode, amount) == Outcome(Blank, [NotIntegerError])
    ensures IsDigits(amount) && IsDigits(fromCode) ==>
      Convert(rates, fromCode, toCode, amount) == Outcome(Blank, [UnknownCurrencyError])
    ensures IsDigits(amount) && !IsDigits(fromCode) && IsDigits(toCode) ==>
      Convert(rates, fromCode, toCode, amount) == Outcome(Blank, [UnknownCurrencyError])
    ensures IsDigits(amount) && !IsDigits(fromCode) && !IsDigits(toCode) ==>
      Validate(fromCode, toCode, amount) == None
  {
  }

  /** An amount such as "12.5" is refused before the codes are looked at. */
  lemma DecimalAmountRefused(rates: seq<Rate>, fromCode: string, toCode: string)
    requires |fromCode| > 0 && |toCode| > 0
    ensures Convert(rates, fromCode, toCode, "12.5") == Outcome(Blank, [NotIntegerError])
  {
    assert !IsDigitChar("12.5"[2]);
  }

  /** A number is returned exactly when the request passes validation and the
      from-code finds a non-zero rate; otherwise the result stays "". */
  lemma NumberIffFromRateFound(rates: seq<Rate>, fromCode: string, toCode: string, amount: string)
    ensures Convert(rates, fromCode, toCode, amount).returned.Number? <==>
      Validate(fromCode, toCode, amount) == None && Lookup(rates, fromCode) != 0.0
  {
    if rates == [] {
      assert LastMatch(rates, fromCode) == None;
    }
  }

  /** At most one dialog, and none exactly when a valid request meets an empty
      rate list. */
  lemma DialogCount(rates: seq<Rate>, fromCode: string, toCode: string, amount: string)
    ensures |Convert(rates, fromCode, toCode, amount).dialogs| <= 1
    ensures Convert(rates, fromCode, toCode, amount).dialogs == [] <==>
      Validate(fromCode, toCode, amount) == None && rates == []
  {
  }

  /** A from-rate of 0 over a non-empty list (no code contains the from-code,
      or the last one that does has rate 0) gives exactly one invalid-currency
      error and no number. */
  lemma UnmatchedFromRefused(rates: seq<Rate>, fromCode: string, toCode: string, amount: string)
    requires Validate(fromCode, toCode, amount) == None && rates != []
    requires Lookup(rates, fromCode) == 0.0
    ensures Convert(rates, fromCode, toCode, amount) == Outcome(Blank, [UnknownCurrencyError])
  {
  }

  /** A to-code that no code contains makes the result 0, which is reported as
      an invalid currency rather than shown. */
  lemma UnmatchedToRefused(rates: seq<Rate>, fromCode: string, toCode: string, amount: string)
    requires Validate(fromCode, toCode, amount) == None && Lookup(rates, fromCode) != 0.0
    requires forall k :: 0 <= k < |rates| ==> !Contains(rates[k].code, toCode)
    ensures Convert(rates, fromCode, toCode, amount) == Outcome(Number(0.0), [UnknownCurrencyError])
  {
    CheckResultZeroIff(0.0);
  }

  /** An amount of zero ("0", "00", ...) is never shown as a result. */
  lemma ZeroAmountRefused(rates: seq<Rate>, fromCode: string, toCode: string, amount: string)
    requires Validate(fromCode, toCode, amount) == None && Lookup(rates, fromCode) != 0.0
    requires forall i :: 0 <= i < |amount| ==> amount[i] == '0'
    ensures Convert(rates, fromCode, toCode, amount) == Outcome(Number(0.0), [UnknownCurrencyError])
  {
    DigitsValueZeroIff(amount);
    assert RawResult(rates, fromCode, toCode, amount) == 0.0;
    CheckResultZeroIff(0.0);
  }

  /** Converting a currency into itself returns the amount unchanged. */
  lemma SameCurrencyIsIdentity(rates: seq<Rate>, code: string, amount: string)
    requires Validate(code, code, amount) == None && Lookup(rates, code) != 0.0
    ensures Convert(rates, code, code, amount).returned == Number(DigitsValue(amount) as real)
  {
    var rate := Lookup(rates, code);
    var n := DigitsValue(amount) as real;
    assert rate / rate * n == n by {
      assert rate / rate == 1.0 by { assert rate * 1.0 == rate; }
    }
  }

  /** The result dialog appears exactly when validation passes, the from-rate
      is non-zero and the raw result does not round to 0; it then shows the
      rounded raw result, which is not 0. */
  lemma ResultShownIff(rates: seq<Rate>, fromCode: string, toCode: string, amount: string)
    ensures var out := Convert(rates, fromCode, toCode, amount);
      out.dialogs != [] && out.dialogs[0].ResultInfo? <==>
      Validate(fromCode, toCode, amount) == None && Lookup(rates, fromCode) != 0.0 &&
      !RoundsToZero(RawResult(rates, fromCode, toCode, amount))
    ensures var out := Convert(rates, fromCode, toCode, amount);
      out.dialogs != [] && out.dialogs[0].ResultInfo? ==>
      out.dialogs[0].shown == CheckResult(RawResult(rates, fromCode, toCode, amount)) &&
      out.dialogs[0].shown.Value() != 0.0
  {
    if Validate(fromCode, toCode, amount) == None && Lookup(rates, fromCode) != 0.0 {
      CheckResultZeroIff(RawResult(rates, fromCode, toCode, amount));
    }
  }

  /** The two-entry list used by the examples below: USD at 1.0, EUR at 0.9. */
  lemma UsdEurLookups()
    ensures Lookup([Rate("USD", 1.0), Rate("EUR", 0.9)], "USD") == 1.0
    ensures Lookup([Rate("USD", 1.0), Rate("EUR", 0.9)], "EUR") == 0.9
  {
    var rates := [Rate("USD", 1.0), Rate("EUR", 0.9)];
    assert Contains("USD", "USD") && Contains("EUR", "EUR");
    assert !Contains("EUR", "USD") by {
      assert "USD"[0] != "EUR"[0];
      LongerNotContained("EUR"[1..], "USD");
    }
    LookupIsLastMatch(rates, "USD", 0);
    LookupIsLastMatch(rates, "EUR", 1);
  }

  /** 100 USD returns 90 and is shown as 90 EUR (two decimal places, Decimal(9000, 2)). */
  lemma UsdToEurExample()
    ensures Convert([Rate("USD", 1.0), Rate("EUR", 0.9)], "USD", "EUR", "100") ==
      Outcome(Number(90.0), [ResultInfo("100", "USD", Decimal(9000, 2), "EUR")])
  {
    UsdEurLookups();
    assert DigitsValue("100") == 100 by {
      assert "100"[..2] == "10" && "10"[..1] == "1";
    }
    assert RawResult([Rate("USD", 1.0), Rate("EUR", 0.9)], "USD", "EUR", "100") == 90.0;
    assert Pow10(2) == 100.0;
    var shown := CheckResult(90.0);
    NearestEvenUnique(9000.0, shown.units, 9000);
  }

  /** 1 EUR is shown as 1.11 USD (1/0.9 rounded to two decimals). */
  lemma EurToUsdExample()
    ensures Convert([Rate("USD", 1.0), Rate("EUR", 0.9)], "EUR", "USD", "1") ==
      Outcome(Number(10.0 / 9.0), [ResultInfo("1", "EUR", Decimal(111, 2), "USD")])
  {
    UsdEurLookups();
    assert DigitsValue("1") == 1;
    assert Pow10(2) == 100.0;
    var shown := CheckResult(10.0 / 9.0);
    assert NearestEven(1000.0 / 9.0, 111);
    NearestEvenUnique(1000.0 / 9.0, shown.units, 111);
  }
}
