/** The CurrencyConverter object: it holds the current rate document in
    `data` and offers the four operations the form calls. */
module Converter {
  import opened Text
  import opened RateTables
  import opened Rounding
  import opened Conversion
  import opened Refresh

  class CurrencyConverter {
    var data: RateTable

    /** An object before its first load; only Open uses it. */
    constructor Unloaded()
      ensures data == RateTable(0, [])
    {
      data := RateTable(0, []);
    }

    /** Construction: the converter loads its data at once. A fetch that
        raises during that load means no converter is made (null). */
    static method Open(file: DataFile, provider: Provider, now: int) returns (c: CurrencyConverter?)
      modifies file, provider
      ensures var s := Load(RateTable(0, []), old(file.content), provider.feed, old(provider.served), now);
        (c == null <==> s.outcome == Raised) &&
        file.content == s.file && provider.served == s.served &&
        (c != null ==> fresh(c) && c.data == s.data)
    {
      c := new CurrencyConverter.Unloaded();
      var outcome := c.LoadCurrencyData(file, provider, now);
      if outcome == Raised {
        c := null;
      }
    }

    /** convert_any_currency: the validation cascade, then one scan of the
        rates for the from-rate and one for the to-rate. The second scan
        recomputes the result on every entry, and on its first entry gives up
        with an error when the from-rate is 0. A result still "" at the end is
        not shown (float("") raises ValueError, which is swallowed). */
    method ConvertAnyCurrency(fromCode: string, toCode: string, amount: string)
      returns (result: Returned, dialogs: seq<Dialog>)
      ensures Outcome(result, dialogs) == Convert(data.rates, fromCode, toCode, amount)
    {
      result := Blank;
      dialogs := [];
      if |fromCode| == 0 || |toCode| == 0 || |amount| == 0 {
        dialogs := [EmptyFieldsError];
      } else if !IsDigits(amount) {
        dialogs := [NotIntegerError];
      } else if IsDigits(fromCode) {
        dialogs := [UnknownCurrencyError];
      } else if IsDigits(toCode) {
        dialogs := [UnknownCurrencyError];
      } else {
        assert Validate(fromCode, toCode, amount) == None;
        var rateFrom := ScanFromRate(data.rates, fromCode);
        result, dialogs := ScanToRate(data.rates, toCode, rateFrom, amount);
        match result {
          case Blank =>
            assert Convert(data.rates, fromCode, toCode, amount) == Outcome(Blank, dialogs);
          case Number(raw) =>
            assert raw == RawResult(data.rates, fromCode, toCode, amount);
            assert Convert(data.rates, fromCode, toCode, amount) ==
              Outcome(Number(raw), [Verdict(raw, fromCode, toCode, amount)]);
            var shown := CheckResult(raw);
            if shown.Value() == 0.0 {
              dialogs := dialogs + [UnknownCurrencyError];
            } else {
              dialogs := dialogs + [ResultInfo(amount, fromCode, shown, toCode)];
            }
        }
      }
    }

    /** list_currencies: one "<code> - <rate>" line per entry, in table
        order; `render` is Python's text form of a rate. */
    method ListCurrencies(render: real -> string) returns (options: seq<string>)
      ensures |options| == |data.rates|
      ensures forall i :: 0 <= i < |data.rates| ==>
        options[i] == data.rates[i].code + " - " + render(data.rates[i].value)
    {
      options := [];
      var i := 0;
      while i < |data.rates|
        invariant 0 <= i <= |data.rates|
        invariant |options| == i
        invariant forall k :: 0 <= k < i ==>
          options[k] == data.rates[k].code + " - " + render(data.rates[k].value)
      {
        var entry := data.rates[i];
        options := options + [entry.code + " - " + render(entry.value)];
        i := i + 1;
      }
    }

    /** load_currency_data: read the file (fetching and writing a new table
        when it is missing), then refetch and rewrite when the table is stale.
        It returns the converter's table. */
    method LoadCurrencyData(file: DataFile, provider: Provider, now: int) returns (outcome: LoadOutcome)
      modifies this, file, provider
      ensures LoadState(data, file.content, provider.served, outcome) ==
        Load(old(data), old(file.content), provider.feed, old(provider.served), now)
    {
      var stored := file.Read();
      match stored {
        case Some(cached) =>
          data := cached;
        case None =>
          var response := provider.Fetch();
          if response.TransportError? {
            return Raised;
          }
          data := response.table;
          file.Write(data);
      }
      if IsStale(data, now) {
        var response := provider.Fetch();
        if response.TransportError? {
          return Raised;
        }
        data := response.table;
        file.Write(data);
        return Loaded(data, true);
      }
      return Loaded(data, false);
    }

    /** export_to_json: the file is overwritten with the current table. */
    method ExportToJson(file: DataFile)
      modifies file
      ensures file.content == Some(data)
    {
      file.Write(data);
    }
  }

  /** The first scan of convert_any_currency: every entry whose code contains
      `fromCode` overwrites the rate, which starts at 0. */
  method ScanFromRate(rates: seq<Rate>, fromCode: string) returns (rateFrom: real)
    ensures rateFrom == Lookup(rates, fromCode)
  {
    rateFrom := 0.0;
    var i := 0;
    while i < |rates|
      invariant 0 <= i <= |rates|
      invariant rateFrom == Lookup(rates[..i], fromCode)
    {
      if Contains(rates[i].code, fromCode) {
        rateFrom := rates[i].value;
      }
      LookupExtend(rates[..i], rates[i], fromCode);
      assert rates[..i + 1] == rates[..i] + [rates[i]];
      i := i + 1;
    }
    assert rates[..i] == rates;
  }

  /** The second scan: each entry may overwrite the to-rate and then the
      result is recomputed from it; a from-rate of 0 makes the first division
      fail, which shows one error and leaves the scan with the result still "". */
  method ScanToRate(rates: seq<Rate>, toCode: string, rateFrom: real, amount: string)
    returns (result: Returned, dialogs: seq<Dialog>)
    requires AllDigitChars(amount)
    ensures rates == [] ==> result == Blank && dialogs == []
    ensures rates != [] && rateFrom == 0.0 ==> result == Blank && dialogs == [UnknownCurrencyError]
    ensures rates != [] && rateFrom != 0.0 ==>
      dialogs == [] && result == Number(Lookup(rates, toCode) / rateFrom * DigitsValue(amount) as real)
  {
    result := Blank;
    dialogs := [];
    var rateTo := 0.0;
    var i := 0;
    while i < |rates|
      invariant 0 <= i <= |rates|
      invariant rateTo == Lookup(rates[..i], toCode) && dialogs == []
      invariant rateFrom == 0.0 ==> i == 0 && result == Blank
      invariant rateFrom != 0.0 ==> result == if i == 0 then Blank
        else Number(rateTo / rateFrom * DigitsValue(amount) as real)
    {
      if Contains(rates[i].code, toCode) {
        rateTo := rates[i].value;
      }
      if rateFrom == 0.0 {
        dialogs := [UnknownCurrencyError];
        break;
      }
      result := Number(rateTo / rateFrom * DigitsValue(amount) as real);
      LookupExtend(rates[..i], rates[i], toCode);
      assert rates[..i + 1] == rates[..i] + [rates[i]];
      i := i + 1;
    }
    assert rateFrom != 0.0 ==> rates[..i] == rates;
  }
}
