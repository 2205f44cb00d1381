/** The provider's rate document as the converter holds it in `data`, and the
    currency lookup that convert_any_currency performs over its `rates`. */
module RateTables {
  import opened Text

  datatype Option<T> = None | Some(value: T)

  /** One entry of `rates`: a currency code and its rate against the
      provider's base currency. */
  datatype Rate = Rate(code: string, value: real)

  /** The document: when the provider published it (seconds since the epoch)
      and its rates in document order, which is the order Python's dict keeps
      and the order every loop over `rates` follows. */
  datatype RateTable = RateTable(timestamp: int, rates: seq<Rate>)

  /** Index of the last entry whose code contains `text`, if any. */
  function LastMatch(rates: seq<Rate>, text: string): (r: Option<nat>)
    ensures r.Some? ==>
      r.value < |rates| && Contains(rates[r.value].code, text) &&
      forall k :: r.value < k < |rates| ==> !Contains(rates[k].code, text)
    ensures r.None? <==> forall k :: 0 <= k < |rates| ==> !Contains(rates[k].code, text)
  {
    if rates == [] then None
    else if Contains(rates[|rates| - 1].code, text) then Some(|rates| - 1)
    else LastMatch(rates[..|rates| - 1], text)
  }

  /** The rate a scan over `rates` ends with: the value of the last entry whose
      code contains `text`, or the sentinel 0 when no code does. */
  function Lookup(rates: seq<Rate>, text: string): (rate: real)
    ensures (forall k :: 0 <= k < |rates| ==> !Contains(rates[k].code, text)) ==> rate == 0.0
    ensures rate != 0.0 ==> exists k :: 0 <= k < |rates| && rates[k].value == rate
    ensures (exists k :: 0 <= k < |rates| && Contains(rates[k].code, text)) ==>
      exists k :: 0 <= k < |rates| && Contains(rates[k].code, text) && rates[k].value == rate
  {
    match LastMatch(rates, text)
    case Some(i) => rates[i].value
    case None => 0.0
  }

  /** One more step of the scan: a later matching entry overrides the rate
      found so far, a later non-matching entry leaves it. */
  lemma LookupExtend(rates: seq<Rate>, rate: Rate, text: string)
    ensures Lookup(rates + [rate], text) ==
      if Contains(rate.code, text) then rate.value else Lookup(rates, text)
  {
    assert (rates + [rate])[..|rates|] == rates;
  }

  /** Last match wins: the entry at `j` decides the rate when it matches and
      no later entry does, whatever earlier entries match. */
  lemma LookupIsLastMatch(rates: seq<Rate>, text: string, j: nat)
    requires j < |rates| && Contains(rates[j].code, text)
    requires forall k :: j < k < |rates| ==> !Contains(rates[k].code, text)
    ensures Lookup(rates, text) == rates[j].value
  {
  }

  /** The lookup is by substring, so "USD" is also found inside "AUSD", and
      since the later entry wins it is AUSD's rate that is used. */
  lemma SubstringLookupExample()
    ensures Lookup([Rate("USD", 1.0), Rate("AUSD", 2.0)], "USD") == 2.0
  {
    var rates := [Rate("USD", 1.0), Rate("AUSD", 2.0)];
    assert "USD" <= "AUSD"[1..];
    assert Contains("AUSD", "USD");
    LookupIsLastMatch(rates, "USD", 1);
  }
}
