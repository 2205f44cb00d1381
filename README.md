# Currency converter core, modelled in Dafny

This project models the `CurrencyConverter` object of a small desktop currency
converter. The object keeps the provider's latest exchange-rate document
(`data`: a publication timestamp and an ordered list of code/rate entries). It
offers four operations:

- **convert_any_currency**: validates three strings typed into a form (from-code,
  to-code, amount). It finds each code's rate by a *substring* scan of the rate
  list, where the last match wins. It divides the two rates and multiplies by
  the amount. It rounds the result for display (check_result). It raises at
  most one dialog: a validation error, an error from inside the second scan
  when the from-rate is 0, or, after check_result, an error or the result.
  A valid request over an empty rate list raises none.
- **list_currencies**: builds the dropdown lines `"<code> - <rate>"`.
- **load_currency_data**: reads the cached document from the data file, or
  fetches it and writes it when the file is missing. It refetches and rewrites
  the document when it is stale.
- **export_to_json**: rewrites the data file with the current document.

Modules, one per concern of `main.py`:

- `Text` (text.dfy): `str.isdigit`, `int()` of a digit string, and the
  substring test `needle in hay`, with its positional characterisation.
- `RateTables` (rate_table.dfy): the document, and the last-match lookup
  (`Lookup`, specified through `LastMatch`).
- `Rounding` (rounding.dfy): check_result on exact reals, round-half-even to 6
  or 2 decimals.
- `Conversion` (conversion.dfy): `Convert`, the outcome of one request as a
  function (the dialogs raised and the value returned), with its properties.
- `Refresh` (refresh.dfy): the data file and the provider as small classes,
  and `Load`, the outcome of one load as a function, with its properties.
- `Converter` (currency_converter.dfy): the class `CurrencyConverter` with
  its `data` field. Its methods keep the source's loops and state updates.
  ConvertAnyCurrency and LoadCurrencyData are proved equal to `Convert` and
  `Load`. ListCurrencies and ExportToJson are specified directly by
  expressions over `data`.

Dialogs (`messagebox`) are values of `Dialog`, collected in the order raised.
The value convert_any_currency returns is `Blank` (its initial `""`) or
`Number(x)`.

Points where the code behaves differently from what one might expect of it:

- **Staleness.** The document is not compared with midnight of the current
  UTC day. The code compares the document's timestamp with the *current* time, whose local
  wall-clock fields are read as UTC (main.py:85-86). The model takes that
  instant as the integer `now` and calls the document stale iff
  `timestamp < now`. As a consequence, a freshly fetched document published
  before `now` is stale again at the next load (`ReloadWhenStaleFetchesAgain`).
- **Empty rate list.** A missing from-rate does not always give the
  invalid-currency error. With an empty rate list, neither scan
  runs, the result stays `""`, and `float("")` raises a ValueError that is
  swallowed: no dialog at all (`DialogCount`).
- **Precision threshold.** The threshold is not applied to the *magnitude* of
  the result. The code tests `result <= 9.999000099990002e-05`, so zero and negative results
  also take the six-decimal branch (`Rounding.Places`).

## Model

| member | source | states |
|---|---|---|
| Text.IsDigits | main.py:38-44 | `str.isdigit` on ASCII digits: non-empty and every character '0'..'9' (a predicate without ensures; used by Conversion.Validate) |
| Text.DigitsValue | main.py:55 | `int(amount)` of a digit string, most significant digit first (no ensures of its own; characterised by Text.DigitsValueZeroIff) |
| Text.DigitsValueZeroIff | main.py:55 | `int(amount)` is 0 exactly when every digit of the amount is '0' |
| Text.Contains | main.py:49-52 | `code in key` (no ensures of its own; characterised by Text.ContainsIffOccurs and Text.LongerNotContained) |
| Text.LongerNotContained | main.py:49 | a code is never found inside a shorter key |
| Text.ContainsHasPosition | main.py:49 | when `code in key` holds, the code occurs in the key at some position |
| Text.PositionIsContained | main.py:49 | an occurrence of the code at any position of the key makes `code in key` true |
| Text.ContainsIffOccurs | main.py:49-52 | the substring test holds exactly when the code occurs contiguously somewhere in the key |
| RateTables.LastMatch | main.py:48-50 | the index found is an entry whose key contains the code, and no later key does; none is found exactly when no key contains it |
| RateTables.Lookup | main.py:46-53 | the rate is 0 when no key contains the code; when some key contains it, the rate is that of some entry whose key contains it; a non-zero rate is always some entry's rate |
| RateTables.LookupExtend | main.py:48-50 | one step of the scan: a later matching entry overrides the rate so far, a non-matching one keeps it |
| RateTables.LookupIsLastMatch | main.py:48-53 | last match wins: the rate is that of the last key containing the code, whatever earlier keys match |
| RateTables.SubstringLookupExample | main.py:48-50 | "USD" is found inside "AUSD", and the later AUSD entry supplies the rate |
| Rounding.RoundHalfEven | main.py:30-32 | the integer returned is the nearest one, a tie going to the even neighbour |
| Rounding.NearestEvenUnique | main.py:30-32 | that nearest-even integer is unique, so rounding is fully determined |
| Rounding.RoundedZeroIff | main.py:61 | rounding to an integer gives 0 exactly on [-1/2, 1/2] |
| Rounding.Places | main.py:29-32 | 6 decimals for a result at most 9.999000099990002e-05, 2 otherwise (no ensures; used by Rounding.CheckResult and Rounding.CheckResultZeroIff) |
| Rounding.CheckResult | main.py:28-32 | a result at most 9.999000099990002e-05 keeps 6 decimals and any other keeps 2; the shown value is the nearest such decimal |
| Rounding.CheckResultZeroIff | main.py:59-62 | the rounded value is 0 exactly when the result is within 5e-7 of 0 (six-decimal branch) or at most 0.005 (two-decimal branch) |
| Conversion.Validate | main.py:36-44 | the request passes exactly when no field is empty, the amount is all digits and neither code is all digits; an empty field always yields the empty-fields error |
| Conversion.RawResult | main.py:55 | the cross rate times `int(amount)` is 0 exactly when the to-rate is 0 or the amount is 0 |
| Conversion.Verdict | main.py:59-65 | the result dialog is shown exactly when the result does not round to 0, and then shows check_result of it; otherwise the invalid-currency error |
| Conversion.Convert | main.py:34-68 | a number is returned only after validation passes over a non-empty rate list, and at most one dialog is raised |
| Conversion.EmptyFieldWins | main.py:36-37 | an empty field gives the empty-fields error and a "" result, whatever the other inputs and rates |
| Conversion.ValidationOrder | main.py:38-44 | with all fields filled in: a non-digit amount, then an all-digit from-code, then an all-digit to-code, each give one error and a "" result |
| Conversion.DecimalAmountRefused | main.py:38-40 | the amount "12.5" gives the not-integer error |
| Conversion.NumberIffFromRateFound | main.py:51-68 | a number is returned exactly when validation passes and the from-rate is non-zero |
| Conversion.DialogCount | main.py:34-68 | at most one dialog, and none exactly when a valid request meets an empty rate list |
| Conversion.UnmatchedFromRefused | main.py:54-58 | a from-rate of 0 over a non-empty list (no key contains the code, or the last key that does has rate 0) gives exactly one invalid-currency error and a "" result |
| Conversion.UnmatchedToRefused | main.py:52-62 | a to-code found in no key gives the result 0 and the invalid-currency error, not a result dialog |
| Conversion.ZeroAmountRefused | main.py:55-62 | an all-zero amount gives the result 0 and the invalid-currency error |
| Conversion.SameCurrencyIsIdentity | main.py:46-55 | converting a code into itself returns the amount exactly |
| Conversion.ResultShownIff | main.py:59-65 | the result dialog appears exactly when validation passes, the from-rate is non-zero and the result does not round to 0; it shows the rounded result, which is non-zero |
| Conversion.UsdEurLookups | main.py:46-53 | with entries USD 1.0 and EUR 0.9, the codes find their own rates |
| Conversion.UsdToEurExample | main.py:34-68 | 100 USD returns 90 and shows 90 EUR (two-decimal branch) |
| Conversion.EurToUsdExample | main.py:34-68 | 1 EUR is shown as 1.11 USD |
| Refresh.DataFile.Read | main.py:77-80 | reading yields the file's content, or nothing when the file is missing |
| Refresh.DataFile.Write | main.py:82-83 | writing replaces the file's whole content with the table |
| Refresh.Provider.Fetch | main.py:15-26 | each request answers the provider's next response and is counted |
| Refresh.IsStale | main.py:84-86 | the document is stale when its timestamp is before `now` (a predicate without ensures; used by Refresh.RefreshIffStale) |
| Refresh.CheckFreshness | main.py:84-93 | one request exactly when the table is stale; it raises exactly when that request fails; a returning check returns data, and the file is rewritten with data only after a refresh |
| Refresh.Load | main.py:76-93 | a load makes at most two requests, and two only when the file was missing |
| Refresh.LoadedDataIsSaved | main.py:76-93 | a load that returns returns the converter's table, and the file then holds exactly that table |
| Refresh.RefreshIffStale | main.py:84-93 | with the file present (and the provider answering if asked), the provider is asked once exactly when the cached timestamp is before now; the fetched table then replaces data and the file and is announced, otherwise both keep the cached table |
| Refresh.MissingFileFetches | main.py:77-93 | a missing file is fetched and written, and the fetched table is checked for staleness like a cached one (and refetched and rewritten when stale) |
| Refresh.FailedFetchRaises | main.py:76-87 | a failing fetch raises on each of its three paths: for a missing file data and the file are unchanged; for a stale cached table data holds that table and the file is unchanged; for a stale table just fetched for a missing file data and the file both hold that first table |
| Refresh.RaisedIffLastFetchFailed | main.py:76-93 | a load raises exactly when it made a request and its last request failed, every earlier request having been answered |
| Refresh.ReloadWhenFreshIsQuiet | main.py:84-93 | loading again right after a load that ended with a fresh table changes nothing and makes no request |
| Refresh.ReloadWhenStaleFetchesAgain | main.py:84-87 | when the loaded table is still older than now, the next load at the same now requests again |
| Refresh.ExportThenLoad | main.py:76-98 | after an export, a load with a non-stale table returns the exported table without a request |
| Converter.CurrencyConverter.Open | main.py:12-13 | constructing a converter runs a load; no converter results when that load raises |
| Converter.CurrencyConverter.ConvertAnyCurrency | main.py:34-68 | the cascade, the two scans and the final check return exactly the value and the dialogs of `Convert` over `data` |
| Converter.ScanFromRate | main.py:46-50 | the first scan ends with the last-match rate of the from-code (0 when unmatched) |
| Converter.ScanToRate | main.py:51-58 | the second scan gives "" and no dialog on an empty list, "" and one error when the from-rate is 0, and otherwise the last-match to-rate over the from-rate times the amount |
| Converter.CurrencyConverter.ListCurrencies | main.py:70-74 | one line per entry, in table order, line i being key i, " - ", rate i; `data` is not changed |
| Converter.CurrencyConverter.LoadCurrencyData | main.py:76-93 | data, the file and the request count end as `Load` says, and the outcome returns data |
| Converter.CurrencyConverter.ExportToJson | main.py:95-98 | the file then holds the current table; `data` is not changed |

## Left out

- The Tk user interface (`main`, main.py:104-160): widgets, layout, the event loop, the start-up label showing the timestamp, and the `.upper()` applied to the codes before the call. The model takes the codes as passed.
- The HTTP request in `fetch_currency_data` (main.py:15-26): the URL, the `app_id` read from the environment, headers and JSON decoding. The provider is an object whose n-th request returns a given response; a missing `app_id` or a failed request is its `TransportError`.
- JSON (de)serialisation and file I/O: the file holds a whole table or nothing. Read errors other than a missing file (unreadable or malformed JSON) are not modelled. Fields of the document other than `timestamp` and `rates` are not kept.
- The clock and time-zone computation (main.py:85-86): the comparison instant is the parameter `now`.
- The text of the dialogs and the `print` in export_to_json: a dialog is represented by its kind and, for a result, by the values it shows.
- Converter.CurrencyConverter.ListCurrencies: the text form of a float rate is a parameter `render`, not Python's float formatting.
- Floating point: rates and results are exact reals. Rounding is exact round-half-even on the real result, not on the nearest binary double. Overflow of `float * int` for amounts beyond the float range is not modelled.
- Text.IsDigits: only '0'..'9' are digits. `str.isdigit` also accepts other Unicode digits. Of these, decimal digits such as fullwidth or Arabic-Indic ones are converted by `int()`, so for such an amount the code converts where the model gives the not-integer error; other digits such as '²' make `int()` raise. A code made only of such digits is refused by the code, while the model looks it up.
- Rounding.CheckResult: the shown value is a `Decimal` that keeps its number of places; `round(x, 2)` returns a float, whose text drops trailing zeros (90 is shown as "90.0", not "90.00").
- A round trip (convert A to B, then the result back to A) is not a property of the code: a rounded result such as "1.11" is refused by the digit check on the amount. Only the raw same-currency identity is proved.
