/** load_currency_data: reading the cached rate document, fetching a new one
    when the file is missing or the cached one is stale, and writing it back.
    The data file and the rate provider are objects passed in; a fetch that
    fails (a transport error or a non-2xx status) raises out of the load. */
module Refresh {
  import opened RateTables

  /** What one request to the provider yields. */
  datatype Response = Delivered(table: RateTable) | TransportError

  /** The data file: absent, or holding the last document written to it. */
  class DataFile {
    var content: Option<RateTable>

    constructor (content: Option<RateTable>)
      ensures this.content == content
    {
      this.content := content;
    }

    /** Opening and parsing the file; None stands for FileNotFoundError. */
    method Read() returns (stored: Option<RateTable>)
      ensures stored == content
    {
      stored := content;
    }

    /** Rewriting the whole file with `table`. */
    method Write(table: RateTable)
      modifies this
      ensures content == Some(table)
    {
      content := Some(table);
    }
  }

  /** The remote provider: its n-th request (counting from 0) answers feed(n). */
  class Provider {
    const feed: nat -> Response
    var served: nat

    constructor (feed: nat -> Response)
      ensures this.feed == feed && served == 0
    {
      this.feed := feed;
      served := 0;
    }

    method Fetch() returns (response: Response)
      modifies this
      ensures response == feed(old(served)) && served == old(served) + 1
    {
      response := feed(served);
      served := served + 1;
    }
  }

  /** How a load ends: it returns the converter's table, saying whether the
      "data has been updated" notice was shown, or a failed fetch raises. */
  datatype LoadOutcome = Loaded(table: RateTable, notified: bool) | Raised

  /** The converter's table, the file's content and the number of requests
      made to the provider once a load has ended. */
  datatype LoadState = LoadState(data: RateTable, file: Option<RateTable>, served: nat, outcome: LoadOutcome)

  /** The cached document is stale when it was published before `now` (the
      current time in epoch seconds, as the clock gives it). */
  predicate IsStale(table: RateTable, now: int) {
    table.timestamp < now
  }

  /** load_currency_data, starting from the converter's table `data`, the
      file content `file` and a provider that has served `served` requests. A
      missing file is filled by a first fetch, and the table so obtained then
      goes through the same staleness check as one read from the file. */
  function Load(data: RateTable, file: Option<RateTable>, feed: nat -> Response, served: nat, now: int): (s: LoadState)
    ensures served <= s.served <= served + 2
    ensures s.served == served + 2 ==> file.None?
  {
    match file
    case Some(cached) => CheckFreshness(cached, file, feed, served, now)
    case None =>
      match feed(served)
      case TransportError => LoadState(data, file, served + 1, Raised)
      case Delivered(fetched) => CheckFreshness(fetched, Some(fetched), feed, served + 1, now)
  }

  /** The second half of a load: `current` has become the converter's table;
      when it is stale it is replaced by a fetched table, which is written to
      the file and announced. */
  function CheckFreshness(current: RateTable, file: Option<RateTable>, feed: nat -> Response, served: nat, now: int): (s: LoadState)
    ensures s.served == (if IsStale(current, now) then served + 1 else served)
    ensures s.outcome == Raised <==> IsStale(current, now) && feed(served).TransportError?
    ensures s.outcome.Loaded? ==> s.outcome.table == s.data && s.file == (if IsStale(current, now) then Some(s.data) else file)
  {
    if IsStale(current, now) then
      match feed(served)
      case TransportError => LoadState(current, file, served + 1, Raised)
      case Delivered(fetched) => LoadState(fetched, Some(fetched), served + 1, Loaded(fetched, true))
    else LoadState(current, file, served, Loaded(current, false))
  }

  /** A load that returns returns the converter's table, and leaves the file
      holding exactly that table. */
  lemma LoadedDataIsSaved(data: RateTable, file: Option<RateTable>, feed: nat -> Response, served: nat, now: int)
    ensures var s := Load(data, file, feed, served, now);
      s.outcome.Loaded? ==> s.outcome.table == s.data && s.file == Some(s.data)
  {
  }

  /** With the file present, and the provider answering if asked, the
      provider is asked (once) exactly when the cached table is stale; the converter then holds
      the fetched table and the file is rewritten with it, otherwise both keep
      the cached table. The update notice is shown exactly on a refresh. */
  lemma RefreshIffStale(data: RateTable, cached: RateTable, feed: nat -> Response, served: nat, now: int)
    requires IsStale(cached, now) ==> feed(served).Delivered?
    ensures var s := Load(data, Some(cached), feed, served, now);
      s.served == (if IsStale(cached, now) then served + 1 else served) &&
      s.data == (if IsStale(cached, now) then feed(served).table else cached) &&
      s.file == Some(s.data) &&
      s.outcome == Loaded(s.data, IsStale(cached, now))
  {
  }

  /** With the file missing, and the provider answering each request made,
      the table is fetched and written, and is fetched and written again when
      that table is itself stale. */
  lemma MissingFileFetches(data: RateTable, feed: nat -> Response, served: nat, now: int)
    requires feed(served).Delivered?
    requires IsStale(feed(served).table, now) ==> feed(served + 1).Delivered?
    ensures var first := feed(served).table;
      var s := Load(data, None, feed, served, now);
      s.served == (if IsStale(first, now) then served + 2 else served + 1) &&
      s.data == (if IsStale(first, now) then feed(served + 1).table else first) &&
      s.file == Some(s.data) &&
      s.outcome == Loaded(s.data, IsStale(first, now))
  {
  }

  /** A failed fetch raises, on each of the three paths that fetch: for a
      missing file the converter keeps its table and the file stays absent;
      for the refresh of a stale cached table the converter holds that table
      and the file is left as it was; for the refresh of a stale table just
      fetched for a missing file the converter holds that first table, which
      the file already holds too. */
  lemma FailedFetchRaises(data: RateTable, file: Option<RateTable>, feed: nat -> Response, served: nat, now: int)
    ensures file.None? && feed(served).TransportError? ==>
      Load(data, file, feed, served, now) == LoadState(data, None, served + 1, Raised)
    ensures file.Some? && IsStale(file.value, now) && feed(served).TransportError? ==>
      Load(data, file, feed, served, now) == LoadState(file.value, file, served + 1, Raised)
    ensures (file.None? && feed(served).Delivered? && IsStale(feed(served).table, now) &&
             feed(served + 1).TransportError?) ==>
      Load(data, file, feed, served, now) ==
        LoadState(feed(served).table, Some(feed(served).table), served + 2, Raised)
  {
  }

  /** A load raises exactly when it made a request and the last request it
      made failed; every request before the last one was answered. */
  lemma RaisedIffLastFetchFailed(data: RateTable, file: Option<RateTable>, feed: nat -> Response, served: nat, now: int)
    ensures var s := Load(data, file, feed, served, now);
      s.outcome == Raised <==> s.served > served && feed(s.served - 1).TransportError?
    ensures var s := Load(data, file, feed, served, now);
      forall n :: served <= n < s.served - 1 ==> feed(n).Delivered?
  {
  }

  /** A load right after a load that ended with a fresh table changes nothing
      and makes no request. */
  lemma ReloadWhenFreshIsQuiet(data: RateTable, file: Option<RateTable>, feed: nat -> Response, served: nat, now: int)
    requires Load(data, file, feed, served, now).outcome.Loaded?
    requires !IsStale(Load(data, file, feed, served, now).data, now)
    ensures var s := Load(data, file, feed, served, now);
      Load(s.data, s.file, feed, s.served, now) == LoadState(s.data, s.file, s.served, Loaded(s.data, false))
  {
    LoadedDataIsSaved(data, file, feed, served, now);
  }

  /** Since staleness is measured against the current time, a fetched table
      published before `now` is stale again at once: the next load at the
      same `now` makes another request. */
  lemma ReloadWhenStaleFetchesAgain(data: RateTable, file: Option<RateTable>, feed: nat -> Response, served: nat, now: int)
    requires Load(data, file, feed, served, now).outcome.Loaded?
    requires IsStale(Load(data, file, feed, served, now).data, now)
    ensures var s := Load(data, file, feed, served, now);
      Load(s.data, s.file, feed, s.served, now).served == s.served + 1
  {
    LoadedDataIsSaved(data, file, feed, served, now);
  }

  /** Exporting and then loading at a time the exported table is not stale
      for gives back the exported table without a request. */
  lemma ExportThenLoad(data: RateTable, feed: nat -> Response, served: nat, now: int)
    requires !IsStale(data, now)
    ensures Load(data, Some(data), feed, served, now) == LoadState(data, Some(data), served, Loaded(data, false))
  {
  }
}
