/**
 * The read-only tileset source that fetches entries relative to a base URL
 * (the `TilesetSourceHttp` class). Its only state is the base URL; it counts
 * as open when that URL is truthy in JavaScript, so an empty base URL leaves
 * it closed. URL resolution (`new URL(key, base)`) and the fetch are
 * parameters: the resolver gives `None` where the URL constructor throws, and
 * a fetch yields bytes, nothing, or a failure.
 */
module TilesetSourceHttp {
  import opened Base

  /** `new URL(key, base).toString()`, or `None` when the constructor throws. */
  type UrlResolver = (string, string) -> Option<string>

  /** What `Resource.fetchArrayBuffer` settles to: data, an undefined result, or a rejection. */
  datatype FetchOutcome = Fetched(data: Buffer) | NothingFetched | FetchFailed

  const NotOpenedMessage: string := "Source is not opened. Call 'open' first."

  /** The entry a fetch outcome stands for: its data, or `undefined` for both an empty result and a failure. */
  function EntryOf(outcome: FetchOutcome): (entry: Option<Buffer>)
    ensures entry.Some? <==> outcome.Fetched?
    ensures entry.Some? ==> entry.value == outcome.data
  {
    match outcome
    case Fetched(data) => Some(data)
    case NothingFetched => None
    case FetchFailed => None
  }

  class TilesetSourceHttp {
    /** The base URL the keys are resolved against, or `None` before `open` and after `close`. */
    var baseURL: Option<string>

    constructor ()
      ensures baseURL == None
    {
      baseURL := None;
    }

    predicate IsOpen()
      reads this
    {
      IsTruthy(baseURL)
    }

    /** `open`: fails when a non-empty base URL is set; otherwise stores the new one, even an empty one. */
    method Open(url: string) returns (r: Outcome)
      modifies this
      ensures old(IsOpen()) ==> r == Failed(TilesetError("Source already opened")) && baseURL == old(baseURL)
      ensures !old(IsOpen()) ==> r == Done && baseURL == Some(url)
      ensures r.Done? ==> (IsOpen() <==> url != "")
    {
      if IsTruthy(baseURL) {
        return Failed(TilesetError("Source already opened"));
      }
      baseURL := Some(url);
      return Done;
    }

    /** `getKeys`: a network source cannot enumerate its entries, in any state. */
    method GetKeys() returns (keys: seq<string>)
      ensures keys == []
    {
      keys := [];
    }

    /** `getValue`: synchronous reads are not implemented, in any state. */
    method GetValue(key: string) returns (r: Result<Option<Buffer>>)
      ensures r == Err(PlainError("Method not implemented."))
    {
      r := Err(PlainError("Method not implemented."));
    }

    /**
     * `getAsyncValue`: fails when not opened and when the key does not resolve
     * to a URL; otherwise fetches the resolved URL and gives its data, or
     * `undefined` when the fetch yields nothing or fails. A fetch failure is
     * never an error.
     */
    method GetAsyncValue(key: string, resolve: UrlResolver, fetch: string -> FetchOutcome)
      returns (r: Result<Option<Buffer>>)
      ensures !IsOpen() ==> r == Err(TilesetError(NotOpenedMessage))
      ensures IsOpen() && resolve(key, baseURL.value).None? ==> r.Err? && r.error.InvalidUrl?
      ensures IsOpen() && resolve(key, baseURL.value).Some? ==> r.Ok?
      ensures r.Ok? && r.value.Some? ==> IsOpen() && fetch(resolve(key, baseURL.value).value) == Fetched(r.value.value)
      ensures r.Ok? && r.value.None? ==> IsOpen() && !fetch(resolve(key, baseURL.value).value).Fetched?
    {
      if !IsTruthy(baseURL) {
        return Err(TilesetError(NotOpenedMessage));
      }
      var url := resolve(key, baseURL.value);
      if url.None? {
        return Err(InvalidUrl("Invalid URL"));
      }
      r := Ok(EntryOf(fetch(url.value)));
    }

    /** `getFullKey`: the key resolved against the base URL, the URL that `getAsyncValue` fetches; fails when not opened. */
    method GetFullKey(key: string, resolve: UrlResolver) returns (r: Result<string>)
      ensures !IsOpen() ==> r == Err(TilesetError(NotOpenedMessage))
      ensures IsOpen() && resolve(key, baseURL.value).None? ==> r.Err? && r.error.InvalidUrl?
      ensures IsOpen() && resolve(key, baseURL.value).Some? ==> r == Ok(resolve(key, baseURL.value).value)
    {
      if !IsTruthy(baseURL) {
        return Err(TilesetError(NotOpenedMessage));
      }
      var url := resolve(key, baseURL.value);
      if url.None? {
        return Err(InvalidUrl("Invalid URL"));
      }
      r := Ok(url.value);
    }

    /** `close`: clears the base URL so that `open` succeeds again; fails when not opened. */
    method Close() returns (r: Outcome)
      modifies this
      ensures old(IsOpen()) ==> r == Done && baseURL == None
      ensures !old(IsOpen()) ==> r == Failed(TilesetError(NotOpenedMessage)) && baseURL == old(baseURL)
      ensures !IsOpen()
    {
      if !IsTruthy(baseURL) {
        return Failed(TilesetError(NotOpenedMessage));
      }
      baseURL := None;
      return Done;
    }
  }

  /**
   * A source opened with the empty URL still counts as not opened: reads and
   * `close` fail, and a second `open` succeeds.
   */
  method EmptyBaseUrlStaysClosed(key: string, resolve: UrlResolver, fetch: string -> FetchOutcome, url: string)
    returns (value: Result<Option<Buffer>>, fullKey: Result<string>, closed: Outcome, reopened: Outcome)
    ensures value == Err(TilesetError(NotOpenedMessage))
    ensures fullKey == Err(TilesetError(NotOpenedMessage))
    ensures closed == Failed(TilesetError(NotOpenedMessage))
    ensures reopened == Done
  {
    var source := new TilesetSourceHttp();
    var openedEmpty := source.Open("");
    value := source.GetAsyncValue(key, resolve, fetch);
    fullKey := source.GetFullKey(key, resolve);
    closed := source.Close();
    reopened := source.Open(url);
  }
}
