/** The foreign I/O the crawler calls, reduced to what its decisions depend
    on. HTTP requests with HTML anchor extraction, `pandas.read_csv` and
    `DataFrame.to_csv` are not modelled; each becomes a function parameter
    that says only whether the call succeeded and what it returned. */
module Io {
  import opened Common

  /** A parsed CSV file: column name to the column's cells, each cell already
      in the form `str()` gives it. */
  type Table = map<string, seq<string>>

  /** The column the content filter reads. */
  const LocationColumn := "location"

  /** The `href`s of the anchors on the page at a URL, in page order;
      `None` when `requests.get` raises. */
  type Listing = string -> Option<seq<string>>

  /** `pd.read_csv(link, sep=';')`; `None` when it raises. */
  type Reader = string -> Option<Table>

  /** Whether `df.to_csv(path, index=False)` completes without raising. */
  type Writer = string -> bool

  /** The first cell of the location column, when that column exists and is
      non-empty. */
  function FirstLocation(t: Table): Option<string>
  {
    if LocationColumn in t && |t[LocationColumn]| > 0 then Some(t[LocationColumn][0]) else None
  }

  /** Requests every listing page. A request that raises is not caught by
      either crawler, so it ends the stage with one of the failing URLs. */
  function FetchListings(urls: seq<string>, listing: Listing): (r: Result<seq<seq<string>>>)
    ensures r.Failure? <==> exists i :: 0 <= i < |urls| && listing(urls[i]).None?
    ensures r.Failure? ==> exists i :: 0 <= i < |urls| && listing(urls[i]).None? && r.error == RequestFailed(urls[i])
    ensures r.Success? ==> |r.value| == |urls| && forall i :: 0 <= i < |urls| ==> listing(urls[i]) == Some(r.value[i])
  {
    if |urls| == 0 then Success([])
    else
      match listing(urls[0])
      case None => Failure(RequestFailed(urls[0]))
      case Some(page) =>
        match FetchListings(urls[1..], listing)
        case Failure(e) => Failure(e)
        case Success(pages) => Success([page] + pages)
  }
}
