/**
 * `retrieve_metadata`: collect every page of the catalogue, unflattened,
 * in request order.
 */
module MetadataRetrieval {
  import opened Catalogue

  /**
   * Requests pages at offsets 0, 1000, 2000, ... and appends each non-empty
   * page whole; the first empty page ends the loop and is not appended, and a
   * failing request ends it with the pages collected so far.  `requests` is
   * the log of the requests made, the last one being the one that stopped.
   */
  method RetrieveMetadata(server: Server) returns (result: seq<Page>, ghost requests: seq<PageRequest>)
    requires Exhausts(server)
    ensures ScanOf(server, result)
    ensures requests == RequestsUpTo(|result| + 1)
  {
    result := [];
    requests := [];
    var offset := 0;
    ghost var bound: nat :| Stops(server(RequestAt(bound)));
    while true
      invariant offset == PageSize * |result|
      invariant Fetched(server, result)
      invariant requests == RequestsUpTo(|result|)
      invariant |result| <= bound
      decreases bound - |result|
    {
      var request := PageRequest(PageSize, offset);
      requests := requests + [request];
      var response := server(request);
      if response.FetchFailed? {
        return;
      }
      if |response.datasets| == 0 {
        break;
      }
      offset := offset + PageSize;
      result := result + [response.datasets];
    }
  }
}
