/**
 * The CKAN catalogue as the three scan drivers see it: records returned by the
 * `current_package_list_with_resources` action, requested in pages of
 * `{limit: 1000, offset}`.  The remote connection is an oracle from a page
 * request to its answer, which is a page of dataset records or a failure
 * (any exception raised by the client library).
 */
module Catalogue {

  datatype Option<T> = None | Some(value: T)

  /** A resource record; `url` and `size` are None when the key is absent or null. */
  datatype Resource = Resource(id: string, url: Option<string>, size: Option<int>)

  /** A dataset record; `kind` is the record's `type` field. */
  datatype Dataset = Dataset(
    id: string,
    name: string,
    kind: Option<string>,
    resources: Option<seq<Resource>>)

  type Page = seq<Dataset>

  datatype PageRequest = PageRequest(limit: nat, offset: nat)

  /** The answer to one `call_action`: a page of records, or an exception. */
  datatype PageResult = Records(datasets: Page) | FetchFailed

  /** The connection, reduced to what it answers to each page request. */
  type Server = PageRequest -> PageResult

  /** The page size (`increment`) hard-coded in every scan driver. */
  const PageSize: nat := 1000

  /** The k-th request of a scan. */
  function RequestAt(k: nat): PageRequest
  {
    PageRequest(PageSize, PageSize * k)
  }

  /** The log of the first n requests of a scan, each appended after the one before. */
  function RequestsUpTo(n: nat): seq<PageRequest> {
    if n == 0 then [] else RequestsUpTo(n - 1) + [RequestAt(n - 1)]
  }

  /**
   * The log of n requests holds n requests, each for a page of 1000 records,
   * at offsets 0, 1000, 2000, ...: it skips and repeats no part of the catalogue.
   */
  lemma {:induction false} RequestsUpToOffsets(n: nat)
    ensures |RequestsUpTo(n)| == n
    ensures forall k :: 0 <= k < n ==> RequestsUpTo(n)[k].limit == PageSize && RequestsUpTo(n)[k].offset == PageSize * k
    ensures forall k :: 0 < k < n ==> RequestsUpTo(n)[k].offset == RequestsUpTo(n)[k - 1].offset + RequestsUpTo(n)[k].limit
  {
    if n > 0 {
      RequestsUpToOffsets(n - 1);
    }
  }

  /** An answer that ends a scan: an empty page, or a failure. */
  predicate Stops(r: PageResult) {
    r.FetchFailed? || r.datasets == []
  }

  /** The server ends every scan: some request of the scan is answered by a stop. */
  ghost predicate Exhausts(server: Server) {
    exists n: nat :: Stops(server(RequestAt(n)))
  }

  /** `pages` are the answers to the first |pages| requests, none of which stopped the scan. */
  ghost predicate Fetched(server: Server, pages: seq<Page>) {
    forall j :: 0 <= j < |pages| ==> server(RequestAt(j)) == Records(pages[j]) && pages[j] != []
  }

  /** `pages` is exactly what a scan of `server` fetches: it stops at the first stopping answer. */
  ghost predicate ScanOf(server: Server, pages: seq<Page>) {
    Fetched(server, pages) && Stops(server(RequestAt(|pages|)))
  }

  /** One more non-empty page answered at the next offset extends a fetched prefix. */
  lemma FetchedStep(server: Server, pages: seq<Page>, page: Page)
    requires Fetched(server, pages)
    requires server(RequestAt(|pages|)) == Records(page) && page != []
    ensures Fetched(server, pages + [page])
  {
  }

  lemma FetchedNeverStops(server: Server, pages: seq<Page>, k: nat)
    requires Fetched(server, pages)
    ensures Stops(server(RequestAt(k))) ==> |pages| <= k
  {
    if k < |pages| {
      assert server(RequestAt(k)) == Records(pages[k]);
    }
  }

  /** A scan's result is determined by the server: it ends at the first stopping answer. */
  lemma ScanOfUnique(server: Server, p: seq<Page>, q: seq<Page>)
    requires ScanOf(server, p) && ScanOf(server, q)
    ensures p == q
  {
    FetchedNeverStops(server, q, |p|);
    FetchedNeverStops(server, p, |q|);
    forall j | 0 <= j < |p| ensures p[j] == q[j] {
      assert server(RequestAt(j)) == Records(p[j]);
    }
  }

  /**
   * A catalogue given as a finite list of pages: the request at offset 1000 * k
   * gets pages[k], and every other request an empty page.
   */
  function ServerOf(pages: seq<Page>): Server {
    (r: PageRequest) =>
      if r.limit == PageSize && r.offset % PageSize == 0 && r.offset / PageSize < |pages|
      then Records(pages[r.offset / PageSize])
      else Records([])
  }

  /** A list of non-empty pages is scanned whole, and the scan then stops. */
  lemma ServerOfScan(pages: seq<Page>)
    requires forall j :: 0 <= j < |pages| ==> pages[j] != []
    ensures Exhausts(ServerOf(pages))
    ensures ScanOf(ServerOf(pages), pages)
  {
    forall j: nat | j <= |pages|
      ensures RequestAt(j).offset % PageSize == 0 && RequestAt(j).offset / PageSize == j
    {
      assert PageSize * j == 1000 * j;
    }
    assert Stops(ServerOf(pages)(RequestAt(|pages|)));
  }

  lemma ConcatAssoc<T>(a: seq<T>, b: seq<T>, c: seq<T>)
    ensures (a + b) + c == a + (b + c)
  {
  }

  /** The concatenation of a list of lists, in order. */
  function Flatten<T>(ss: seq<seq<T>>): (r: seq<T>)
  {
    if ss == [] then [] else Flatten(ss[..|ss| - 1]) + ss[|ss| - 1]
  }

  lemma {:induction false} FlattenAppend<T>(a: seq<seq<T>>, b: seq<seq<T>>)
    ensures Flatten(a + b) == Flatten(a) + Flatten(b)
    decreases |b|
  {
    if b == [] {
      assert a + b == a;
    } else {
      var b' := b[..|b| - 1];
      assert (a + b)[..|a + b| - 1] == a + b';
      FlattenAppend(a, b');
    }
  }
}
