/**
 * `sum_resource_size`: scan the catalogue and sum, over every resource of
 * every record of type "dataset", either its declared size or the
 * Content-Length of a HEAD request, optionally only for resources whose URL
 * starts with a given prefix.
 */
module Datasize {
  import opened Catalogue

  /** The Content-Length header after `int()`: a number, or a value `int()` rejects. */
  datatype LengthHeader = Length(n: int) | Malformed

  /** The outcome of `requests.head`: an exception (timeout included), or a status and the header. */
  datatype HeadResult = HeadFailed | Response(status: int, contentLength: Option<LengthHeader>)

  /** HEAD requests with the caller's timeout, as an oracle from URL to outcome. */
  type HeadOracle = string -> HeadResult

  /** The filter leaves out a resource that has a URL not starting with the prefix. */
  predicate Excluded(r: Resource, filter: Option<string>) {
    r.url.Some? && filter.Some? && !(filter.value <= r.url.value)
  }

  /** What a HEAD outcome adds: the length only for status 200 with a parsable header. */
  function HeadSize(h: HeadResult): int {
    match h
    case HeadFailed => 0
    case Response(status, header) =>
      if status != 200 then 0
      else match header
        case Some(Length(n)) => n
        case _ => 0
  }

  /**
   * What one resource adds to the sum.  A resource without URL is never
   * filtered; without a declared size its HEAD request raises and it adds 0.
   */
  function Contribution(r: Resource, filter: Option<string>, head: HeadOracle): int {
    if Excluded(r, filter) then 0
    else if r.size.Some? then r.size.value
    else if r.url.None? then 0
    else HeadSize(head(r.url.value))
  }

  /** The resources a record contributes: none unless its type is "dataset". */
  function Counted(d: Dataset): seq<Resource> {
    if d.kind != Some("dataset") then []
    else if d.resources.None? then []
    else d.resources.value
  }

  function ResourcesSize(rs: seq<Resource>, filter: Option<string>, head: HeadOracle): int {
    if rs == [] then 0
    else ResourcesSize(rs[..|rs| - 1], filter, head) + Contribution(rs[|rs| - 1], filter, head)
  }

  function DatasetsSize(ds: seq<Dataset>, filter: Option<string>, head: HeadOracle): int {
    if ds == [] then 0
    else DatasetsSize(ds[..|ds| - 1], filter, head) + ResourcesSize(Counted(ds[|ds| - 1]), filter, head)
  }

  function PagesSize(pages: seq<Page>, filter: Option<string>, head: HeadOracle): int {
    if pages == [] then 0
    else PagesSize(pages[..|pages| - 1], filter, head) + DatasetsSize(pages[|pages| - 1], filter, head)
  }

  lemma ResourcesSizeStep(rs: seq<Resource>, j: nat, filter: Option<string>, head: HeadOracle)
    requires j < |rs|
    ensures ResourcesSize(rs[..j + 1], filter, head)
            == ResourcesSize(rs[..j], filter, head) + Contribution(rs[j], filter, head)
  {
    assert rs[..j + 1][..j] == rs[..j];
  }

  lemma DatasetsSizeStep(ds: seq<Dataset>, i: nat, filter: Option<string>, head: HeadOracle)
    requires i < |ds|
    ensures DatasetsSize(ds[..i + 1], filter, head)
            == DatasetsSize(ds[..i], filter, head) + ResourcesSize(Counted(ds[i]), filter, head)
  {
    assert ds[..i + 1][..i] == ds[..i];
  }

  /**
   * The scan: the sum over every page fetched before the first empty page or
   * failing request, in scan order.  A failing request returns the sum so far.
   */
  method SumResourceSize(server: Server, head: HeadOracle, filter: Option<string>)
    returns (total: int, ghost pages: seq<Page>)
    requires Exhausts(server)
    ensures ScanOf(server, pages)
    ensures total == PagesSize(pages, filter, head)
  {
    total := 0;
    pages := [];
    var offset := 0;
    ghost var bound: nat :| Stops(server(RequestAt(bound)));
    while true
      invariant offset == PageSize * |pages|
      invariant Fetched(server, pages)
      invariant |pages| <= bound
      invariant total == PagesSize(pages, filter, head)
      decreases bound - |pages|
    {
      var response := server(PageRequest(PageSize, offset));
      if response.FetchFailed? {
        return;
      }
      var page := response.datasets;
      if |page| == 0 {
        break;
      }
      offset := offset + PageSize;
      var amount := SumPage(page, filter, head);
      total := total + amount;
      assert (pages + [page])[..|pages|] == pages;
      FetchedStep(server, pages, page);
      pages := pages + [page];
    }
  }

  /** The records of one page, summed in order. */
  method SumPage(page: Page, filter: Option<string>, head: HeadOracle) returns (total: int)
    ensures total == DatasetsSize(page, filter, head)
  {
    total := 0;
    for i := 0 to |page|
      invariant total == DatasetsSize(page[..i], filter, head)
    {
      var dataset := page[i];
      DatasetsSizeStep(page, i, filter, head);
      if dataset.kind != Some("dataset") {
        continue;
      }
      var resources := if dataset.resources.Some? then dataset.resources.value else [];
      var amount := SumResources(resources, filter, head);
      total := total + amount;
    }
    assert page[..|page|] == page;
  }

  /** The resources of one record, summed in order. */
  method SumResources(resources: seq<Resource>, filter: Option<string>, head: HeadOracle) returns (total: int)
    ensures total == ResourcesSize(resources, filter, head)
  {
    total := 0;
    for j := 0 to |resources|
      invariant total == ResourcesSize(resources[..j], filter, head)
    {
      var resource := resources[j];
      ResourcesSizeStep(resources, j, filter, head);
      var amount := 0;
      if resource.url.Some? && filter.Some? && !(filter.value <= resource.url.value) {
        // skipped by the filter
      } else if resource.size.Some? {
        amount := resource.size.value;
      } else if resource.url.Some? {
        var response := head(resource.url.value);
        if response.Response? && response.status == 200
           && response.contentLength.Some? && response.contentLength.value.Length? {
          amount := response.contentLength.value.n;
        }
      }
      total := total + amount;
    }
    assert resources[..|resources|] == resources;
  }

  // ---------------------------------------------------------------------
  // Properties of the sum

  lemma {:induction false} ResourcesSizeAppend(a: seq<Resource>, b: seq<Resource>, filter: Option<string>, head: HeadOracle)
    ensures ResourcesSize(a + b, filter, head) == ResourcesSize(a, filter, head) + ResourcesSize(b, filter, head)
    decreases |b|
  {
    if b == [] {
      assert a + b == a;
    } else {
      assert (a + b)[..|a + b| - 1] == a + b[..|b| - 1];
      ResourcesSizeAppend(a, b[..|b| - 1], filter, head);
    }
  }

  /** The resources the filter lets through, in order. */
  function Kept(rs: seq<Resource>, prefix: string): (r: seq<Resource>)
  {
    if rs == [] then []
    else Kept(rs[..|rs| - 1], prefix) + (if Excluded(rs[|rs| - 1], Some(prefix)) then [] else [rs[|rs| - 1]])
  }

  /**
   * Filtering by a prefix is summing, unfiltered, only the resources whose URL
   * starts with the prefix or that have no URL at all.
   */
  lemma {:induction false} FilterKeepsOnlyPrefixed(rs: seq<Resource>, prefix: string, head: HeadOracle)
    ensures ResourcesSize(rs, Some(prefix), head) == ResourcesSize(Kept(rs, prefix), None, head)
    ensures forall r :: r in Kept(rs, prefix) ==> r in rs && (r.url.None? || prefix <= r.url.value)
    ensures forall r :: r in rs && (r.url.None? || prefix <= r.url.value) ==> r in Kept(rs, prefix)
  {
    if rs != [] {
      var init, last := rs[..|rs| - 1], rs[|rs| - 1];
      FilterKeepsOnlyPrefixed(init, prefix, head);
      var tail := if Excluded(last, Some(prefix)) then [] else [last];
      ResourcesSizeAppend(Kept(init, prefix), tail, None, head);
      if tail != [] {
        assert tail[..0] == [];
      }
      assert forall r :: r in init ==> r in rs;
      assert forall r :: r in rs ==> r in init || r == last;
    }
  }

  /** A resource whose size comes from a HEAD request: kept by the filter, URL but no declared size. */
  predicate HeadQueried(r: Resource, filter: Option<string>) {
    !Excluded(r, filter) && r.size.None? && r.url.Some?
  }

  /**
   * The sum depends on the HEAD oracle only at the URLs of the resources that
   * have no declared size: a declared size is used without any request.
   */
  lemma {:induction false} OnlySizelessResourcesAreQueried(rs: seq<Resource>, filter: Option<string>, h1: HeadOracle, h2: HeadOracle)
    requires forall r :: r in rs && HeadQueried(r, filter) ==> h1(r.url.value) == h2(r.url.value)
    ensures ResourcesSize(rs, filter, h1) == ResourcesSize(rs, filter, h2)
  {
    if rs != [] {
      assert forall r :: r in rs[..|rs| - 1] ==> r in rs;
      OnlySizelessResourcesAreQueried(rs[..|rs| - 1], filter, h1, h2);
      assert rs[|rs| - 1] in rs;
    }
  }

  /** A HEAD outcome that yields no size: an exception, a status other than 200, no header or a malformed one. */
  predicate Unresolved(h: HeadResult) {
    h.HeadFailed? || h.status != 200 || h.contentLength.None? || h.contentLength.value.Malformed?
  }

  /**
   * A resource without declared size whose HEAD request yields nothing adds 0,
   * and the scan goes on with the next resource as if it were not there.
   */
  lemma FailedHeadIsSkipped(a: seq<Resource>, r: Resource, b: seq<Resource>, filter: Option<string>, head: HeadOracle)
    requires r.size.None?
    requires r.url.None? || Unresolved(head(r.url.value))
    ensures ResourcesSize(a + [r] + b, filter, head) == ResourcesSize(a + b, filter, head)
  {
    ResourcesSizeAppend(a + [r], b, filter, head);
    ResourcesSizeAppend(a, [r], filter, head);
    ResourcesSizeAppend(a, b, filter, head);
    assert [r][..0] == [];
  }

  predicate IsDatasetRecord(d: Dataset) {
    d.kind == Some("dataset")
  }

  function OnlyDatasets(ds: seq<Dataset>): seq<Dataset> {
    if ds == [] then []
    else OnlyDatasets(ds[..|ds| - 1]) + (if IsDatasetRecord(ds[|ds| - 1]) then [ds[|ds| - 1]] else [])
  }

  lemma {:induction false} DatasetsSizeAppend(a: seq<Dataset>, b: seq<Dataset>, filter: Option<string>, head: HeadOracle)
    ensures DatasetsSize(a + b, filter, head) == DatasetsSize(a, filter, head) + DatasetsSize(b, filter, head)
    decreases |b|
  {
    if b == [] {
      assert a + b == a;
    } else {
      assert (a + b)[..|a + b| - 1] == a + b[..|b| - 1];
      DatasetsSizeAppend(a, b[..|b| - 1], filter, head);
    }
  }

  /** Records whose type is absent or not "dataset" add nothing: the sum is that over the datasets alone. */
  lemma {:induction false} NonDatasetsAddNothing(ds: seq<Dataset>, filter: Option<string>, head: HeadOracle)
    ensures DatasetsSize(ds, filter, head) == DatasetsSize(OnlyDatasets(ds), filter, head)
  {
    if ds != [] {
      var init, last := ds[..|ds| - 1], ds[|ds| - 1];
      NonDatasetsAddNothing(init, filter, head);
      assert DatasetsSize(ds, filter, head)
          == DatasetsSize(init, filter, head) + ResourcesSize(Counted(last), filter, head);
      if IsDatasetRecord(last) {
        assert OnlyDatasets(ds) == OnlyDatasets(init) + [last];
        DatasetsSizeAppend(OnlyDatasets(init), [last], filter, head);
        assert [last][..0] == [];
        assert DatasetsSize([last], filter, head) == ResourcesSize(Counted(last), filter, head);
      } else {
        assert OnlyDatasets(init) + [] == OnlyDatasets(init);
        assert OnlyDatasets(ds) == OnlyDatasets(init);
        assert Counted(last) == [];
        assert ResourcesSize([], filter, head) == 0;
      }
    }
  }

  lemma {:induction false} PagesSizeAppend(a: seq<Page>, b: seq<Page>, filter: Option<string>, head: HeadOracle)
    ensures PagesSize(a + b, filter, head) == PagesSize(a, filter, head) + PagesSize(b, filter, head)
    decreases |b|
  {
    if b == [] {
      assert a + b == a;
    } else {
      assert (a + b)[..|a + b| - 1] == a + b[..|b| - 1];
      PagesSizeAppend(a, b[..|b| - 1], filter, head);
    }
  }

  /** Every resource counted in `pages` contributes a non-negative amount. */
  ghost predicate NonNegative(pages: seq<Page>, filter: Option<string>, head: HeadOracle) {
    forall p, d, r :: p in pages && d in p && r in Counted(d) ==> Contribution(r, filter, head) >= 0
  }

  lemma {:induction false} ResourcesSizeNonNegative(rs: seq<Resource>, filter: Option<string>, head: HeadOracle)
    requires forall r :: r in rs ==> Contribution(r, filter, head) >= 0
    ensures ResourcesSize(rs, filter, head) >= 0
  {
    if rs != [] {
      assert forall r :: r in rs[..|rs| - 1] ==> r in rs;
      ResourcesSizeNonNegative(rs[..|rs| - 1], filter, head);
      assert rs[|rs| - 1] in rs;
    }
  }

  lemma {:induction false} DatasetsSizeNonNegative(ds: seq<Dataset>, filter: Option<string>, head: HeadOracle)
    requires forall d, r :: d in ds && r in Counted(d) ==> Contribution(r, filter, head) >= 0
    ensures DatasetsSize(ds, filter, head) >= 0
  {
    if ds != [] {
      assert forall d :: d in ds[..|ds| - 1] ==> d in ds;
      DatasetsSizeNonNegative(ds[..|ds| - 1], filter, head);
      assert ds[|ds| - 1] in ds;
      ResourcesSizeNonNegative(Counted(ds[|ds| - 1]), filter, head);
    }
  }

  lemma {:induction false} PagesSizeNonNegative(pages: seq<Page>, filter: Option<string>, head: HeadOracle)
    requires NonNegative(pages, filter, head)
    ensures PagesSize(pages, filter, head) >= 0
  {
    if pages != [] {
      var init, last := pages[..|pages| - 1], pages[|pages| - 1];
      assert forall p :: p in init ==> p in pages;
      PagesSizeNonNegative(init, filter, head);
      assert last in pages;
      DatasetsSizeNonNegative(last, filter, head);
    }
  }

  /**
   * The running sum never decreases while contributions are non-negative,
   * which they are when declared sizes and Content-Length values are.
   */
  lemma SumNeverDecreases(pages: seq<Page>, more: seq<Page>, filter: Option<string>, head: HeadOracle)
    requires NonNegative(more, filter, head)
    ensures PagesSize(pages, filter, head) <= PagesSize(pages + more, filter, head)
  {
    PagesSizeAppend(pages, more, filter, head);
    PagesSizeNonNegative(more, filter, head);
  }

  /**
   * Within one record, the running sum after j resources is at most that
   * after any later resource, while contributions are non-negative.
   */
  lemma RunningSumNeverDecreases(rs: seq<Resource>, i: nat, j: nat, filter: Option<string>, head: HeadOracle)
    requires i <= j <= |rs|
    requires forall r :: r in rs ==> Contribution(r, filter, head) >= 0
    ensures ResourcesSize(rs[..i], filter, head) <= ResourcesSize(rs[..j], filter, head)
  {
    assert rs[..j] == rs[..i] + rs[i..j];
    ResourcesSizeAppend(rs[..i], rs[i..j], filter, head);
    assert forall r :: r in rs[i..j] ==> r in rs;
    ResourcesSizeNonNegative(rs[i..j], filter, head);
  }

  predicate LengthNonNegative(h: HeadResult) {
    h.Response? && h.contentLength.Some? && h.contentLength.value.Length? ==> h.contentLength.value.n >= 0
  }

  /** Contributions are non-negative when every declared size and every parsed length is. */
  lemma ContributionNonNegative(r: Resource, filter: Option<string>, head: HeadOracle)
    requires r.size.Some? ==> r.size.value >= 0
    requires r.url.Some? ==> LengthNonNegative(head(r.url.value))
    ensures Contribution(r, filter, head) >= 0
  {
  }

  /**
   * The running sum never decreases along a resource list whose declared sizes
   * and parsed Content-Length values are all non-negative.
   */
  lemma DeclaredSizesNeverDecrease(rs: seq<Resource>, i: nat, j: nat, filter: Option<string>, head: HeadOracle)
    requires i <= j <= |rs|
    requires forall r :: r in rs && r.size.Some? ==> r.size.value >= 0
    requires forall r :: r in rs && r.url.Some? ==> LengthNonNegative(head(r.url.value))
    ensures ResourcesSize(rs[..i], filter, head) <= ResourcesSize(rs[..j], filter, head)
  {
    forall r | r in rs
      ensures Contribution(r, filter, head) >= 0
    {
      ContributionNonNegative(r, filter, head);
    }
    RunningSumNeverDecreases(rs, i, j, filter, head);
  }
}
