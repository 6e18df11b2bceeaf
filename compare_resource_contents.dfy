/**
 * `compare_resource_contents`: fingerprint every catalogue resource by the
 * SHA-512 digest of its downloaded content, then look up the digest of every
 * `downloadURL` of a DCAT-US 1.1 document among those fingerprints.
 *
 * SHA-512 (FIPS 180-4) is an uninterpreted function from byte strings to
 * digests, and a download is an oracle from URL to the body's chunks, or None
 * when `requests` raises.
 */
module ResourceContents {
  import opened Catalogue

  type Byte = bv8
  type Bytes = seq<Byte>
  type Digest = Bytes

  /** A streamed GET: the chunks of the body in order, or None for an exception. */
  type Downloader = string -> Option<seq<Bytes>>

  /** SHA-512 over a whole byte string. */
  type Hasher = Bytes -> Digest

  /**
   * What `get_hash(url)` yields: the digest of the downloaded body, or None
   * when the download raised.  In the source None is not a value `get_hash`
   * returns: its except branch evaluates the undefined name `null`, which
   * raises a NameError in the caller.
   */
  function HashOf(url: string, download: Downloader, sha512: Hasher): Option<Digest> {
    match download(url)
    case None => None
    case Some(chunks) => Some(sha512(Flatten(chunks)))
  }

  /**
   * `get_hash`: feed every non-empty chunk, in order, to the hash object.  The
   * hash object's state is the byte string fed to it so far.
   */
  method GetHash(url: string, download: Downloader, sha512: Hasher) returns (h: Option<Digest>)
    ensures download(url).None? ==> h.None?
    ensures download(url).Some? ==> h == Some(sha512(Flatten(download(url).value)))
  {
    var response := download(url);
    if response.None? {
      return None;
    }
    var chunks := response.value;
    var fed: Bytes := [];
    for k := 0 to |chunks|
      invariant fed == Flatten(chunks[..k])
    {
      var buff := chunks[k];
      assert chunks[..k + 1][..k] == chunks[..k];
      if |buff| > 0 {
        fed := fed + buff;
      } else {
        assert fed + buff == fed;
      }
    }
    assert chunks[..|chunks|] == chunks;
    h := Some(sha512(fed));
  }

  /** The chunks a loop that skips empty buffers actually feeds. */
  function NonEmpty(chunks: seq<Bytes>): seq<Bytes> {
    if chunks == [] then []
    else NonEmpty(chunks[..|chunks| - 1]) + (if chunks[|chunks| - 1] == [] then [] else [chunks[|chunks| - 1]])
  }

  /** Skipping empty chunks does not change the bytes hashed, so neither the digest. */
  lemma {:induction false} EmptyChunksDoNotMatter(chunks: seq<Bytes>, sha512: Hasher)
    ensures Flatten(NonEmpty(chunks)) == Flatten(chunks)
    ensures sha512(Flatten(NonEmpty(chunks))) == sha512(Flatten(chunks))
  {
    if chunks != [] {
      var init, last := chunks[..|chunks| - 1], chunks[|chunks| - 1];
      EmptyChunksDoNotMatter(init, sha512);
      var tail := if last == [] then [] else [last];
      FlattenAppend(NonEmpty(init), tail);
      if tail != [] {
        assert tail[..0] == [];
      }
    }
  }

  /** Only the body matters: two downloads with the same bytes, however chunked, have the same digest. */
  lemma SameContentSameDigest(u1: string, u2: string, download: Downloader, sha512: Hasher)
    requires download(u1).Some? && download(u2).Some?
    requires Flatten(download(u1).value) == Flatten(download(u2).value)
    ensures HashOf(u1, download, sha512) == HashOf(u2, download, sha512)
  {
  }

  // ---------------------------------------------------------------------
  // The fingerprint scan (`get_resource_fingerprints`)

  /** A resource the scan hashes: one with a URL, in a record of type "dataset" that has resources. */
  datatype Candidate = Candidate(dataset: Dataset, resource: Resource, url: string)

  /** The metadata stored for a fingerprint, a dictionary as in the source. */
  type Record = map<string, string>

  function RecordOf(c: Candidate): Record {
    map["title" := c.dataset.name, "dataset_id" := c.dataset.id,
        "resource_id" := c.resource.id, "url" := c.url]
  }

  /** The keys every stored record has. */
  const RecordKeys: set<string> := {"title", "dataset_id", "resource_id", "url"}

  predicate Eligible(d: Dataset) {
    d.kind == Some("dataset") && d.resources.Some?
  }

  function ResourceCandidates(d: Dataset, rs: seq<Resource>): seq<Candidate> {
    if rs == [] then []
    else
      var last := rs[|rs| - 1];
      ResourceCandidates(d, rs[..|rs| - 1]) + (if last.url.Some? then [Candidate(d, last, last.url.value)] else [])
  }

  function DatasetCandidates(d: Dataset): seq<Candidate> {
    if Eligible(d) then ResourceCandidates(d, d.resources.value) else []
  }

  function DatasetsCandidates(ds: seq<Dataset>): seq<Candidate> {
    if ds == [] then [] else DatasetsCandidates(ds[..|ds| - 1]) + DatasetCandidates(ds[|ds| - 1])
  }

  /** Every resource a scan of `pages` considers for hashing, in scan order. */
  function PagesCandidates(pages: seq<Page>): seq<Candidate> {
    if pages == [] then [] else PagesCandidates(pages[..|pages| - 1]) + DatasetsCandidates(pages[|pages| - 1])
  }

  /** The fingerprint map so far, and whether a failed download has ended the scan. */
  datatype ScanState = ScanState(metadata: map<Digest, Record>, failed: bool)

  /**
   * One resource: a failed download ends the scan (the NameError of `get_hash`
   * propagates to the scan's except branch); an empty digest is falsy and
   * skipped; otherwise the digest's entry is set, replacing any earlier one.
   */
  function Step(st: ScanState, c: Candidate, download: Downloader, sha512: Hasher): ScanState {
    if st.failed then st
    else match HashOf(c.url, download, sha512)
      case None => ScanState(st.metadata, true)
      case Some(h) => if |h| == 0 then st else ScanState(st.metadata[h := RecordOf(c)], false)
  }

  function Fingerprints(cs: seq<Candidate>, download: Downloader, sha512: Hasher): ScanState {
    if cs == [] then ScanState(map[], false)
    else Step(Fingerprints(cs[..|cs| - 1], download, sha512), cs[|cs| - 1], download, sha512)
  }

  lemma FingerprintsStep(cs: seq<Candidate>, c: Candidate, download: Downloader, sha512: Hasher)
    ensures Fingerprints(cs + [c], download, sha512) == Step(Fingerprints(cs, download, sha512), c, download, sha512)
  {
    assert (cs + [c])[..|cs|] == cs;
  }

  /** Once a download has failed, nothing that follows changes the result. */
  lemma {:induction false} FailedScanIgnoresRest(cs: seq<Candidate>, more: seq<Candidate>, download: Downloader, sha512: Hasher)
    requires Fingerprints(cs, download, sha512).failed
    ensures Fingerprints(cs + more, download, sha512) == Fingerprints(cs, download, sha512)
    decreases |more|
  {
    if more == [] {
      assert cs + more == cs;
    } else {
      var init := more[..|more| - 1];
      assert (cs + more)[..|cs + more| - 1] == cs + init;
      FailedScanIgnoresRest(cs, init, download, sha512);
    }
  }

  lemma {:induction false} ResourceCandidatesAppend(d: Dataset, a: seq<Resource>, b: seq<Resource>)
    ensures ResourceCandidates(d, a + b) == ResourceCandidates(d, a) + ResourceCandidates(d, b)
    decreases |b|
  {
    if b == [] {
      assert a + b == a;
    } else {
      assert (a + b)[..|a + b| - 1] == a + b[..|b| - 1];
      ResourceCandidatesAppend(d, a, b[..|b| - 1]);
    }
  }

  lemma {:induction false} DatasetsCandidatesAppend(a: seq<Dataset>, b: seq<Dataset>)
    ensures DatasetsCandidates(a + b) == DatasetsCandidates(a) + DatasetsCandidates(b)
    decreases |b|
  {
    if b == [] {
      assert a + b == a;
    } else {
      assert (a + b)[..|a + b| - 1] == a + b[..|b| - 1];
      DatasetsCandidatesAppend(a, b[..|b| - 1]);
    }
  }

  lemma ResourceCandidatesStep(d: Dataset, rs: seq<Resource>, j: nat)
    requires j < |rs|
    ensures ResourceCandidates(d, rs[..j + 1])
            == ResourceCandidates(d, rs[..j]) + (if rs[j].url.Some? then [Candidate(d, rs[j], rs[j].url.value)] else [])
  {
    assert rs[..j + 1][..j] == rs[..j];
  }

  lemma DatasetsCandidatesStep(ds: seq<Dataset>, i: nat)
    requires i < |ds|
    ensures DatasetsCandidates(ds[..i + 1]) == DatasetsCandidates(ds[..i]) + DatasetCandidates(ds[i])
  {
    assert ds[..i + 1][..i] == ds[..i];
  }

  /** The resources of one record, hashed in order after the candidates `seen`. */
  method FingerprintResources(dataset: Dataset, resources: seq<Resource>, download: Downloader, sha512: Hasher,
                              metadata0: map<Digest, Record>, ghost seen: seq<Candidate>)
    returns (metadata: map<Digest, Record>, failed: bool)
    requires Fingerprints(seen, download, sha512) == ScanState(metadata0, false)
    ensures Fingerprints(seen + ResourceCandidates(dataset, resources), download, sha512) == ScanState(metadata, failed)
  {
    metadata, failed := metadata0, false;
    assert seen + ResourceCandidates(dataset, resources[..0]) == seen;
    for j := 0 to |resources|
      invariant Fingerprints(seen + ResourceCandidates(dataset, resources[..j]), download, sha512) == ScanState(metadata, false)
    {
      var resource := resources[j];
      ghost var before := seen + ResourceCandidates(dataset, resources[..j]);
      ResourceCandidatesStep(dataset, resources, j);
      ConcatAssoc(seen, ResourceCandidates(dataset, resources[..j]),
                  if resource.url.Some? then [Candidate(dataset, resource, resource.url.value)] else []);
      if resource.url.Some? {
        var c := Candidate(dataset, resource, resource.url.value);
        FingerprintsStep(before, c, download, sha512);
        var hash := GetHash(resource.url.value, download, sha512);
        if hash.None? {
          // NameError from get_hash: caught by the scan's except branch.
          FailureIgnoresLaterResources(dataset, resources, j, seen, download, sha512);
          return metadata, true;
        }
        if |hash.value| > 0 {
          metadata := metadata[hash.value := RecordOf(c)];
        }
      } else {
        assert before + [] == before;
      }
    }
    assert resources[..|resources|] == resources;
  }

  lemma FailureIgnoresLaterResources(d: Dataset, rs: seq<Resource>, j: nat, seen: seq<Candidate>,
                                     download: Downloader, sha512: Hasher)
    requires j < |rs|
    requires Fingerprints(seen + ResourceCandidates(d, rs[..j + 1]), download, sha512).failed
    ensures Fingerprints(seen + ResourceCandidates(d, rs), download, sha512)
            == Fingerprints(seen + ResourceCandidates(d, rs[..j + 1]), download, sha512)
  {
    assert rs == rs[..j + 1] + rs[j + 1..];
    ResourceCandidatesAppend(d, rs[..j + 1], rs[j + 1..]);
    ConcatAssoc(seen, ResourceCandidates(d, rs[..j + 1]), ResourceCandidates(d, rs[j + 1..]));
    FailedScanIgnoresRest(seen + ResourceCandidates(d, rs[..j + 1]), ResourceCandidates(d, rs[j + 1..]), download, sha512);
  }

  /** The eligible records of one page, hashed in order after the candidates `seen`. */
  method FingerprintPage(page: Page, download: Downloader, sha512: Hasher,
                         metadata0: map<Digest, Record>, ghost seen: seq<Candidate>)
    returns (metadata: map<Digest, Record>, failed: bool)
    requires Fingerprints(seen, download, sha512) == ScanState(metadata0, false)
    ensures Fingerprints(seen + DatasetsCandidates(page), download, sha512) == ScanState(metadata, failed)
  {
    metadata, failed := metadata0, false;
    assert seen + DatasetsCandidates(page[..0]) == seen;
    for i := 0 to |page|
      invariant Fingerprints(seen + DatasetsCandidates(page[..i]), download, sha512) == ScanState(metadata, false)
    {
      var dataset := page[i];
      ghost var before := seen + DatasetsCandidates(page[..i]);
      DatasetsCandidatesStep(page, i);
      ConcatAssoc(seen, DatasetsCandidates(page[..i]), DatasetCandidates(dataset));
      if dataset.kind.Some? && dataset.kind.value == "dataset" {
        if dataset.resources.Some? {
          metadata, failed := FingerprintResources(dataset, dataset.resources.value, download, sha512, metadata, before);
          if failed {
            FailureIgnoresLaterRecords(page, i, seen, download, sha512);
            return;
          }
        } else {
          assert before + [] == before;
        }
      } else {
        assert before + [] == before;
      }
    }
    assert page[..|page|] == page;
  }

  lemma FailureIgnoresLaterRecords(page: Page, i: nat, seen: seq<Candidate>, download: Downloader, sha512: Hasher)
    requires i < |page|
    requires Fingerprints(seen + DatasetsCandidates(page[..i + 1]), download, sha512).failed
    ensures Fingerprints(seen + DatasetsCandidates(page), download, sha512)
            == Fingerprints(seen + DatasetsCandidates(page[..i + 1]), download, sha512)
  {
    assert page == page[..i + 1] + page[i + 1..];
    DatasetsCandidatesAppend(page[..i + 1], page[i + 1..]);
    ConcatAssoc(seen, DatasetsCandidates(page[..i + 1]), DatasetsCandidates(page[i + 1..]));
    FailedScanIgnoresRest(seen + DatasetsCandidates(page[..i + 1]), DatasetsCandidates(page[i + 1..]), download, sha512);
  }

  lemma PagesCandidatesStep(pages: seq<Page>, page: Page)
    ensures PagesCandidates(pages + [page]) == PagesCandidates(pages) + DatasetsCandidates(page)
  {
    assert (pages + [page])[..|pages|] == pages;
  }

  /**
   * `get_resource_fingerprints`: scan the pages, hash each eligible resource
   * and set `metadata[digest]` to its record.  An empty page or a failing
   * request ends the scan; so does the first failed download, inside the page
   * that holds it.  Either way the map built so far is returned.
   */
  method GetResourceFingerprints(server: Server, download: Downloader, sha512: Hasher)
    returns (metadata: map<Digest, Record>, ghost pages: seq<Page>)
    requires Exhausts(server)
    ensures Fetched(server, pages)
    ensures metadata == Fingerprints(PagesCandidates(pages), download, sha512).metadata
    ensures if Fingerprints(PagesCandidates(pages), download, sha512).failed
            then pages != [] && !Fingerprints(PagesCandidates(pages[..|pages| - 1]), download, sha512).failed
            else Stops(server(RequestAt(|pages|)))
  {
    metadata := map[];
    pages := [];
    var offset := 0;
    ghost var bound: nat :| Stops(server(RequestAt(bound)));
    while true
      invariant offset == PageSize * |pages|
      invariant Fetched(server, pages)
      invariant |pages| <= bound
      invariant Fingerprints(PagesCandidates(pages), download, sha512) == ScanState(metadata, false)
      decreases bound - |pages|
    {
      var response := server(PageRequest(PageSize, offset));
      if response.FetchFailed? {
        return;
      }
      var page := response.datasets;
      if |page| == 0 {
        break;
      }
      offset := offset + PageSize;
      var failed;
      metadata, failed := FingerprintPage(page, download, sha512, metadata, PagesCandidates(pages));
      PagesCandidatesStep(pages, page);
      FetchedStep(server, pages, page);
      pages := pages + [page];
      if failed {
        return;
      }
    }
  }


  // ---------------------------------------------------------------------
  // What the fingerprint map holds

  /** A scan fails exactly when the download of one of its candidates fails. */
  lemma {:induction false} FailedIffSomeDownloadFails(cs: seq<Candidate>, download: Downloader, sha512: Hasher)
    ensures Fingerprints(cs, download, sha512).failed <==> exists k :: 0 <= k < |cs| && download(cs[k].url).None?
    decreases |cs|
  {
    if cs != [] {
      var init, last := cs[..|cs| - 1], cs[|cs| - 1];
      FailedIffSomeDownloadFails(init, download, sha512);
      if Fingerprints(cs, download, sha512).failed {
        if Fingerprints(init, download, sha512).failed {
          var k :| 0 <= k < |init| && download(init[k].url).None?;
          assert cs[k] == init[k];
        } else {
          assert download(cs[|cs| - 1].url).None?;
        }
      } else {
        forall k | 0 <= k < |cs| ensures download(cs[k].url).Some? {
          if k < |init| {
            assert cs[k] == init[k];
          }
        }
      }
    }
  }

  /**
   * The fingerprint map as the scan was evidently meant to build it: a failed
   * download is logged and its resource skipped, and the scan goes on.
   */
  function FingerprintsSkipping(cs: seq<Candidate>, download: Downloader, sha512: Hasher): map<Digest, Record> {
    if cs == [] then map[]
    else
      var m, c := FingerprintsSkipping(cs[..|cs| - 1], download, sha512), cs[|cs| - 1];
      match HashOf(c.url, download, sha512)
      case None => m
      case Some(h) => if |h| == 0 then m else m[h := RecordOf(c)]
  }

  /** When no download fails, the scan as written and the skipping scan build the same map. */
  lemma {:induction false} SkippingAgreesWithoutFailures(cs: seq<Candidate>, download: Downloader, sha512: Hasher)
    requires forall k :: 0 <= k < |cs| ==> download(cs[k].url).Some?
    ensures Fingerprints(cs, download, sha512) == ScanState(FingerprintsSkipping(cs, download, sha512), false)
    decreases |cs|
  {
    if cs != [] {
      var init := cs[..|cs| - 1];
      forall k | 0 <= k < |init| ensures download(init[k].url).Some? {
        assert init[k] == cs[k];
      }
      SkippingAgreesWithoutFailures(init, download, sha512);
    }
  }

  /**
   * A digest is a key of the skipping scan's map exactly when it is non-empty
   * and the body of some candidate hashes to it.
   */
  lemma {:induction false} SkippingStoresEveryDigest(cs: seq<Candidate>, h: Digest, download: Downloader, sha512: Hasher)
    ensures h in FingerprintsSkipping(cs, download, sha512)
            <==> |h| > 0 && exists k :: 0 <= k < |cs| && HashOf(cs[k].url, download, sha512) == Some(h)
    decreases |cs|
  {
    if cs != [] {
      var init, last := cs[..|cs| - 1], cs[|cs| - 1];
      SkippingStoresEveryDigest(init, h, download, sha512);
      if h in FingerprintsSkipping(cs, download, sha512) {
        if HashOf(last.url, download, sha512) != Some(h) {
          var k :| 0 <= k < |init| && HashOf(init[k].url, download, sha512) == Some(h);
          assert cs[k] == init[k];
        }
      } else if |h| > 0 {
        forall k | 0 <= k < |cs| ensures HashOf(cs[k].url, download, sha512) != Some(h) {
          if k < |init| {
            assert cs[k] == init[k];
          }
        }
      }
    }
  }

  /** The record stored for a digest is that of the last candidate, in scan order, that hashes to it. */
  lemma {:induction false} SkippingLastWriteWins(cs: seq<Candidate>, k: nat, download: Downloader, sha512: Hasher)
    requires k < |cs|
    requires HashOf(cs[k].url, download, sha512).Some? && |HashOf(cs[k].url, download, sha512).value| > 0
    requires forall k' :: k < k' < |cs| ==> HashOf(cs[k'].url, download, sha512) != HashOf(cs[k].url, download, sha512)
    ensures HashOf(cs[k].url, download, sha512).value in FingerprintsSkipping(cs, download, sha512)
    ensures FingerprintsSkipping(cs, download, sha512)[HashOf(cs[k].url, download, sha512).value] == RecordOf(cs[k])
    decreases |cs|
  {
    var init := cs[..|cs| - 1];
    if k < |init| {
      assert init[k] == cs[k];
      forall k' | k < k' < |init|
        ensures HashOf(init[k'].url, download, sha512) != HashOf(init[k].url, download, sha512)
      {
        assert init[k'] == cs[k'];
      }
      SkippingLastWriteWins(init, k, download, sha512);
    }
  }

  /** With no failed download, the scan's map holds exactly the non-empty digests of the candidates. */
  lemma StoredIffHashed(cs: seq<Candidate>, h: Digest, download: Downloader, sha512: Hasher)
    requires !Fingerprints(cs, download, sha512).failed
    ensures h in Fingerprints(cs, download, sha512).metadata
            <==> |h| > 0 && exists k :: 0 <= k < |cs| && HashOf(cs[k].url, download, sha512) == Some(h)
  {
    FailedIffSomeDownloadFails(cs, download, sha512);
    SkippingAgreesWithoutFailures(cs, download, sha512);
    SkippingStoresEveryDigest(cs, h, download, sha512);
  }

  /**
   * Inserting a digest already present replaces its record: with no failed
   * download, each digest maps to the record of the last candidate hashing to it.
   */
  lemma LastWriteWins(cs: seq<Candidate>, k: nat, download: Downloader, sha512: Hasher)
    requires !Fingerprints(cs, download, sha512).failed
    requires k < |cs|
    requires HashOf(cs[k].url, download, sha512).Some? && |HashOf(cs[k].url, download, sha512).value| > 0
    requires forall k' :: k < k' < |cs| ==> HashOf(cs[k'].url, download, sha512) != HashOf(cs[k].url, download, sha512)
    ensures HashOf(cs[k].url, download, sha512).value in Fingerprints(cs, download, sha512).metadata
    ensures Fingerprints(cs, download, sha512).metadata[HashOf(cs[k].url, download, sha512).value] == RecordOf(cs[k])
  {
    FailedIffSomeDownloadFails(cs, download, sha512);
    SkippingAgreesWithoutFailures(cs, download, sha512);
    SkippingLastWriteWins(cs, k, download, sha512);
  }

  /**
   * The first failed download, at candidate k, ends the scan: the result is the
   * map built from the candidates before it, marked failed.
   */
  lemma {:induction false} FirstFailureEndsScan(cs: seq<Candidate>, k: nat, download: Downloader, sha512: Hasher)
    requires k < |cs| && download(cs[k].url).None?
    requires forall i :: 0 <= i < k ==> download(cs[i].url).Some?
    ensures Fingerprints(cs, download, sha512) == ScanState(FingerprintsSkipping(cs[..k], download, sha512), true)
    decreases |cs|
  {
    var init := cs[..|cs| - 1];
    if |cs| == k + 1 {
      assert init == cs[..k];
      forall i | 0 <= i < |init| ensures download(init[i].url).Some? {
        assert init[i] == cs[i];
      }
      SkippingAgreesWithoutFailures(init, download, sha512);
    } else {
      assert init[k] == cs[k] && init[..k] == cs[..k];
      forall i | 0 <= i < k ensures download(init[i].url).Some? {
        assert init[i] == cs[i];
      }
      FirstFailureEndsScan(init, k, download, sha512);
    }
  }

  /** Every stored record has exactly the keys title, dataset_id, resource_id and url. */
  lemma {:induction false} StoredRecordsHaveKeys(cs: seq<Candidate>, download: Downloader, sha512: Hasher)
    ensures forall h :: h in Fingerprints(cs, download, sha512).metadata ==> Fingerprints(cs, download, sha512).metadata[h].Keys == RecordKeys
    decreases |cs|
  {
    if cs != [] {
      StoredRecordsHaveKeys(cs[..|cs| - 1], download, sha512);
      assert RecordOf(cs[|cs| - 1]).Keys == RecordKeys;
    }
  }

  /** The candidates of one record's resources are its resources with a URL. */
  lemma {:induction false} ResourceCandidatesMembers(d: Dataset, rs: seq<Resource>, c: Candidate)
    ensures c in ResourceCandidates(d, rs) <==> c.dataset == d && c.resource in rs && c.resource.url == Some(c.url)
    decreases |rs|
  {
    if rs != [] {
      var init := rs[..|rs| - 1];
      ResourceCandidatesMembers(d, init, c);
      assert rs == init + [rs[|rs| - 1]];
    }
  }

  /**
   * The candidates of a list of records: resources with a URL of records whose
   * type is "dataset" and that have resources.
   */
  lemma {:induction false} DatasetsCandidatesMembers(ds: seq<Dataset>, c: Candidate)
    ensures c in DatasetsCandidates(ds)
            <==> c.dataset in ds && Eligible(c.dataset) && c.resource in c.dataset.resources.value && c.resource.url == Some(c.url)
    decreases |ds|
  {
    if ds != [] {
      var init, last := ds[..|ds| - 1], ds[|ds| - 1];
      DatasetsCandidatesMembers(init, c);
      assert ds == init + [last];
      if Eligible(last) {
        ResourceCandidatesMembers(last, last.resources.value, c);
      }
    }
  }

  /** Only eligible resources are considered for hashing, and every one of them is. */
  lemma {:induction false} PagesCandidatesMembers(pages: seq<Page>, c: Candidate)
    ensures c in PagesCandidates(pages)
            <==> (exists p :: p in pages && c.dataset in p)
                 && Eligible(c.dataset) && c.resource in c.dataset.resources.value && c.resource.url == Some(c.url)
    decreases |pages|
  {
    if pages != [] {
      var init, last := pages[..|pages| - 1], pages[|pages| - 1];
      PagesCandidatesMembers(init, c);
      DatasetsCandidatesMembers(last, c);
      assert pages == init + [last];
      if c !in PagesCandidates(pages) && exists p :: p in pages && c.dataset in p {
        var p :| p in pages && c.dataset in p;
        if p == last {
          assert c.dataset in last;
        } else {
          assert p in init;
        }
      }
    }
  }

  /**
   * As written, a failed download ends the scan: here the first resource's
   * download fails, so the second resource, whose body hashes to [1], is never
   * fingerprinted; the skipping scan stores it.
   */
  lemma FailedDownloadEndsScan()
    ensures var d := Dataset("d", "n", Some("dataset"), Some([Resource("r1", Some("down"), None), Resource("r2", Some("up"), None)]));
            var download: Downloader := u => if u == "up" then Some([[1 as Byte]]) else None;
            var sha512: Hasher := b => b;
            var cs := PagesCandidates([[d]]);
            Fingerprints(cs, download, sha512) == ScanState(map[], true)
            && [1 as Byte] in FingerprintsSkipping(cs, download, sha512)
  {
    var d := Dataset("d", "n", Some("dataset"), Some([Resource("r1", Some("down"), None), Resource("r2", Some("up"), None)]));
    var rs := d.resources.value;
    var download: Downloader := u => if u == "up" then Some([[1 as Byte]]) else None;
    var sha512: Hasher := b => b;
    var c1, c2 := Candidate(d, rs[0], "down"), Candidate(d, rs[1], "up");
    assert rs[..1][..0] == [];
    assert ResourceCandidates(d, rs[..1]) == [c1];
    assert rs[..2][..1] == rs[..1];
    assert rs[..2] == rs;
    assert ResourceCandidates(d, rs) == [c1, c2];
    assert [d][..0] == [];
    assert DatasetCandidates(d) == [c1, c2];
    assert DatasetsCandidates([d]) == DatasetsCandidates([]) + DatasetCandidates(d);
    assert DatasetsCandidates([d]) == [c1, c2];
    assert [[d]][..0] == [];
    assert PagesCandidates([[d]]) == PagesCandidates([]) + DatasetsCandidates([d]);
    var cs := PagesCandidates([[d]]);
    assert cs == [c1, c2];
    assert [c1, c2][..1] == [c1];
    assert [c1][..0] == [];
    assert Flatten([[1 as Byte]]) == [1 as Byte] by {
      assert [[1 as Byte]][..0] == [];
    }
    assert HashOf("up", download, sha512) == Some([1 as Byte]);
    assert HashOf("down", download, sha512) == None;
    assert Fingerprints([c1], download, sha512) == ScanState(map[], true);
  }

  // ---------------------------------------------------------------------
  // The join with a DCAT-US 1.1 document (the comparison loop of the script)

  /** A DCAT-US distribution; `downloadURL` is None when the key is absent. */
  datatype Distribution = Distribution(downloadURL: Option<string>)

  /** A DCAT-US dataset; None stands for an absent key. */
  datatype DcatDataset = DcatDataset(identifier: Option<string>, title: Option<string>,
                                     distribution: Option<seq<Distribution>>)

  /** A distribution with a `downloadURL`, with the dataset that lists it. */
  datatype Link = Link(dataset: DcatDataset, url: string)

  function DistributionLinks(d: DcatDataset, ds: seq<Distribution>): seq<Link> {
    if ds == [] then []
    else
      var last := ds[|ds| - 1];
      DistributionLinks(d, ds[..|ds| - 1]) + (if last.downloadURL.Some? then [Link(d, last.downloadURL.value)] else [])
  }

  function DatasetLinks(d: DcatDataset): seq<Link> {
    if d.distribution.Some? then DistributionLinks(d, d.distribution.value) else []
  }

  /** Every distribution the comparison hashes, in document order. */
  function DocumentLinks(doc: seq<DcatDataset>): seq<Link> {
    if doc == [] then [] else DocumentLinks(doc[..|doc| - 1]) + DatasetLinks(doc[|doc| - 1])
  }

  /** The two keys the output line reads for the catalogue dataset and resource identifiers. */
  datatype RowKeys = RowKeys(datasetKey: string, resourceKey: string)

  /** The keys as the script reads them. */
  const WrittenKeys := RowKeys("datasetid", "resourceid")

  /** The keys the fingerprint records are stored under. */
  const StoredKeys := RowKeys("dataset_id", "resource_id")

  /**
   * One output line: catalogue dataset id, resource id and URL, DCAT dataset
   * identifier and download URL, catalogue title and DCAT title.
   */
  datatype Row = Row(datasetId: string, resourceId: string, url: string, identifier: string,
                     downloadURL: string, title: string, dcatTitle: string)

  /** What ends the comparison early: a failed download or a missing key (an uncaught exception). */
  datatype JoinFailure = DownloadFailed(url: string) | KeyMissing(key: string)

  datatype RowResult = RowOk(row: Row) | RowErr(key: string)

  /** The output line for a match, reading its fields in the order the format string does. */
  function RowOf(rec: Record, l: Link, keys: RowKeys): (r: RowResult)
    ensures r.RowOk? <==> keys.datasetKey in rec && keys.resourceKey in rec && "url" in rec && "title" in rec
                          && l.dataset.identifier.Some? && l.dataset.title.Some?
  {
    if keys.datasetKey !in rec then RowErr(keys.datasetKey)
    else if keys.resourceKey !in rec then RowErr(keys.resourceKey)
    else if "url" !in rec then RowErr("url")
    else if l.dataset.identifier.None? then RowErr("identifier")
    else if "title" !in rec then RowErr("title")
    else if l.dataset.title.None? then RowErr("title")
    else RowOk(Row(rec[keys.datasetKey], rec[keys.resourceKey], rec["url"], l.dataset.identifier.value,
                   l.url, rec["title"], l.dataset.title.value))
  }

  /** The lines printed so far, and what ended the comparison, if anything did. */
  datatype Report = Report(rows: seq<Row>, failure: Option<JoinFailure>)

  /** A link whose content has a non-empty digest that is a key of the fingerprint map. */
  predicate Matches(l: Link, metadata: map<Digest, Record>, download: Downloader, sha512: Hasher) {
    var h := HashOf(l.url, download, sha512);
    h.Some? && |h.value| > 0 && h.value in metadata
  }

  function JoinStep(rep: Report, l: Link, metadata: map<Digest, Record>, download: Downloader, sha512: Hasher,
                    keys: RowKeys): Report
  {
    if rep.failure.Some? then rep
    else match HashOf(l.url, download, sha512)
      case None => Report(rep.rows, Some(DownloadFailed(l.url)))
      case Some(h) =>
        if |h| > 0 && h in metadata then
          match RowOf(metadata[h], l, keys)
          case RowErr(k) => Report(rep.rows, Some(KeyMissing(k)))
          case RowOk(row) => Report(rep.rows + [row], None)
        else rep
  }

  function Join(links: seq<Link>, metadata: map<Digest, Record>, download: Downloader, sha512: Hasher,
                keys: RowKeys): Report
  {
    if links == [] then Report([], None)
    else JoinStep(Join(links[..|links| - 1], metadata, download, sha512, keys), links[|links| - 1],
                  metadata, download, sha512, keys)
  }

  lemma JoinAppend(links: seq<Link>, l: Link, metadata: map<Digest, Record>, download: Downloader, sha512: Hasher,
                   keys: RowKeys)
    ensures Join(links + [l], metadata, download, sha512, keys)
            == JoinStep(Join(links, metadata, download, sha512, keys), l, metadata, download, sha512, keys)
  {
    assert (links + [l])[..|links|] == links;
  }

  lemma {:induction false} JoinStopped(links: seq<Link>, more: seq<Link>, metadata: map<Digest, Record>,
                                       download: Downloader, sha512: Hasher, keys: RowKeys)
    requires Join(links, metadata, download, sha512, keys).failure.Some?
    ensures Join(links + more, metadata, download, sha512, keys) == Join(links, metadata, download, sha512, keys)
    decreases |more|
  {
    if more == [] {
      assert links + more == links;
    } else {
      var init := more[..|more| - 1];
      assert (links + more)[..|links + more| - 1] == links + init;
      JoinStopped(links, init, metadata, download, sha512, keys);
    }
  }

  lemma {:induction false} DocumentLinksAppend(a: seq<DcatDataset>, b: seq<DcatDataset>)
    ensures DocumentLinks(a + b) == DocumentLinks(a) + DocumentLinks(b)
    decreases |b|
  {
    if b == [] {
      assert a + b == a;
    } else {
      assert (a + b)[..|a + b| - 1] == a + b[..|b| - 1];
      DocumentLinksAppend(a, b[..|b| - 1]);
    }
  }

  lemma {:induction false} JoinStoppedInDistributions(d: DcatDataset, ds: seq<Distribution>, j: nat, done: seq<Link>,
                                   metadata: map<Digest, Record>, download: Downloader, sha512: Hasher, keys: RowKeys)
    requires j < |ds|
    requires Join(done + DistributionLinks(d, ds[..j + 1]), metadata, download, sha512, keys).failure.Some?
    ensures Join(done + DistributionLinks(d, ds), metadata, download, sha512, keys)
            == Join(done + DistributionLinks(d, ds[..j + 1]), metadata, download, sha512, keys)
    decreases |ds|
  {
    if |ds| == j + 1 {
      assert ds[..j + 1] == ds;
    } else {
      var init, last := ds[..|ds| - 1], ds[|ds| - 1];
      assert init[..j + 1] == ds[..j + 1];
      JoinStoppedInDistributions(d, init, j, done, metadata, download, sha512, keys);
      var tail := if last.downloadURL.Some? then [Link(d, last.downloadURL.value)] else [];
      assert DistributionLinks(d, ds) == DistributionLinks(d, init) + tail;
      ConcatAssoc(done, DistributionLinks(d, init), tail);
      JoinStopped(done + DistributionLinks(d, init), tail, metadata, download, sha512, keys);
    }
  }

  lemma JoinStoppedInDocument(doc: seq<DcatDataset>, i: nat,
                              metadata: map<Digest, Record>, download: Downloader, sha512: Hasher, keys: RowKeys)
    requires i < |doc|
    requires Join(DocumentLinks(doc[..i + 1]), metadata, download, sha512, keys).failure.Some?
    ensures Join(DocumentLinks(doc), metadata, download, sha512, keys)
            == Join(DocumentLinks(doc[..i + 1]), metadata, download, sha512, keys)
  {
    assert doc == doc[..i + 1] + doc[i + 1..];
    DocumentLinksAppend(doc[..i + 1], doc[i + 1..]);
    JoinStopped(DocumentLinks(doc[..i + 1]), DocumentLinks(doc[i + 1..]), metadata, download, sha512, keys);
  }

  /** The distributions of one DCAT dataset, compared in order after the links `done`. */
  method CompareDistributions(d: DcatDataset, ds: seq<Distribution>, metadata: map<Digest, Record>,
                              download: Downloader, sha512: Hasher, keys: RowKeys,
                              rows0: seq<Row>, ghost done: seq<Link>)
    returns (report: Report)
    requires Join(done, metadata, download, sha512, keys) == Report(rows0, None)
    ensures report == Join(done + DistributionLinks(d, ds), metadata, download, sha512, keys)
  {
    var rows := rows0;
    assert done + DistributionLinks(d, ds[..0]) == done;
    for j := 0 to |ds|
      invariant Join(done + DistributionLinks(d, ds[..j]), metadata, download, sha512, keys) == Report(rows, None)
    {
      var distribution := ds[j];
      ghost var before := done + DistributionLinks(d, ds[..j]);
      assert ds[..j + 1][..j] == ds[..j];
      ConcatAssoc(done, DistributionLinks(d, ds[..j]),
                  if distribution.downloadURL.Some? then [Link(d, distribution.downloadURL.value)] else []);
      if distribution.downloadURL.Some? {
        var link := Link(d, distribution.downloadURL.value);
        JoinAppend(before, link, metadata, download, sha512, keys);
        var dcathash := GetHash(distribution.downloadURL.value, download, sha512);
        if dcathash.None? {
          // NameError from get_hash: nothing catches it, and the script ends.
          JoinStoppedInDistributions(d, ds, j, done, metadata, download, sha512, keys);
          return Report(rows, Some(DownloadFailed(link.url)));
        }
        if |dcathash.value| > 0 && dcathash.value in metadata {
          var row := RowOf(metadata[dcathash.value], link, keys);
          if row.RowErr? {
            // KeyError from the output line.
            JoinStoppedInDistributions(d, ds, j, done, metadata, download, sha512, keys);
            return Report(rows, Some(KeyMissing(row.key)));
          }
          rows := rows + [row.row];
        }
      } else {
        assert before + [] == before;
      }
    }
    assert ds[..|ds|] == ds;
    report := Report(rows, None);
  }

  /**
   * The comparison loop: hash the `downloadURL` of every distribution of every
   * dataset of the document and print a line for each digest found in the
   * fingerprint map.  What it prints, and what stopped it, is the join.
   */
  method CompareWithCatalogue(doc: seq<DcatDataset>, metadata: map<Digest, Record>,
                              download: Downloader, sha512: Hasher, keys: RowKeys)
    returns (report: Report)
    ensures report == Join(DocumentLinks(doc), metadata, download, sha512, keys)
  {
    report := Report([], None);
    assert doc[..0] == [];
    for i := 0 to |doc|
      invariant report.failure.None?
      invariant Join(DocumentLinks(doc[..i]), metadata, download, sha512, keys) == report
    {
      var dataset := doc[i];
      assert doc[..i + 1][..i] == doc[..i];
      if dataset.distribution.Some? {
        report := CompareDistributions(dataset, dataset.distribution.value, metadata, download, sha512, keys,
                                       report.rows, DocumentLinks(doc[..i]));
        if report.failure.Some? {
          JoinStoppedInDocument(doc, i, metadata, download, sha512, keys);
          return;
        }
      } else {
        assert DocumentLinks(doc[..i]) + [] == DocumentLinks(doc[..i]);
      }
    }
    assert doc[..|doc|] == doc;
  }

  /** The links of a document are its distributions that have a `downloadURL`; datasets without `distribution` give none. */
  lemma {:induction false} DocumentLinksMembers(doc: seq<DcatDataset>, l: Link)
    ensures l in DocumentLinks(doc)
            <==> l.dataset in doc && l.dataset.distribution.Some? && Distribution(Some(l.url)) in l.dataset.distribution.value
    decreases |doc|
  {
    if doc != [] {
      var init, last := doc[..|doc| - 1], doc[|doc| - 1];
      DocumentLinksMembers(init, l);
      assert doc == init + [last];
      if last.distribution.Some? {
        DistributionLinksMembers(last, last.distribution.value, l);
      }
    }
  }

  lemma {:induction false} DistributionLinksMembers(d: DcatDataset, ds: seq<Distribution>, l: Link)
    ensures l in DistributionLinks(d, ds) <==> l.dataset == d && Distribution(Some(l.url)) in ds
    decreases |ds|
  {
    if ds != [] {
      var init := ds[..|ds| - 1];
      DistributionLinksMembers(d, init, l);
      assert ds == init + [ds[|ds| - 1]];
    }
  }

  /** The fingerprint records carry the stored keys, as every record of a fingerprint scan does. */
  ghost predicate StoredRecords(metadata: map<Digest, Record>) {
    forall h :: h in metadata ==> metadata[h].Keys == RecordKeys
  }

  /**
   * As written, nothing is ever printed: the first link whose digest is in the
   * map raises a KeyError on `datasetid`, so a comparison that ends without a
   * failure met no match at all.
   */
  lemma {:induction false} WrittenKeysNeverReport(links: seq<Link>, metadata: map<Digest, Record>,
                                                  download: Downloader, sha512: Hasher)
    requires StoredRecords(metadata)
    ensures Join(links, metadata, download, sha512, WrittenKeys).rows == []
    ensures Join(links, metadata, download, sha512, WrittenKeys).failure.None?
            ==> forall k :: 0 <= k < |links| ==> !Matches(links[k], metadata, download, sha512)
    ensures var f := Join(links, metadata, download, sha512, WrittenKeys).failure;
            f.Some? ==> f.value.DownloadFailed? || f.value == KeyMissing("datasetid")
    decreases |links|
  {
    if links != [] {
      var init, l := links[..|links| - 1], links[|links| - 1];
      WrittenKeysNeverReport(init, metadata, download, sha512);
      var h := HashOf(l.url, download, sha512);
      if h.Some? && h.value in metadata {
        assert "datasetid" !in metadata[h.value];
      }
      if Join(links, metadata, download, sha512, WrittenKeys).failure.None? {
        forall k | 0 <= k < |links| ensures !Matches(links[k], metadata, download, sha512) {
          if k < |init| {
            assert init[k] == links[k];
          }
        }
      }
    }
  }

  /** The line printed for a link matched to a record that has the stored keys. */
  function ExpectedRow(rec: Record, l: Link): Row
    requires RecordKeys <= rec.Keys && l.dataset.identifier.Some? && l.dataset.title.Some?
  {
    Row(rec["dataset_id"], rec["resource_id"], rec["url"], l.dataset.identifier.value, l.url,
        rec["title"], l.dataset.title.value)
  }

  /** Every link can be downloaded and its dataset has an identifier and a title. */
  predicate WellFormedLinks(links: seq<Link>, download: Downloader) {
    forall k :: 0 <= k < |links| ==>
      download(links[k].url).Some? && links[k].dataset.identifier.Some? && links[k].dataset.title.Some?
  }

  /**
   * With the keys the records are stored under, a comparison of well-formed
   * links ends normally and prints the expected line of exactly the links that
   * match.
   */
  /**
   * The lines the comparison is evidently meant to print: one per link whose
   * digest is a key of the fingerprint map, built from the matched record,
   * in document order.
   */
  function MatchedRows(links: seq<Link>, metadata: map<Digest, Record>, download: Downloader, sha512: Hasher)
    : seq<Row>
    requires StoredRecords(metadata)
    requires forall k :: 0 <= k < |links| ==> links[k].dataset.identifier.Some? && links[k].dataset.title.Some?
  {
    if links == [] then []
    else
      var l := links[|links| - 1];
      MatchedRows(links[..|links| - 1], metadata, download, sha512)
      + (if Matches(l, metadata, download, sha512)
         then [ExpectedRow(metadata[HashOf(l.url, download, sha512).value], l)] else [])
  }

  /** With the stored keys, the comparison prints exactly `MatchedRows`, in order, and ends normally. */
  lemma {:induction false} StoredKeysReportInOrder(links: seq<Link>, metadata: map<Digest, Record>,
                                                   download: Downloader, sha512: Hasher)
    requires StoredRecords(metadata)
    requires WellFormedLinks(links, download)
    ensures Join(links, metadata, download, sha512, StoredKeys)
            == Report(MatchedRows(links, metadata, download, sha512), None)
    decreases |links|
  {
    if links != [] {
      var init, l := links[..|links| - 1], links[|links| - 1];
      forall k | 0 <= k < |init|
        ensures download(init[k].url).Some? && init[k].dataset.identifier.Some? && init[k].dataset.title.Some?
      {
        assert init[k] == links[k];
      }
      StoredKeysReportInOrder(init, metadata, download, sha512);
      if Matches(l, metadata, download, sha512) {
        var rec := metadata[HashOf(l.url, download, sha512).value];
        assert RowOf(rec, l, StoredKeys) == RowOk(ExpectedRow(rec, l));
      }
    }
  }

  lemma {:induction false} StoredKeysReportEveryMatch(links: seq<Link>, metadata: map<Digest, Record>,
                                                      download: Downloader, sha512: Hasher, r: Row)
    requires StoredRecords(metadata)
    requires WellFormedLinks(links, download)
    ensures Join(links, metadata, download, sha512, StoredKeys).failure.None?
    ensures Join(links, metadata, download, sha512, StoredKeys).rows == MatchedRows(links, metadata, download, sha512)
    ensures r in Join(links, metadata, download, sha512, StoredKeys).rows
            <==> exists k :: 0 <= k < |links| && Matches(links[k], metadata, download, sha512)
                             && r == ExpectedRow(metadata[HashOf(links[k].url, download, sha512).value], links[k])
    decreases |links|
  {
    StoredKeysReportInOrder(links, metadata, download, sha512);
    if links != [] {
      var init, l := links[..|links| - 1], links[|links| - 1];
      forall k | 0 <= k < |init|
        ensures download(init[k].url).Some? && init[k].dataset.identifier.Some? && init[k].dataset.title.Some?
      {
        assert init[k] == links[k];
      }
      StoredKeysReportEveryMatch(init, metadata, download, sha512, r);
      var rows := Join(links, metadata, download, sha512, StoredKeys).rows;
      if r in rows {
        if r !in Join(init, metadata, download, sha512, StoredKeys).rows {
          assert Matches(links[|links| - 1], metadata, download, sha512);
        } else {
          var k :| 0 <= k < |init| && Matches(init[k], metadata, download, sha512)
                   && r == ExpectedRow(metadata[HashOf(init[k].url, download, sha512).value], init[k]);
          assert init[k] == links[k];
        }
      } else {
        forall k | 0 <= k < |links| && Matches(links[k], metadata, download, sha512)
          ensures r != ExpectedRow(metadata[HashOf(links[k].url, download, sha512).value], links[k])
        {
          if k < |init| {
            assert init[k] == links[k];
          }
        }
      }
    }
  }
}
