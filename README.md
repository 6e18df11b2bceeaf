# CKAN catalogue clients: a Dafny model

This project models the data-processing core of a set of CKAN command-line clients. It covers four routines.

- **`retrieve_metadata`** (`retrieve_all_metadata.py`) collects the pages of `current_package_list_with_resources`.
- **`sum_resource_size`** (`datasize.py`) sums the sizes of the resources of every record of type "dataset". A resource's size is its declared `size` or, failing that, the `Content-Length` of a HEAD request. An optional URL prefix filter can exclude resources.
- **`compare_resource_contents.py`** has two parts:
  - `get_hash` and `get_resource_fingerprints` fingerprint every catalogue resource by the SHA-512 digest of its downloaded content;
  - the comparison loop of the script looks up the digest of every `downloadURL` of a DCAT-US 1.1 document among those fingerprints.
- **`hierarchy_search_compare.py`** climbs to a package's top-level parent (`child_of`) and filters its relationships in place. It then collects the flat list of descendants (`parent_of`) into a shared list and nests that list level by level from the deepest.

Every remote call is replaced by an oracle:

- the catalogue: a function from a page request `{limit, offset}` to a page of records or a failure;
- HEAD requests, with the timeout folded into the outcome;
- streamed downloads: a URL to `Option<chunks>`;
- SHA-512 (FIPS 180-4): an uninterpreted function on byte strings;
- relationship listing and package lookup in the hierarchy script.

The scan drivers share one loop. It requests `{limit: 1000, offset}` at offsets 0, 1000, 2000, and so on, and returns its partial result on a failure. Every driver is a method whose `while` loop keeps `offset == 1000 * |pages|` as an invariant. Each has the precondition `Exhausts`: some request stops the scan. That is what makes termination provable.

Files and modules:

- `catalogue.dfy`, module `Catalogue`: records, page requests, the server oracle and what a scan fetches.
- `retrieve_all_metadata.dfy`, module `MetadataRetrieval`.
- `datasize.dfy`, module `Datasize`.
- `compare_resource_contents.dfy`, module `ResourceContents`.
- `hierarchy_search_compare.dfy`, module `Hierarchy`.

Each loop of the source is a method with invariants. Each method is proved equal to a specification function of its inputs, or to the unique scan of the server: a fold over the scanned pages, the eligible resources or the document's distributions. `HierarchyList.Collect`, which extends a shared list in place, instead ensures an equation between the list before and after the call. The properties are lemmas about those functions.

The except branch of `get_hash` logs the error and evidently means to return no value, so that `if hash:` skips the resource. In Python, though, `null` is undefined, so the branch raises a NameError. That ends the whole fingerprint scan and the comparison. The model follows the code as written. The skipping scan that was evidently intended is modelled beside it: see the second row of the Findings table.

## Model

| member | source | states |
|---|---|---|
| Catalogue.RequestsUpToOffsets | retrieve_all_metadata.py:29-35 | The log of n requests holds n requests. The k-th asks for 1000 records at offset 1000 * k, so each offset is the previous one plus the page size: no part of the catalogue is skipped or asked for twice. |
| Catalogue.ScanOfUnique | retrieve_all_metadata.py:31-38 | A scan's pages are determined by the server alone: it ends at the first empty page or failing request. |
| Catalogue.ServerOfScan | retrieve_all_metadata.py:31-38 | A catalogue of non-empty pages is scanned whole, in order, and the request after the last page stops the scan. |
| MetadataRetrieval.RetrieveMetadata | retrieve_all_metadata.py:24-41 | The result is exactly the pages a scan fetches, each appended whole and in request order; the stopping empty page is not appended, and on a failure the pages collected before it are returned. The requests made are those at offsets 0, 1000, ... up to the stopping one. |
| Datasize.SumResourceSize | datasize.py:25-68 | The sum returned is, over exactly the pages a scan fetches and in scan order, the sum of the per-resource contributions. A failing fetch returns the sum so far. |
| Datasize.SumPage | datasize.py:38-64 | The inner loops over one page return exactly the page's sum: over its "dataset" records in order, the contributions of their counted resources. |
| Datasize.SumResources | datasize.py:41-63 | The loop over one record's resources returns exactly the sum of their contributions, in order: filtered out is 0, a declared size is added, otherwise the parsed Content-Length of a HEAD answer with status 200, else 0. |
| Datasize.NonDatasetsAddNothing | datasize.py:38-40 | Records whose type is absent or not "dataset" add nothing: the sum equals that over the "dataset" records alone. |
| Datasize.FilterKeepsOnlyPrefixed | datasize.py:42-49 | With a filter, the sum is the unfiltered sum over the kept resources. A resource of the record is kept if and only if its URL starts with the prefix or it has no URL. |
| Datasize.OnlySizelessResourcesAreQueried | datasize.py:50-55 | The sum depends on HEAD answers only at the URLs of kept resources without a declared size: a declared size is added without any request. |
| Datasize.FailedHeadIsSkipped | datasize.py:53-63 | A resource without declared size adds 0 when it has no URL, or when its HEAD answer is an exception, a non-200 status, or a missing or malformed Content-Length. The sum is then as if the resource were absent. |
| Datasize.ContributionNonNegative | datasize.py:50-61 | A resource contributes a non-negative amount when its declared size and its parsed Content-Length are non-negative. |
| Datasize.PagesSizeAppend | datasize.py:28-61 | The sum over a scan is additive in the pages scanned. |
| Datasize.SumNeverDecreases | datasize.py:50-61 | Scanning more pages never decreases the running sum while contributions are non-negative. |
| Datasize.RunningSumNeverDecreases | datasize.py:50-61 | Within one record, the running sum after i resources is at most the sum after any j >= i resources, while contributions are non-negative. |
| Datasize.DeclaredSizesNeverDecrease | datasize.py:50-61 | The same holds whenever every declared size and every parsed Content-Length of the record is non-negative. |
| ResourceContents.GetHash | compare_resource_contents.py:37-52 | The loop feeds the chunks of the download in order; the result is the digest of their concatenation, or None when the download raises. |
| ResourceContents.EmptyChunksDoNotMatter | compare_resource_contents.py:46-48 | Skipping empty chunks leaves the bytes hashed, and so the digest, unchanged. |
| ResourceContents.SameContentSameDigest | compare_resource_contents.py:40-49 | Two downloads with the same bytes, however chunked, have the same digest. |
| ResourceContents.GetResourceFingerprints | compare_resource_contents.py:55-81 | The map returned is the fingerprint fold over the eligible resources of the pages fetched, in scan order. If it ended in a failed download, the last page fetched holds that failure and the pages before it had none. Otherwise the next request stopped the scan. |
| ResourceContents.FingerprintPage | compare_resource_contents.py:68-75 | One page extends the fold by the candidates of its eligible records, in order. |
| ResourceContents.FingerprintResources | compare_resource_contents.py:71-75 | One record extends the fold by its resources that have a URL, in order. |
| ResourceContents.PagesCandidatesMembers | compare_resource_contents.py:68-73 | A resource is considered for hashing if and only if it has a URL and belongs to a record of type "dataset" that has resources. |
| ResourceContents.FailedIffSomeDownloadFails | compare_resource_contents.py:71-81 | A fingerprint scan fails if and only if the download of one of its resources fails. |
| ResourceContents.FirstFailureEndsScan | compare_resource_contents.py:73-81 | The first failed download ends the scan: the map is that built from the resources before it. |
| ResourceContents.StoredIffHashed | compare_resource_contents.py:73-75 | With no failed download, a digest is a key of the map if and only if it is non-empty and some hashed resource has it. |
| ResourceContents.LastWriteWins | compare_resource_contents.py:75 | With no failed download, each digest maps to the record of the last resource with that digest, in scan order. |
| ResourceContents.StoredRecordsHaveKeys | compare_resource_contents.py:75 | Every stored record has exactly the keys title, dataset_id, resource_id and url. |
| ResourceContents.FailedDownloadEndsScan | compare_resource_contents.py:50-52 | As written, a record whose first resource fails to download and whose second downloads fine gives an empty, failed map; the skipping scan stores the second resource. |
| ResourceContents.SkippingAgreesWithoutFailures | compare_resource_contents.py:73-75 | When no download fails, the scan as written and the skipping scan build the same map. |
| ResourceContents.SkippingStoresEveryDigest | compare_resource_contents.py:73-75 | In the skipping scan, a digest is a key if and only if it is non-empty and some resource downloads to it. |
| ResourceContents.SkippingLastWriteWins | compare_resource_contents.py:75 | In the skipping scan, each digest maps to the record of the last resource with that digest. |
| ResourceContents.RowOf | compare_resource_contents.py:117 | An output line is produced if and only if both catalogue keys, url and title are in the record and the DCAT dataset has an identifier and a title. |
| ResourceContents.CompareDistributions | compare_resource_contents.py:112-117 | One DCAT dataset's distributions extend the join, in order; a failure ends it there. |
| ResourceContents.CompareWithCatalogue | compare_resource_contents.py:110-117 | The lines printed, and what ended the loop, are the join over the document's distributions that have a downloadURL, in document order. |
| ResourceContents.DocumentLinksMembers | compare_resource_contents.py:110-113 | A distribution is compared if and only if its dataset has `distribution` and the distribution has `downloadURL`. |
| ResourceContents.WrittenKeysNeverReport | compare_resource_contents.py:117 | With the keys the line reads, nothing is ever printed. A comparison that ends normally met no match, and a failure is a failed download or the KeyError on `datasetid`. |
| ResourceContents.StoredKeysReportEveryMatch | compare_resource_contents.py:114-117 | With the stored keys and well-formed links, the comparison ends normally. It prints a line exactly for the links whose non-empty digest is in the map, and that line is built from the matched record. |
| ResourceContents.StoredKeysReportInOrder | compare_resource_contents.py:110-117 | With the stored keys and well-formed links, the comparison ends normally and prints exactly the lines of `MatchedRows`: one per matching link, built from its matched record, in link order. |
| Hierarchy.HierarchyList.constructor | hierarchy_search_compare.py:31-32 | A traversal started without a list starts from an empty one. |
| Hierarchy.HierarchyList.Collect | hierarchy_search_compare.py:24-60 | The shared list is extended in place by the traversal from the package: a NotFound leaves it unchanged; otherwise the children come first, then each child's traversal one level deeper. |
| Hierarchy.DescendantLevels | hierarchy_search_compare.py:45-59 | Every entry of a traversal started at level i is at level i or deeper. |
| Hierarchy.SiblingsFirst | hierarchy_search_compare.py:45-59 | The start's children come first, at the start level, and every later entry is deeper. |
| Hierarchy.TopLevelParent | hierarchy_search_compare.py:62-68 | The climb returns the list it was given when the start has no parent relationships. Otherwise it returns a non-empty list of relationships of some package whose first object has none. Every failure is the IndexError of an empty list. |
| Hierarchy.ClimbEndsAtTopLevel | hierarchy_search_compare.py:62-68 | When the start has parent relationships and the climb succeeds, the result is the relationship list of a package reached from the start by following first objects, and that list's first object has no parent relationships. |
| Hierarchy.ClimbFailsIffEmptyList | hierarchy_search_compare.py:34-68 | The climb raises if and only if it reaches a package whose list of parent relationships is empty, so that `relationships[0]` fails. |
| Hierarchy.ReachesUnique | hierarchy_search_compare.py:62-68 | The climb is deterministic: n steps from one package always reach the same package. |
| Hierarchy.RemovePrivateRelationships | hierarchy_search_compare.py:70-90 | The in-place filter computes exactly the iterator semantics of removing from a list while iterating over it. |
| Hierarchy.RemovalGivesSubsequence | hierarchy_search_compare.py:72-90 | The filtered list is a subsequence of the input. |
| Hierarchy.PassingRelationshipsKept | hierarchy_search_compare.py:76-88 | A relationship whose checks pass is never removed: all its copies survive. |
| Hierarchy.AllPassingKeepsAll | hierarchy_search_compare.py:72-90 | When every check passes, the list is returned unchanged. |
| Hierarchy.RemovalSkipsNextRelationship | hierarchy_search_compare.py:72-88 | As written, of two relationships whose object lookups are both unauthorised, only the first is checked and removed. |
| Hierarchy.RemoveUnauthorisedKeepsPassing | hierarchy_search_compare.py:72-90 | The intended filter fails if and only if some check raises. Otherwise it keeps, as a subsequence, exactly the relationships whose checks pass. IntendedKeepsEveryCopy counts the copies. |
| Hierarchy.IntendedKeepsEveryCopy | hierarchy_search_compare.py:72-90 | When the intended filter succeeds, it keeps as many copies of a relationship as the input has if its checks pass, and none otherwise. |
| Hierarchy.LevelEntriesMembers | hierarchy_search_compare.py:123-126 | The level-i entries are exactly the entries of the flat list at level i. |
| Hierarchy.MaxLevel | hierarchy_search_compare.py:117 | The lowest level processed is the largest level in the flat list. |
| Hierarchy.FlatHierarchy | hierarchy_search_compare.py:109-115 | The flat list starts with the entry {name: root, parent: None, level: 0}, and every later entry is at level 1 or deeper. |
| Hierarchy.RootLevel | hierarchy_search_compare.py:109-126 | Level 0 holds the root alone. |
| Hierarchy.GroupContents | hierarchy_search_compare.py:128-160 | Grouping one level fails if and only if some lookup is not authorised. Otherwise a group holds a node exactly for each dataset entry with that parent. The node carries the record's title, the entry's level and parent, and as children the lower group keyed by its own name. |
| Hierarchy.GroupsFromContents | hierarchy_search_compare.py:120-160 | The groups of each level are made of its dataset entries, nested over the groups of the level below. |
| Hierarchy.NestShape | hierarchy_search_compare.py:151-162 | The result is {root: node} when the root is a dataset and {} otherwise; the root's node is at level 0 with the level-1 group under its name as children. |
| Hierarchy.GroupLevel | hierarchy_search_compare.py:128-160 | The inner loop builds in place exactly the grouping of one level, or returns its failure. |
| Hierarchy.GroupLevels | hierarchy_search_compare.py:120-160 | The outer loop, from the deepest level to level 1, builds exactly the level-by-level grouping, or returns its failure. |
| Hierarchy.BuildNested | hierarchy_search_compare.py:117-162 | The nesting loop computes exactly the nested hierarchy of the flat list. |
| Hierarchy.GetHierarchy | hierarchy_search_compare.py:92-162 | The whole of `get_hierarchy_show`/`_search`: climb, filter, choose the root, collect downward, nest. |
| Hierarchy.HierarchyHasOneRoot | hierarchy_search_compare.py:103-162 | The hierarchy has at most one top-level node, at level 0 with no parent. |

## Left out

- The `__main__` blocks: environment variables, prompts, argparse, printing, timing with `timeit` and `encapsulate`. The printed comparison line is modelled as a `Row` value.
- Logging everywhere.
- ckanapi and `requests`: page fetches, HEAD requests, streamed GETs, relationship listing and package lookups are oracles. HTTP semantics, redirects, streaming and timeouts are not modelled; the HEAD timeout is one of the failures of the HEAD oracle.
- SHA-512 internals: the digest is an uninterpreted function. A real digest is always 64 bytes, while the model also covers the empty digest that `if hash:` skips.
- The URL filter of `sum_resource_size` is a regular expression anchored at the start. The model treats it as a literal prefix and does not cover regex metacharacters.
- `int()` on the Content-Length header: the header is given as a parsed number or as malformed.
- Declared sizes are integers. A non-numeric `size` would make `sum += size` raise and end the scan; that case is not modelled.
- JSON keys whose value is null are treated as absent, and the model then skips what the source would fail on. In the source:
  - a null `resources` value raises a TypeError when iterated, which ends the scan;
  - a null resource `url` (compare_resource_contents.py:72-73) makes `get_hash(None)` fail, and the NameError ends the fingerprint scan; the model skips that resource;
  - a null `downloadURL` (compare_resource_contents.py:113-114) does the same to the whole comparison; the model skips that distribution.
- The KeyErrors of missing required keys are not modelled: the model's records always carry them. These are `dataset['name']`, `dataset['id']` and `resource['id']` at compare_resource_contents.py:75, and `c['object']` and `c['subject']` at hierarchy_search_compare.py:47 and 65. The KeyErrors the model does cover are the lookups of the printed line at compare_resource_contents.py:117.
- A NotAuthorized from `package_relationships_list` (hierarchy_search_compare.py:35-43 catches only NotFound) is not modelled. The relationship oracle answers only with a list or NotFound. NotAuthorized is modelled for the package lookups of the filter and of the nesting only.
- Other exceptions: a failed page fetch, a failed download, NotFound, NotAuthorized and IndexError are modelled where stated above, and nothing else. Examples not modelled are a TypeError from `'name:' + None` in the search variant, and a missing `dataset` key in the DCAT document.
- The response shapes of `package_show` and `package_search` are hidden behind the one lookup oracle of the connection.
- OrderedDict insertion order: the nested hierarchy uses unordered maps.
- `list.remove` compares relationship dictionaries on all their keys; the model compares subject, object and id only.
- Aliasing: the relationship list the filter shrinks in place is a value, returned to the caller.
- Hierarchy.BuildNested: it requires the flat list with the root alone at level 0. That is the only shape its caller builds. How the source would treat several level-0 entries, where the dictionary is replaced by the entry itself, is not modelled.
- Hierarchy.TopLevelParent: its own ensures do not say which package's list is returned or exactly when the IndexError happens. ClimbEndsAtTopLevel and ClimbFailsIffEmptyList state both, through the climb predicate `Reaches`.
- An infinite catalogue or a cyclic relationship graph: the scans require a request that stops them. The traversals require rank functions on the `parent_of` and `child_of` graphs. These rank functions (`RanksChildren`, `RanksParents`) must decrease along every relationship of every package id, not only along the packages reachable from the start, so a cycle anywhere in the catalogue excludes the whole connection.
- The remote catalogue changing between page requests: each page request has one fixed answer.

## Findings

| source | as written | input that shows it | evidently intended | confidence | as-written member | corrected member |
|---|---|---|---|---|---|---|
| compare_resource_contents.py:117 | The output line reads `match['datasetid']` and `match['resourceid']`, but line 75 stores `dataset_id` and `resource_id`. | Any DCAT distribution whose content has the digest of a fingerprinted resource raises KeyError at its first match, so no line is ever printed. | Read the stored keys `dataset_id` and `resource_id`. | not executed | ResourceContents.WrittenKeysNeverReport | ResourceContents.StoredKeysReportEveryMatch |
| compare_resource_contents.py:52 | The except branch of `get_hash` returns the undefined name `null`, so a failed download raises a NameError. That ends the fingerprint scan, via lines 79-81, and the comparison loop. | A record whose first resource's download fails and whose second downloads: the second is never fingerprinted. | Return None, so that `if hash:` skips the resource and the scan goes on. | not executed | ResourceContents.FailedDownloadEndsScan | ResourceContents.SkippingStoresEveryDigest |
| hierarchy_search_compare.py:88 | `relationships.remove(relationship)` runs inside a `for` loop over the same list, so the element after a removed one is never checked. | Two relationships whose object lookups are both not authorised: the result keeps the second. | Check every relationship and keep those that pass. | not executed | Hierarchy.RemovalSkipsNextRelationship | Hierarchy.RemoveUnauthorisedKeepsPassing |
