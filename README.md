# cristin-people-results: a verified model of `net.py`

`net.py` lists the research results of the people at one institution (DMMH) from
the Cristin API. It pages through the institution's people, pages through each
person's results for the single year 2018, keeps the first copy of every result,
fetches contributors, asks the institution endpoint for every affiliation's display
name, and prints one `result id, surname, role, institution` line per affiliation.
As written, the driver pairs results with contributors wrongly: `zip` and `map`
draw from one generator, so only the contributors of every second result are
fetched, and they are printed under the result before it (see "## Findings").
`Export.ExportAsWritten` models that driver; `Export.ExportAll` and `Export.Run`
model the corrected one, where each result is printed with its own contributors.

The model follows that pipeline module by module:

- `Common` — the multi-lingual JSON maps (`{"en": …, "nb": …}`) as sequences of
  (language, text) entries in insertion order, and Python's `dict.popitem()`,
  which takes and removes the last-inserted entry and raises KeyError on an
  empty map.
- `Pagination` — the recursive `getter` generators. The server is an abstract map
  from URL to page (status, JSON array, `next` link); a `rank` map witnesses that
  every chain of `next` links ends. A page contributes its items only when its
  status is OK, and its `next` link is followed whatever its status.
- `Queries` — the seed URLs, the results query string with its `since`/`before`
  years (2018 by default), decimal formatting of the years, and a parser that
  recovers the query parameters from the URL.
- `Dedup` — `filter_results` as a loop over a growing set of seen ids, proved
  against a first-occurrence filter.
- `Contributors` — contributors, affiliations and institutions as heap objects,
  decoded fresh from JSON values, and `enrich_contributor`, which writes the
  looked-up `institution_name` into each affiliation's institution object.
- `Rows` — the per-affiliation loop of the driver, whose two `popitem()` calls
  remove the role and the institution name they print.
- `Export` — the driver: merging every person's results, deduplication, pairing
  results with contributors, enrichment and flattening, stopping at the first
  KeyError.

Each loop is a method proved against a function on values (`EnrichAll`,
`FlattenAll`, `Deduplicated`, `RunAll`), and the lemmas state what those functions
mean.

The `next` link is read at net.py:12-14, outside the status check at net.py:8, so a
non-OK page's `next` link is still followed, and `Pagination.Walk` does the same.
net.py performs no employment lookup for affiliations.

## Model

| member | source | states |
|---|---|---|
| `Common.PopItem` | net.py:64 | `popitem()` fails exactly on an empty map; otherwise it returns the last entry, and the remaining map with that entry appended back is the original |
| `Common.PopItemUndoesInsert` | net.py:67 | popping right after inserting a new language key gives back that entry and the map as it was before the insertion |
| `Pagination.PaginationYieldsOkPagesInLinkOrder` | net.py:6-14 | for the unique chain of pages linked by `next` from the seed, the walk yields exactly the items of the OK pages of that chain, in chain order |
| `Pagination.ChainFollowsLinks` | net.py:12-14 | the pages the walk reads start at the seed, each one is the `next` of the one before, and the last has no further page |
| `Pagination.LinkChainIsUnique` | net.py:12-14 | any sequence of URLs that follows the `next` links from the seed to the end is the walk's chain |
| `Pagination.WalkConcatsChain` | net.py:6-14 | the walk's output is the concatenation of the OK items of the pages of its chain |
| `Pagination.NonOkPageIsSkipped` | net.py:8-14 | a non-OK page yields nothing, and the walk continues from its `next` link |
| `Pagination.UniformPagesYieldCountTimesSize` | net.py:19-27 | when every page of the chain is OK with `size` items, the walk yields chain length times `size` items |
| `Pagination.FirstPageIsPrefixOfWalk` | net.py:41-45 | `get_result_contributors` reads one page: a prefix of the full walk, all of it when the page has no `next` link |
| `Queries.NatToDecimalRoundTrip` | net.py:30-31 | the decimal rendering of a year parses back to the same number |
| `Queries.IntToDecimalRoundTrip` | net.py:30-31 | the same for negative years, rendered with a leading minus sign |
| `Queries.WindowRoundTrip` | net.py:30-31 | the `published_since=…&published_before=…` part parses back to the two years |
| `Queries.ResultsQueryRoundTrip` | net.py:29-32 | the results URL for a person id without `&` parses back to that id and the two years |
| `Queries.DefaultWindowIs2018` | net.py:18 | with the default arguments both years read "2018" and the person's results are the walk from the 2018 query |
| `Dedup.FilterResults` | net.py:34-39 | the loop with its growing id set emits exactly the first occurrence of every id, in input order |
| `Dedup.DeduplicatedHasDistinctIds` | net.py:36-39 | no id is emitted twice |
| `Dedup.DeduplicatedKeepsFirstOfEveryId` | net.py:36-39 | every input id is emitted, each as its first occurrence, in the order the ids first appear |
| `Dedup.DeduplicatedIsSubsequence` | net.py:34-39 | the output is the input with some results left out, the rest in the same order |
| `Dedup.DistinctIdsPassThrough` | net.py:36-39 | a stream without repeated ids passes through unchanged |
| `Dedup.DeduplicatedIsIdempotent` | net.py:34-39 | filtering twice gives what filtering once gives |
| `Contributors.Decode` | net.py:44-45 | each decoded contributor is a fresh tree of objects whose values are the JSON values |
| `Contributors.EnrichAllSpec` | net.py:47-53 | enrichment raises iff some lookup answers OK without `institution_name`; before that point each affiliation gets the looked-up name exactly when the lookup is OK, and from it on nothing changes |
| `Contributors.EnrichChangesOnlyInstitutionName` | net.py:52 | enrichment leaves the role map, institution id and URL of every affiliation as they were; without a KeyError the name is the looked-up one on OK and the old one otherwise |
| `Contributors.EnrichContributor` | net.py:47-53 | the loop writes into the institution objects exactly what the enrichment function gives, returns the same contributor, and reports the KeyError case |
| `Rows.FlattenAffiliationSpec` | net.py:64-67 | one affiliation gives a row iff its role map is non-empty and so is an attached name map; the row has the last role and the last name or else the institution id; the pops remove exactly those entries |
| `Rows.PopsRemovePrintedKeys` | net.py:64-67 | on maps with distinct language codes, as decoded JSON objects have, the pops leave such maps behind and the printed role's and name's languages are no longer keys of their maps |
| `Rows.OneRowPerAffiliation` | net.py:63-69 | a contributor gives one row per affiliation, in order, iff every affiliation can be flattened; each row carries result id, surname, role and institution as above |
| `Rows.FlattenRowsCarryIds` | net.py:69 | every printed row carries the result id and the contributor's surname, also when a later pop raises |
| `Rows.FlattenOne` | net.py:64-68 | popping on one affiliation object gives the row and the affiliation value the flattening function gives |
| `Rows.FlattenAt` | net.py:63-68 | one pass of the loop changes only the affiliation it is on |
| `Rows.FlattenContributor` | net.py:63-69 | the loop over the contributor's objects prints the flattening function's rows and leaves the objects as its after-state, raising when it does |
| `Export.ContributorRows` | net.py:62-69 | enrichment then flattening prints without a KeyError iff no lookup is OK without a name and every enriched affiliation can be flattened; it then prints one row per affiliation, the institution being the looked-up name, else an attached name, else the institution id |
| `Export.RunAllConcat` | net.py:61-63 | running the driver's loops over two lists in turn is running them over the concatenation, stopping at the first KeyError |
| `Export.ZipAsWrittenShape` | net.py:59-61 | as written, the loop makes half as many passes as there are results and pass `k` prints result `2k` with the contributors of result `2k+1` |
| `Export.PairWithContributorsShape` | net.py:59-61 | the intended pairing makes one pass per result, with that result's own contributors |
| `Export.ZipAsWrittenDiffers` | net.py:59-61 | for every non-empty list of results the pairing as written differs from the intended one |
| `Export.ZipAsWrittenSwapsContributors` | net.py:59-61 | with two results whose contributors Hansen and Olsen each have one affiliation, and no institution lookup answering, the program as written prints the single row `1,Olsen,Author,7`, while the intended run prints `1,Hansen,Author,8` and `2,Olsen,Author,7` |
| `Export.LoneResultPrintsNothing` | net.py:59-61 | as written, a run that keeps a single result prints nothing; the intended run prints that result's rows |
| `Export.ExportRowsNameKeptResults` | net.py:58-69 | the kept results have distinct ids, and every row printed, by the program as written and by the corrected driver, names one of them |
| `Export.ExportContributorObjects` | net.py:62-69 | decoding, enriching in place and flattening one contributor prints what the value-level specification prints |
| `Export.ExportResultObjects` | net.py:62-69 | the loop over one result's contributors prints their rows in order and stops at the first KeyError |
| `Export.Run` | net.py:55-69 | corrected driver (see Findings): the whole driver, with each result paired with its own contributors, prints what `ExportAll` specifies |

## Left out

- HTTP transport, timeouts, the `Link` header parsing and JSON decoding: every endpoint is an abstract map from URL to decoded response; only the JSON fields the program reads are modelled.
- Status codes: any status other than 200 is one "not OK" case; a URL the map does not hold answers not OK without links.
- Cyclic or unbounded `next` chains: the walks require a rank that decreases along links (`Ranked`); on a cycle Python would recurse until RecursionError, and so it would on a finite chain longer than the interpreter's recursion limit, since each page nests one more generator through `yield from getter(next_link)` (net.py:14, net.py:27); neither is modelled.
- The thread pools: `pool.map` keeps input order, and the concurrent enrichments touch disjoint objects, so the model runs them in sequence; which lookups a pool has started when a KeyError surfaces is not modelled.
- KeyErrors from missing JSON keys other than `institution_name` (`affiliations`, `role`, `name`, `institution`, `url`, `cristin_institution_id`, `surname`, `cristin_result_id`, `contributors`): those keys are assumed present.
- The printed text: rows are records of four strings; the `"{},{},{},{}"` formatting and the lack of CSV quoting of commas in names are not modelled.
- `Queries.ResultsQueryRoundTrip`: requires a person id without `&`, because the query string is not URL-encoded and such an id cannot be recovered from it.
- `Contributors.EnrichContributor`: requires that no two affiliations share an object (`TreeShaped`), which holds of trees decoded from JSON; aliasing between affiliations is not modelled.
- `Rows.FlattenContributor`: requires `TreeShaped` for the same reason.
- Person ids are strings and years are integers; Python's `format` of other JSON types for the person id is not modelled.

## Findings

| source | as written | input that shows it | evidently intended | confidence | as-written member | corrected member |
|---|---|---|---|---|---|---|
| net.py:58-61 | `results` is a generator; `map(get_result_contributors, results)` draws from the same generator as `zip`, so pass `k` pairs result `2k` with the contributors of result `2k+1`, and an odd last result is dropped | two kept results whose contributors Hansen (institution 8) and Olsen (institution 7) each have one affiliation print only `1,Olsen,Author,7` instead of `1,Hansen,Author,8` and `2,Olsen,Author,7`; a single kept result prints nothing | each result printed with its own contributors (`zip` over a list of results, or fetching contributors inside the loop) | not executed | `Export.ZipAsWrittenShape` | `Export.PairWithContributorsShape` |
