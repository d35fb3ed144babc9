# Paged repair script: filter, chunk accounting and cursor paging

This project models the core of `index.js`, a one-off repair script for autopay
retries. The script pages through the `transactions` collection 1000 records at a
time, ordered by `createdAt`, and processes each page as one chunk:

- It filters the page. A record is kept when its `autopayInfo.deductionMonth` is
  `"October_2025"` and its `autopayInfo.cycle` is 1.
- It deduplicates the page by `parentAutopayId`. A key that was already accepted makes
  any later record with that key a duplicate. This check comes before the constraint.
- It saves every accepted record as its own write into the retry collection.
- It folds the settled write outcomes into the chunk's counts and its list of failed
  documents.

The run ends on an empty page or a page shorter than 1000 records. It reports how many
chunks it processed and how many records it saved.

The model has four modules:

- `Records` (`records.dfy`): the source record, the derived record and the constraint.
- `FilterDedup` (`filter.dfy`): the filter as the loop the script runs
  (`FilterAndDeduplicate`). It is proved equal to a left-fold specification
  (`Filter`), and lemmas about `Filter` state the partition, the tie-break, the
  blocking rule, distinctness and order.
- `Chunk` (`chunk.dfy`): `processChunk` and its `forEach` fold as methods
  (`ProcessChunk`, `AggregateResults`), proved against `ChunkOutcome`, `CountSuccess`
  and `Failures`.
- `Paging` (`paging.dfy`): the `while (true)` loop of `runQuery` as a method
  (`RunQuery`). It is proved to process exactly the pages `Pages(source)`, to cover the
  source in order, and to make the fetch count the script implies. Its saved total is
  the sum of the chunks' results.

Modelling choices:

- **The query.** The query result is a fixed ordered sequence `source`. The cursor is
  the position just after the last record fetched. The script's `lastDoc == null` is
  position 0, and `startAfter(lastDoc)` is a slice from the cursor.
- **The store.** What happens to each write is a parameter,
  `store(chunkNumber, docIndex, record)`. It says whether the write went through,
  failed (the error is caught inside `saveDocument`) or rejected.
- **Concurrency.** The writes of a chunk are issued together and joined with
  `Promise.allSettled`. Only the sequence of settled outcomes, in issue order, reaches
  the fold, so the model uses that sequence.
- **Dedup scope.** The seen-set is created fresh on every call of
  `filterAndDeduplicateDocuments` (`index.js:8`). Deduplication is therefore per page:
  a key accepted on one page is accepted again on a later page. `DedupIsPerCall` and
  `AcceptedWhenKeyFresh` state this.
- **JavaScript values.** A missing `autopayInfo`, a missing field, or a value of
  another JavaScript type cannot be strictly equal to the target. All of these are
  `None`. Dedup keys (`parentAutopayId`) are assumed to be strings; the script's `Set`
  would also tell apart keys of different JavaScript types, such as `5` and `"5"`.
- **The final counts.** `RunQuery` returns the script's three final counters as
  `RunStats` instead of logging them.

## Model

| member | source | states |
|---|---|---|
| Records.Derive | index.js:31-38 | An accepted record copies its source's id and `parentAutopayId`. It carries month `"October_2025"` and cycle 1. |
| FilterDedup.Filter | index.js:7-47 | Every record of a page is counted exactly once: accepted, a duplicate, or constraint-filtered. `totalFiltered` is the sum of the two rejection counts. |
| FilterDedup.FilterAndDeduplicate | index.js:7-47 | The one-pass loop returns the accepted list and both counts of the specification `Filter`. Its seen-set always holds the keys of the records accepted so far. |
| FilterDedup.SeenKeysArePassedKeys | index.js:20-32 | A key is in the seen-set after a page exactly when some record of the page with that key met the constraint. This holds in both directions. |
| FilterDedup.Classification | index.js:19-38 | The next record is a duplicate when an earlier record with its key met the constraint, even if it fails the constraint itself. Otherwise it is constraint-filtered when it fails the constraint, and accepted (appended) when it meets it. |
| FilterDedup.RejectedRecordDoesNotBlock | index.js:25-32 | A record that fails the constraint does not add its key. A later record with the same key that meets the constraint is accepted. |
| FilterDedup.AcceptedIndices | index.js:13-38 | The accepted list is an order-preserving subsequence of the page. Each accepted entry is derived from a record at a strictly increasing position, and that record meets the constraint. |
| FilterDedup.AcceptedMeetConstraint | index.js:25-38 | Every accepted record has month `"October_2025"` and cycle 1. |
| FilterDedup.AcceptedKeysDistinct | index.js:19-33 | No two accepted records of a page share a `parentAutopayId`. |
| FilterDedup.DedupIsPerCall | index.js:8 | A one-record page `[d]` whose record meets the constraint accepts `d`, whatever earlier pages held. On the page `[d, d]` the second copy is a duplicate. |
| FilterDedup.AcceptedPrefix | index.js:13-38 | Later records only append: the accepted list of a page prefix is a prefix of the page's accepted list. |
| FilterDedup.FreshRecordAppended | index.js:20-38 | A record that meets the constraint, where no earlier record of the page with its key met it, is appended to the accepted list. |
| FilterDedup.AcceptedWhenKeyFresh | index.js:8-38 | On any page, a record that meets the constraint is accepted when no earlier record of that same page with its key met the constraint. Records on other pages play no part. |
| FilterDedup.NothingMeetsConstraint | index.js:13-29 | On a page where no record meets the constraint, nothing is accepted and nothing is a duplicate. Every record is constraint-filtered. |
| Chunk.SaveDocument | index.js:50-66 | A caught write error still fulfils, with `success` false, and carries its cause as the error. Only a rejected promise is rejected, with its reason. A fulfilled value carries the record's position and key. |
| Chunk.CountSuccess | index.js:97-104 | The number of successful outcomes is at most the number of outcomes. |
| Chunk.Failures | index.js:101-110 | Failure entries and successes together account for every outcome exactly once. Each failure names the 1-based position of an unsuccessful outcome, and positions strictly increase. An entry carries that outcome's key, or `"unknown"` for a rejected promise. Its error is the rejection reason or the fulfilled value's error. |
| Chunk.AggregateResults | index.js:96-110 | The `forEach` fold: both success counters equal the number of successful outcomes, and the failure list is `Failures` of the outcomes. |
| Chunk.ChunkOutcome | index.js:69-128 | The filter's counts pass through unchanged. `totalDocuments` is the number of accepted records. `successfulDocuments == totalDocumentsProcessed <= totalDocuments`. Saved and rejected records together never exceed the page size. |
| Chunk.ProcessChunk | index.js:69-128 | Returns `ChunkOutcome`. The records handed to `saveDocument` are the accepted list, so none are handed over when nothing is accepted. The failure list comes from the settled outcomes, and successes plus failures equal `totalDocuments`. |
| Chunk.FailureIsIsolated | index.js:101-110 | Turning one outcome into a failure lowers the success count by one if that outcome had succeeded, and leaves it unchanged otherwise. |
| Chunk.AllSucceeded | index.js:101-110 | When every outcome succeeds, all are counted and the failure list is empty. |
| Chunk.NoWriteFailures | index.js:89-110 | When the store accepts every write of a chunk, every accepted record of the chunk is counted as saved. |
| Chunk.NoEligibleRecordSkipsWrites | index.js:73-85 | A page with no record meeting the constraint gives no writes. The result has zero write counts, zero duplicates and every record constraint-filtered. |
| Paging.Fetch | index.js:144-162 | A fetch returns at most `limit` consecutive records starting at the cursor. A shorter page only comes at the end of the source. |
| Paging.Pages | index.js:140-178 | A source of K records has ceil(K/1000) pages. Each page holds between 1 and 1000 records, and all but the last are full. |
| Paging.Outcomes | index.js:165-168 | One chunk result per page. |
| Paging.OutcomeAt | index.js:141-165 | Chunk `i + 1` of a run is the result of processing page `i`. |
| Paging.SavedAtMostFetched | index.js:165-167 | A run's saved total never exceeds the number of records it fetched. |
| Paging.PagesPrefixCover | index.js:140-178 | The first `j` pages together are the first `min(1000 j, K)` records of the source, in order. |
| Paging.PagesCoverSource | index.js:140-178 | The pages together are exactly the source, in order, with no gap or overlap. |
| Paging.NextPage | index.js:151-162 | A fetch at the cursor after `j` full pages, when records remain, returns page `j + 1`. |
| Paging.RunCoversSource | index.js:140-178 | Once the loop has built every page, its pages are `Pages(source)`, they cover the source, and the saved total is at most K. |
| Paging.FetchArithmetic | index.js:140-178 | For K = 1000 f + s with s < 1000, there are f + 1 fetches, and f pages or f + 1 pages depending on whether s is zero. |
| Paging.RunQuery | index.js:130-189 | The loop terminates after processing exactly `Pages(source)`, which cover the source in order. `totalChunksProcessed` is the number of non-empty pages. The fetch count is ceil(K/1000) when 1000 does not divide K, and K/1000 + 1 when it does (including K = 0). `totalDocumentsProcessed` is the sum of the chunks' saved counts and at most K. |

## Left out

- Firebase initialisation and the database handle (`index.js:1-4`): external SDK setup.
- The body of `saveDocument`: the `doc()`/`set` call, the server-assigned document id, `serverTimestamp()`, and the written fields. Only the outcome of each write is modelled, through the `store` parameter.
- The concurrency of `Promise.allSettled`: the writes are modelled as a sequence of settled outcomes with no interleaving.
- Query construction: the `!=` and date `where` clauses, `orderBy`, `limit` and `startAfter`. They are modelled as slicing a fixed ordered sequence, and the stability of the store's ordering is assumed, not proved.
- All `console.log`/`console.error` output, including the per-failure log lines, and `process.exit` with the top-level promise handling (`index.js:191-199`).
- The exception path of `runQuery` (`index.js:185-188`): a failed fetch aborts the run and is rethrown. So does an exception `processChunk` throws outside the write join: `index.js:115` reads `error.message`, which throws on an undefined or null error. The model's fetch always succeeds, and its chunks never throw.
- Chunk.Failures: caught errors and rejection reasons are assumed to be non-null values, modelled as strings, as the store's errors are. The TypeError that `index.js:115` raises on an undefined or null error, and the abort of the run that follows, are not modelled.
- Paging.RunQuery: does not model that records may be added to or removed from the store while the run is in progress. The source is fixed for the whole run.
