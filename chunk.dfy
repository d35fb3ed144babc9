/**
 * Processing one chunk (`processChunk`): filter the page, save every accepted
 * record individually, and fold the settled outcomes into the chunk's counts.
 *
 * The destination store is a parameter: `store(chunkNumber, docIndex, record)` says
 * what became of the write `saveDocument` issued for that record. The writes are
 * issued together and joined; only the sequence of settled outcomes, in the order the
 * writes were issued, matters to the fold, so they are modelled as that sequence.
 */
module Chunk {
  import opened Records
  import opened FilterDedup

  /** What became of one write: it went through, it failed (and `saveDocument`
      caught the error), or the promise itself rejected. */
  datatype WriteAttempt = Written | WriteFailed(cause: string) | Aborted(reason: string)

  /** The destination store as seen by the script. */
  type Store = (nat, nat, DerivedRecord) -> WriteAttempt

  /** The value a `saveDocument` promise resolves to. */
  datatype SaveResult = SaveResult(
    success: bool,
    docIndex: nat,
    parentAutopayId: string,
    error: Option<string>)

  /** One entry of the array `Promise.allSettled` yields. */
  datatype Settled = Fulfilled(value: SaveResult) | Rejected(reason: string)

  /** One entry of the `failedDocuments` list. `error` is `None` where JavaScript has `undefined`. */
  datatype FailedDocument = FailedDocument(index: nat, parentAutopayId: string, error: Option<string>)

  /** The object `processChunk` returns. */
  datatype ChunkResult = ChunkResult(
    successfulDocuments: nat,
    totalDocuments: nat,
    totalDocumentsProcessed: nat,
    duplicatesRemoved: nat,
    constraintFiltered: nat)

  /**
   * The settled outcome of `saveDocument(docData, docIndex, chunkNumber)` when the
   * store did `attempt`: a caught failure still fulfils, with `success` false.
   */
  function SaveDocument(docData: DerivedRecord, docIndex: nat, attempt: WriteAttempt): (s: Settled)
    ensures s.Rejected? <==> attempt.Aborted?
    ensures s.Fulfilled? ==>
              s.value.docIndex == docIndex && s.value.parentAutopayId == docData.parentAutopayId &&
              (s.value.success <==> attempt.Written?)
    ensures attempt.WriteFailed? ==> s.value.error == Some(attempt.cause)
    ensures attempt.Aborted? ==> s.reason == attempt.reason
  {
    match attempt
    case Written => Fulfilled(SaveResult(true, docIndex, docData.parentAutopayId, None))
    case WriteFailed(cause) => Fulfilled(SaveResult(false, docIndex, docData.parentAutopayId, Some(cause)))
    case Aborted(reason) => Rejected(reason)
  }

  /** The settled outcomes of saving `filtered` in chunk `chunkNumber`, index by index. */
  function SettleAll(filtered: seq<DerivedRecord>, chunkNumber: nat, store: Store): seq<Settled>
  {
    seq(|filtered|, k requires 0 <= k < |filtered| =>
      SaveDocument(filtered[k], k + 1, store(chunkNumber, k + 1, filtered[k])))
  }

  /** The test in the `forEach`: fulfilled with `success` set. */
  predicate Succeeded(s: Settled)
  {
    s.Fulfilled? && s.value.success
  }

  /** The number of successful outcomes. */
  function CountSuccess(results: seq<Settled>): (n: nat)
    ensures n <= |results|
    decreases |results|
  {
    if results == [] then 0
    else CountSuccess(results[..|results| - 1]) + (if Succeeded(results[|results| - 1]) then 1 else 0)
  }

  /** The entry recorded for an unsuccessful outcome at 1-based position `index`. */
  function FailureEntry(result: Settled, index: nat): FailedDocument
  {
    match result
    case Rejected(reason) => FailedDocument(index, "unknown", Some(reason))
    case Fulfilled(value) => FailedDocument(index, value.parentAutopayId, value.error)
  }

  /**
   * The `failedDocuments` list: one entry per unsuccessful outcome, in order, each
   * naming the 1-based position of an outcome that did not succeed. Together with
   * the successes it accounts for every outcome exactly once.
   */
  function Failures(results: seq<Settled>): (f: seq<FailedDocument>)
    ensures |f| + CountSuccess(results) == |results|
    ensures forall k :: 0 <= k < |f| ==> 1 <= f[k].index <= |results| && !Succeeded(results[f[k].index - 1])
    ensures forall k, l :: 0 <= k < l < |f| ==> f[k].index < f[l].index
    ensures forall k :: 0 <= k < |f| ==>
              var result := results[f[k].index - 1];
              f[k].parentAutopayId == (if result.Rejected? then "unknown" else result.value.parentAutopayId) &&
              f[k].error == (if result.Rejected? then Some(result.reason) else result.value.error)
    decreases |results|
  {
    if results == [] then []
    else
      var n := |results| - 1;
      var prior := Failures(results[..n]);
      assert forall k :: 0 <= k < |prior| ==> results[..n][prior[k].index - 1] == results[prior[k].index - 1];
      if Succeeded(results[n]) then prior else prior + [FailureEntry(results[n], n + 1)]
  }

  /**
   * The `forEach` over the settled outcomes: a success increments both counters,
   * anything else appends a failure entry.
   */
  method AggregateResults(results: seq<Settled>)
    returns (successfulDocuments: nat, totalDocumentsProcessed: nat, failedDocuments: seq<FailedDocument>)
    ensures successfulDocuments == totalDocumentsProcessed == CountSuccess(results)
    ensures failedDocuments == Failures(results)
  {
    successfulDocuments, totalDocumentsProcessed, failedDocuments := 0, 0, [];
    for index := 0 to |results|
      invariant successfulDocuments == totalDocumentsProcessed == CountSuccess(results[..index])
      invariant failedDocuments == Failures(results[..index])
    {
      var result := results[index];
      assert results[..index + 1][..index] == results[..index];
      if result.Fulfilled? && result.value.success {
        successfulDocuments := successfulDocuments + 1;
        totalDocumentsProcessed := totalDocumentsProcessed + 1;
      } else {
        var error := if result.Rejected? then Some(result.reason) else result.value.error;
        var parentAutopayId := if result.Fulfilled? then result.value.parentAutopayId else "unknown";
        failedDocuments := failedDocuments + [FailedDocument(index + 1, parentAutopayId, error)];
      }
    }
    assert results[..|results|] == results;
  }

  /**
   * What `processChunk` returns for a page. When nothing is accepted, the write counts
   * are zero; otherwise every accepted record is saved once and the counts come from the
   * settled outcomes. The filter's counts pass through either way.
   */
  function ChunkOutcome(documents: seq<SourceRecord>, chunkNumber: nat, store: Store): (r: ChunkResult)
    ensures r.duplicatesRemoved == Filter(documents).duplicatesRemoved
    ensures r.constraintFiltered == Filter(documents).constraintFiltered
    ensures r.totalDocuments == |Filter(documents).filteredDocuments|
    ensures r.successfulDocuments == r.totalDocumentsProcessed <= r.totalDocuments
    ensures r.successfulDocuments + r.duplicatesRemoved + r.constraintFiltered <= |documents|
  {
    var f := Filter(documents);
    if |f.filteredDocuments| == 0 then
      ChunkResult(0, 0, 0, f.duplicatesRemoved, f.constraintFiltered)
    else
      var saved := CountSuccess(SettleAll(f.filteredDocuments, chunkNumber, store));
      ChunkResult(saved, |f.filteredDocuments|, saved, f.duplicatesRemoved, f.constraintFiltered)
  }

  /**
   * `processChunk`: filter, short-circuit when nothing is accepted, otherwise save every
   * accepted record (the records handed to `saveDocument`, in order, are `writes`) and
   * aggregate. Successes and failures together account for every accepted record.
   */
  method ProcessChunk(documents: seq<SourceRecord>, chunkNumber: nat, store: Store)
    returns (r: ChunkResult, writes: seq<DerivedRecord>, failedDocuments: seq<FailedDocument>)
    ensures r == ChunkOutcome(documents, chunkNumber, store)
    ensures writes == Filter(documents).filteredDocuments
    ensures failedDocuments == Failures(SettleAll(writes, chunkNumber, store))
    ensures r.successfulDocuments + |failedDocuments| == r.totalDocuments
  {
    var filterResult := FilterAndDeduplicate(documents);
    if |filterResult.filteredDocuments| == 0 {
      r := ChunkResult(0, 0, 0, filterResult.duplicatesRemoved, filterResult.constraintFiltered);
      writes, failedDocuments := [], [];
      return;
    }
    writes := filterResult.filteredDocuments;
    var results := seq(|writes|, k requires 0 <= k < |writes| =>
      SaveDocument(writes[k], k + 1, store(chunkNumber, k + 1, writes[k])));
    var successfulDocuments, totalDocumentsProcessed;
    successfulDocuments, totalDocumentsProcessed, failedDocuments := AggregateResults(results);
    r := ChunkResult(successfulDocuments, |writes|, totalDocumentsProcessed,
                     filterResult.duplicatesRemoved, filterResult.constraintFiltered);
  }

  /**
   * Failures are isolated: turning one outcome into a failure lowers the success count
   * by one if that outcome had succeeded and leaves it unchanged otherwise; the other
   * outcomes keep their contribution.
   */
  lemma {:induction false} FailureIsIsolated(results: seq<Settled>, i: nat, failed: Settled)
    requires i < |results| && !Succeeded(failed)
    ensures CountSuccess(results[i := failed]) + (if Succeeded(results[i]) then 1 else 0) == CountSuccess(results)
    decreases |results|
  {
    var n := |results| - 1;
    var changed := results[i := failed];
    assert changed[..n] == if i < n then results[..n][i := failed] else results[..n];
    if i < n {
      FailureIsIsolated(results[..n], i, failed);
    }
  }

  /** With no failed writes every accepted record is counted as saved. */
  lemma {:induction false} AllSucceeded(results: seq<Settled>)
    requires forall k :: 0 <= k < |results| ==> Succeeded(results[k])
    ensures CountSuccess(results) == |results| && Failures(results) == []
    decreases |results|
  {
    if results != [] {
      AllSucceeded(results[..|results| - 1]);
    }
  }

  /** When the store accepts every write of the chunk, all accepted records are saved. */
  lemma NoWriteFailures(documents: seq<SourceRecord>, chunkNumber: nat, store: Store)
    requires forall k: nat, d: DerivedRecord :: store(chunkNumber, k, d) == Written
    ensures ChunkOutcome(documents, chunkNumber, store).successfulDocuments == |Filter(documents).filteredDocuments|
  {
    var f := Filter(documents).filteredDocuments;
    AllSucceeded(SettleAll(f, chunkNumber, store));
  }

  /**
   * A page where no record meets the constraint is all constraint-filtered and the
   * write stage is skipped: no record is handed to `saveDocument`.
   */
  lemma NoEligibleRecordSkipsWrites(documents: seq<SourceRecord>, chunkNumber: nat, store: Store)
    requires forall k :: 0 <= k < |documents| ==> !MeetsConstraint(documents[k])
    ensures ChunkOutcome(documents, chunkNumber, store) == ChunkResult(0, 0, 0, 0, |documents|)
    ensures Filter(documents).filteredDocuments == []
  {
    NothingMeetsConstraint(documents);
  }
}
