/**
 * The paging driver (`runQuery`): fetch up to 1000 records after a cursor, process
 * them as one chunk, move the cursor to the last record fetched, and stop on an empty
 * or short page.
 *
 * The query result is a fixed ordered sequence `source` (the store's ordering by
 * `createdAt` is assumed stable), and the cursor is the position just after the last
 * record fetched, 0 while no record has been fetched. A fetch is a slice of at most
 * `ChunkSize` records from the cursor.
 */
module Paging {
  import opened Records
  import opened FilterDedup
  import opened Chunk

  /** The page size of every fetch. */
  const ChunkSize: nat := 1000

  /** The totals the script reports at the end of a run. */
  datatype RunStats = RunStats(
    chunkNumber: nat,
    totalChunksProcessed: nat,
    totalDocumentsProcessed: nat)

  /**
   * One fetch: up to `limit` consecutive records starting at `cursor`. A page shorter
   * than `limit` only comes at the end of the source.
   */
  function Fetch(source: seq<SourceRecord>, cursor: nat, limit: nat): (page: seq<SourceRecord>)
    requires cursor <= |source|
    ensures |page| <= limit
    ensures cursor + |page| <= |source| && page == source[cursor..cursor + |page|]
    ensures |page| < limit ==> cursor + |page| == |source|
  {
    if |source| - cursor <= limit then source[cursor..] else source[cursor..cursor + limit]
  }

  function Min(a: nat, b: nat): nat
  {
    if a <= b then a else b
  }

  /**
   * The non-empty pages a run processes, in order: page `i` is the slice of the source
   * from `i * ChunkSize`, `ChunkSize` records long except possibly the last. There are
   * ceil(K / ChunkSize) of them for K records; each holds between 1 and `ChunkSize`
   * records, and all but the last are full.
   */
  function Pages(source: seq<SourceRecord>): (ps: seq<seq<SourceRecord>>)
    ensures |ps| == (|source| + ChunkSize - 1) / ChunkSize
    ensures forall i :: 0 <= i < |ps| ==>
              0 < |ps[i]| <= ChunkSize && (i < |ps| - 1 ==> |ps[i]| == ChunkSize)
  {
    var n := (|source| + ChunkSize - 1) / ChunkSize;
    seq(n, i requires 0 <= i < n => source[i * ChunkSize .. Min((i + 1) * ChunkSize, |source|)])
  }

  /** The records of a sequence of pages, in order. */
  function Concat(pages: seq<seq<SourceRecord>>): seq<SourceRecord>
    decreases |pages|
  {
    if pages == [] then [] else Concat(pages[..|pages| - 1]) + pages[|pages| - 1]
  }

  /** The sum of the chunks' `totalDocumentsProcessed`. */
  function TotalProcessed(results: seq<ChunkResult>): nat
    decreases |results|
  {
    if results == [] then 0
    else TotalProcessed(results[..|results| - 1]) + results[|results| - 1].totalDocumentsProcessed
  }

  /** One more chunk adds its saved count to the total. */
  lemma TotalProcessedSnoc(results: seq<ChunkResult>, r: ChunkResult)
    ensures TotalProcessed(results + [r]) == TotalProcessed(results) + r.totalDocumentsProcessed
  {
    assert (results + [r])[..|results|] == results;
  }

  /** The results of processing `pages` in order, page `i` as chunk `i + 1`. */
  function Outcomes(pages: seq<seq<SourceRecord>>, store: Store): (results: seq<ChunkResult>)
    ensures |results| == |pages|
    decreases |pages|
  {
    if pages == [] then []
    else
      var n := |pages| - 1;
      Outcomes(pages[..n], store) + [ChunkOutcome(pages[n], n + 1, store)]
  }

  /** Processing one more page appends its chunk's result. */
  lemma OutcomesSnoc(pages: seq<seq<SourceRecord>>, page: seq<SourceRecord>, store: Store)
    ensures Outcomes(pages + [page], store) == Outcomes(pages, store) + [ChunkOutcome(page, |pages| + 1, store)]
  {
    assert (pages + [page])[..|pages|] == pages;
  }

  /** Chunk `i + 1` of a run is the result of processing page `i`. */
  lemma {:induction false} OutcomeAt(pages: seq<seq<SourceRecord>>, store: Store, i: nat)
    requires i < |pages|
    ensures Outcomes(pages, store)[i] == ChunkOutcome(pages[i], i + 1, store)
    decreases |pages|
  {
    var n := |pages| - 1;
    if i < n {
      OutcomeAt(pages[..n], store, i);
    }
  }

  /** A run never counts more saved documents than it fetched. */
  lemma {:induction false} SavedAtMostFetched(pages: seq<seq<SourceRecord>>, store: Store)
    ensures TotalProcessed(Outcomes(pages, store)) <= |Concat(pages)|
    decreases |pages|
  {
    if pages != [] {
      var n := |pages| - 1;
      SavedAtMostFetched(pages[..n], store);
      var results := Outcomes(pages, store);
      assert results[..n] == Outcomes(pages[..n], store);
    }
  }

  /** Together the first `j` pages hold the first records of the source, in order. */
  lemma {:induction false} PagesPrefixCover(source: seq<SourceRecord>, j: nat)
    requires j <= |Pages(source)|
    ensures Concat(Pages(source)[..j]) == source[..Min(j * ChunkSize, |source|)]
  {
    var ps := Pages(source);
    if j > 0 {
      PagesPrefixCover(source, j - 1);
      assert ps[..j][..j - 1] == ps[..j - 1];
      assert (j - 1) * ChunkSize < |source|;
      assert source[..Min(j * ChunkSize, |source|)] ==
             source[..(j - 1) * ChunkSize] + ps[j - 1];
    }
  }

  /** Together the pages hold every record of the source, in order. */
  lemma PagesCoverSource(source: seq<SourceRecord>)
    ensures Concat(Pages(source)) == source
  {
    var ps := Pages(source);
    PagesPrefixCover(source, |ps|);
    assert ps[..|ps|] == ps;
  }

  /** The first `j` pages, one page at a time, as the loop fetches them. */
  function PagesUpTo(source: seq<SourceRecord>, j: nat): seq<seq<SourceRecord>>
    requires j <= (|source| + ChunkSize - 1) / ChunkSize
    decreases j
  {
    if j == 0 then []
    else PagesUpTo(source, j - 1) + [source[(j - 1) * ChunkSize .. Min(j * ChunkSize, |source|)]]
  }

  /** The fetch at the end of the first `j` pages, when the source goes on, is page `j + 1`. */
  lemma NextPage(source: seq<SourceRecord>, j: nat)
    requires j * ChunkSize < |source|
    ensures j + 1 <= (|source| + ChunkSize - 1) / ChunkSize
    ensures PagesUpTo(source, j + 1) == PagesUpTo(source, j) + [Fetch(source, j * ChunkSize, ChunkSize)]
  {
  }

  /** Built one at a time, the first `j` pages are the first `j` of `Pages`. */
  lemma {:induction false} PagesUpToPrefix(source: seq<SourceRecord>, j: nat)
    requires j <= (|source| + ChunkSize - 1) / ChunkSize
    ensures PagesUpTo(source, j) == Pages(source)[..j]
    decreases j
  {
    if j > 0 {
      PagesUpToPrefix(source, j - 1);
      assert Pages(source)[..j] == Pages(source)[..j - 1] + [Pages(source)[j - 1]];
    }
  }

  /**
   * When the loop has built every page, it has built `Pages`: the pages cover the
   * source, and the saved total is at most the number of records.
   */
  lemma RunCoversSource(source: seq<SourceRecord>, pages: seq<seq<SourceRecord>>, store: Store)
    requires |pages| == (|source| + ChunkSize - 1) / ChunkSize
    requires pages == PagesUpTo(source, |pages|)
    ensures pages == Pages(source) && Concat(pages) == source
    ensures TotalProcessed(Outcomes(pages, store)) <= |source|
  {
    PagesUpToPrefix(source, |pages|);
    assert Pages(source)[..|pages|] == Pages(source);
    PagesCoverSource(source);
    SavedAtMostFetched(pages, store);
  }

  /**
   * The fetch and page counts for a source of `full` full pages followed by `short`
   * records: `full + 1` fetches in either way of writing the count, and one page more
   * than `full` exactly when `short` is not zero.
   */
  lemma FetchArithmetic(full: nat, short: nat)
    requires short < ChunkSize
    ensures var k := full * ChunkSize + short;
            (if k % ChunkSize == 0 then k / ChunkSize + 1 else (k + ChunkSize - 1) / ChunkSize) == full + 1 &&
            (k + ChunkSize - 1) / ChunkSize == full + (if short > 0 then 1 else 0)
  {
  }

  /**
   * `runQuery`'s loop. Each iteration counts a fetch, stops on an empty page, processes
   * the page as the next chunk, adds the chunk's saved count to the total, moves the
   * cursor past the page, and stops after a short page.
   *
   * The pages it processes are exactly `Pages(source)`, so they cover the source in
   * order; it makes ceil(K / ChunkSize) fetches when K is not a multiple of the page
   * size and K / ChunkSize + 1 when it is (the last fetch returns an empty page); it
   * counts one processed chunk per non-empty page; and the saved total is the sum of
   * the chunks' saved counts.
   */
  method RunQuery(source: seq<SourceRecord>, store: Store)
    returns (stats: RunStats, ghost pages: seq<seq<SourceRecord>>)
    ensures pages == Pages(source) && Concat(pages) == source
    ensures stats.totalChunksProcessed == |pages| == (|source| + ChunkSize - 1) / ChunkSize
    ensures stats.chunkNumber ==
              if |source| % ChunkSize == 0 then |source| / ChunkSize + 1
              else (|source| + ChunkSize - 1) / ChunkSize
    ensures stats.totalDocumentsProcessed == TotalProcessed(Outcomes(pages, store)) <= |source|
  {
    var lastDoc: nat := 0;
    var chunkNumber: nat := 0;
    var totalDocumentsProcessed: nat := 0;
    var totalChunksProcessed: nat := 0;
    pages := [];
    ghost var lastSize: nat := 0;
    while true
      invariant lastDoc == |pages| * ChunkSize <= |source|
      invariant chunkNumber == totalChunksProcessed == |pages| <= (|source| + ChunkSize - 1) / ChunkSize
      invariant pages == PagesUpTo(source, |pages|)
      invariant totalDocumentsProcessed == TotalProcessed(Outcomes(pages, store))
      decreases |source| - lastDoc
    {
      chunkNumber := chunkNumber + 1;
      var documents := Fetch(source, lastDoc, ChunkSize);
      if |documents| == 0 {
        lastSize := 0;
        break;
      }
      NextPage(source, |pages|);
      var chunkResult, writes, failedDocuments := ProcessChunk(documents, chunkNumber, store);
      OutcomesSnoc(pages, documents, store);
      TotalProcessedSnoc(Outcomes(pages, store), chunkResult);
      totalDocumentsProcessed := totalDocumentsProcessed + chunkResult.totalDocumentsProcessed;
      totalChunksProcessed := totalChunksProcessed + 1;
      pages := pages + [documents];
      lastDoc := lastDoc + |documents|;
      if |documents| < ChunkSize {
        lastSize := |documents|;
        break;
      }
    }
    assert |source| == (chunkNumber - 1) * ChunkSize + lastSize && lastSize < ChunkSize;
    FetchArithmetic(chunkNumber - 1, lastSize);
    RunCoversSource(source, pages, store);
    stats := RunStats(chunkNumber, totalChunksProcessed, totalDocumentsProcessed);
  }
}
