/**
 * Filtering and deduplication of one page of source records
 * (`filterAndDeduplicateDocuments`).
 *
 * `Filter` is the specification: a left fold of `Step` over the page, so that the
 * result for a page extended by one record is `Step` of the result for the page.
 * `FilterAndDeduplicate` is the loop the script runs, proved equal to `Filter`.
 * The lemmas state what the filter promises: the page is partitioned exactly,
 * accepted records meet the constraint, carry distinct keys and keep the page's
 * order, and a record is a duplicate exactly when an earlier record with the same
 * key met the constraint.
 */
module FilterDedup {
  import opened Records

  /** What the filter returns for one page. */
  datatype FilterResult = FilterResult(
    filteredDocuments: seq<DerivedRecord>,
    duplicatesRemoved: nat,
    constraintFiltered: nat)
  {
    /** The `totalFiltered` field of the returned object. */
    function TotalFiltered(): nat
    {
      duplicatesRemoved + constraintFiltered
    }
  }

  /** The `parentAutopayId`s of a sequence of derived records. */
  function Keys(s: seq<DerivedRecord>): set<string>
  {
    set i | 0 <= i < |s| :: s[i].parentAutopayId
  }

  predicate DistinctKeys(s: seq<DerivedRecord>)
  {
    forall i, j :: 0 <= i < j < |s| ==> s[i].parentAutopayId != s[j].parentAutopayId
  }

  /**
   * The effect of one record on the result so far: a key already accepted makes it
   * a duplicate (checked first); otherwise a record that fails the constraint is
   * counted as filtered; otherwise it is accepted.
   */
  function Step(acc: FilterResult, d: SourceRecord): FilterResult
  {
    if d.parentAutopayId in Keys(acc.filteredDocuments) then
      acc.(duplicatesRemoved := acc.duplicatesRemoved + 1)
    else if !MeetsConstraint(d) then
      acc.(constraintFiltered := acc.constraintFiltered + 1)
    else
      acc.(filteredDocuments := acc.filteredDocuments + [Derive(d)])
  }

  lemma KeysAppend(s: seq<DerivedRecord>, x: DerivedRecord)
    ensures Keys(s + [x]) == Keys(s) + {x.parentAutopayId}
  {
    var t := s + [x];
    forall k | k in Keys(t) ensures k in Keys(s) + {x.parentAutopayId} {
      var i :| 0 <= i < |t| && t[i].parentAutopayId == k;
      if i < |s| { assert s[i] == t[i]; }
    }
    forall k | k in Keys(s) ensures k in Keys(t) {
      var i :| 0 <= i < |s| && s[i].parentAutopayId == k;
      assert t[i] == s[i];
    }
    assert t[|s|] == x;
  }

  /**
   * The result of filtering a page, with the seen-set starting empty. It partitions
   * the page exactly: every record is accepted, a duplicate or constraint-filtered.
   */
  function Filter(docs: seq<SourceRecord>): (r: FilterResult)
    ensures |r.filteredDocuments| + r.duplicatesRemoved + r.constraintFiltered == |docs|
    decreases |docs|
  {
    if docs == [] then FilterResult([], 0, 0)
    else Step(Filter(docs[..|docs| - 1]), docs[|docs| - 1])
  }

  /** Filtering a page extended by one record is one more `Step`. */
  lemma FilterSnoc(docs: seq<SourceRecord>, d: SourceRecord)
    ensures Filter(docs + [d]) == Step(Filter(docs), d)
  {
    assert (docs + [d])[..|docs|] == docs;
  }

  /**
   * The loop of `filterAndDeduplicateDocuments`: one ordered pass that keeps a set of
   * accepted keys, an accumulator of derived records and two counters.
   */
  method FilterAndDeduplicate(documents: seq<SourceRecord>) returns (r: FilterResult)
    ensures r == Filter(documents)
  {
    var seenParentAutopayIds: set<string> := {};
    var filteredDocuments: seq<DerivedRecord> := [];
    var duplicatesRemoved: nat := 0;
    var constraintFiltered: nat := 0;
    for i := 0 to |documents|
      invariant FilterResult(filteredDocuments, duplicatesRemoved, constraintFiltered) == Filter(documents[..i])
      invariant seenParentAutopayIds == Keys(filteredDocuments)
    {
      var doc := documents[i];
      assert documents[..i + 1] == documents[..i] + [doc];
      FilterSnoc(documents[..i], doc);
      ghost var next := Step(FilterResult(filteredDocuments, duplicatesRemoved, constraintFiltered), doc);
      assert next == Filter(documents[..i + 1]);
      if doc.parentAutopayId in seenParentAutopayIds {
        duplicatesRemoved := duplicatesRemoved + 1;
        assert next == FilterResult(filteredDocuments, duplicatesRemoved, constraintFiltered);
        continue;
      }
      if doc.deductionMonth != Some(TargetMonth) || doc.cycle != Some(TargetCycle) {
        constraintFiltered := constraintFiltered + 1;
        assert next == FilterResult(filteredDocuments, duplicatesRemoved, constraintFiltered);
        continue;
      }
      KeysAppend(filteredDocuments, Derive(doc));
      seenParentAutopayIds := seenParentAutopayIds + {doc.parentAutopayId};
      filteredDocuments := filteredDocuments + [DerivedRecord(doc.id, doc.parentAutopayId, doc.deductionMonth.value, doc.cycle.value)];
      assert next == FilterResult(filteredDocuments, duplicatesRemoved, constraintFiltered);
    }
    assert documents[..|documents|] == documents;
    r := FilterResult(filteredDocuments, duplicatesRemoved, constraintFiltered);
  }

  /** Some record of `docs` with key `k` meets the constraint. */
  predicate PassedWithKey(docs: seq<SourceRecord>, k: string)
  {
    exists j :: 0 <= j < |docs| && MeetsConstraint(docs[j]) && docs[j].parentAutopayId == k
  }

  /**
   * The seen-set holds exactly the keys of records that met the constraint: a
   * constraint-filtered record never adds its key, and every record that meets the
   * constraint leaves its key behind (as the accepted one or a duplicate of it).
   */
  lemma {:induction false} SeenKeysArePassedKeys(docs: seq<SourceRecord>, k: string)
    ensures k in Keys(Filter(docs).filteredDocuments) <==> PassedWithKey(docs, k)
    decreases |docs|
  {
    if docs != [] {
      var n := |docs| - 1;
      var prefix := docs[..n];
      var d := docs[n];
      var prior := Filter(prefix);
      SeenKeysArePassedKeys(prefix, k);
      if PassedWithKey(prefix, k) {
        var j :| 0 <= j < |prefix| && MeetsConstraint(prefix[j]) && prefix[j].parentAutopayId == k;
        assert docs[j] == prefix[j];
      }
      if PassedWithKey(docs, k) && !PassedWithKey(prefix, k) {
        var j :| 0 <= j < |docs| && MeetsConstraint(docs[j]) && docs[j].parentAutopayId == k;
        assert j == n;
      }
      if d.parentAutopayId !in Keys(prior.filteredDocuments) && MeetsConstraint(d) {
        KeysAppend(prior.filteredDocuments, Derive(d));
      }
    }
  }

  /**
   * How the record after `docs` is classified. A key that some earlier record met the
   * constraint with makes it a duplicate, whether or not it meets the constraint itself
   * (the tie-break); otherwise failing the constraint makes it constraint-filtered;
   * otherwise it is accepted and appended. The three cases are exclusive and cover all.
   */
  lemma Classification(docs: seq<SourceRecord>, d: SourceRecord)
    ensures PassedWithKey(docs, d.parentAutopayId) ==>
              Filter(docs + [d]) == Filter(docs).(duplicatesRemoved := Filter(docs).duplicatesRemoved + 1)
    ensures !PassedWithKey(docs, d.parentAutopayId) && !MeetsConstraint(d) ==>
              Filter(docs + [d]) == Filter(docs).(constraintFiltered := Filter(docs).constraintFiltered + 1)
    ensures !PassedWithKey(docs, d.parentAutopayId) && MeetsConstraint(d) ==>
              Filter(docs + [d]) == Filter(docs).(filteredDocuments := Filter(docs).filteredDocuments + [Derive(d)])
  {
    assert (docs + [d])[..|docs|] == docs;
    SeenKeysArePassedKeys(docs, d.parentAutopayId);
  }

  /**
   * Only accepted records block later ones: a record that failed the constraint does
   * not make a later record with the same key a duplicate; that record is accepted.
   */
  lemma RejectedRecordDoesNotBlock(docs: seq<SourceRecord>, rejected: SourceRecord, later: SourceRecord)
    requires !MeetsConstraint(rejected) && MeetsConstraint(later)
    requires rejected.parentAutopayId == later.parentAutopayId
    requires !PassedWithKey(docs, later.parentAutopayId)
    ensures Filter(docs + [rejected]).constraintFiltered == Filter(docs).constraintFiltered + 1
    ensures Filter(docs + [rejected, later]).filteredDocuments == Filter(docs).filteredDocuments + [Derive(later)]
  {
    Classification(docs, rejected);
    var mid := docs + [rejected];
    assert !PassedWithKey(mid, later.parentAutopayId);
    Classification(mid, later);
    assert mid + [later] == docs + [rejected, later];
  }

  /**
   * The positions of the accepted records in the page: strictly increasing, and the
   * accepted record at each place is derived from the record at that position. So the
   * accepted list is an order-preserving subsequence of the page, and each accepted
   * record copies its source's id and key.
   */
  function AcceptedIndices(docs: seq<SourceRecord>): (idx: seq<nat>)
    ensures |idx| == |Filter(docs).filteredDocuments|
    ensures forall k :: 0 <= k < |idx| ==>
              idx[k] < |docs| && MeetsConstraint(docs[idx[k]]) &&
              Filter(docs).filteredDocuments[k] == Derive(docs[idx[k]])
    ensures forall k, l :: 0 <= k < l < |idx| ==> idx[k] < idx[l]
    decreases |docs|
  {
    if docs == [] then []
    else
      var n := |docs| - 1;
      var d := docs[n];
      var prior := AcceptedIndices(docs[..n]);
      assert forall k :: 0 <= k < |prior| ==> docs[..n][prior[k]] == docs[prior[k]];
      if d.parentAutopayId !in Keys(Filter(docs[..n]).filteredDocuments) && MeetsConstraint(d) then
        prior + [n]
      else
        prior
  }

  /** Every accepted record has the target month and cycle. */
  lemma AcceptedMeetConstraint(docs: seq<SourceRecord>)
    ensures forall k :: 0 <= k < |Filter(docs).filteredDocuments| ==>
              Filter(docs).filteredDocuments[k].deductionMonth == TargetMonth &&
              Filter(docs).filteredDocuments[k].cycle == TargetCycle
  {
    var idx := AcceptedIndices(docs);
  }

  /** No two accepted records of a page share a `parentAutopayId`. */
  lemma {:induction false} AcceptedKeysDistinct(docs: seq<SourceRecord>)
    ensures DistinctKeys(Filter(docs).filteredDocuments)
    decreases |docs|
  {
    if docs != [] {
      var n := |docs| - 1;
      AcceptedKeysDistinct(docs[..n]);
      assert docs[..n] + [docs[n]] == docs;
      FilterSnoc(docs[..n], docs[n]);
      var prior := Filter(docs[..n]).filteredDocuments;
      forall i | 0 <= i < |prior| ensures prior[i].parentAutopayId in Keys(prior) {
      }
    }
  }

  /**
   * The seen-set starts empty on every call: a one-record page accepts its record
   * whatever earlier pages held, while within one page a second copy is a duplicate.
   */
  lemma DedupIsPerCall(d: SourceRecord)
    requires MeetsConstraint(d)
    ensures Filter([d]).filteredDocuments == [Derive(d)]
    ensures Filter([d, d]).filteredDocuments == [Derive(d)]
    ensures Filter([d, d]).duplicatesRemoved == 1
  {
    assert [d] == [] + [d];
    FilterSnoc([], d);
    assert Keys([]) == {};
    assert [d, d] == [d] + [d];
    FilterSnoc([d], d);
    assert d.parentAutopayId in Keys([Derive(d)]) by {
      assert [Derive(d)][0].parentAutopayId == d.parentAutopayId;
    }
  }

  /** Later records only append: the accepted list of a prefix is a prefix of the page's. */
  lemma {:induction false} AcceptedPrefix(docs: seq<SourceRecord>, j: nat)
    requires j <= |docs|
    ensures Filter(docs[..j]).filteredDocuments <= Filter(docs).filteredDocuments
    decreases |docs|
  {
    if j < |docs| {
      var n := |docs| - 1;
      AcceptedPrefix(docs[..n], j);
      assert docs[..n][..j] == docs[..j];
      var prior := Filter(docs[..n]);
      assert Filter(docs) == Step(prior, docs[n]);
      assert prior.filteredDocuments <= Step(prior, docs[n]).filteredDocuments;
    } else {
      assert docs[..j] == docs;
    }
  }

  /**
   * A record that meets the constraint is accepted on any page where no earlier record
   * of that same page with its key met the constraint; nothing from other pages
   * matters, since every call starts with an empty seen-set.
   */
  lemma AcceptedWhenKeyFresh(page: seq<SourceRecord>, i: nat)
    requires i < |page| && MeetsConstraint(page[i])
    requires !PassedWithKey(page[..i], page[i].parentAutopayId)
    ensures Derive(page[i]) in Filter(page).filteredDocuments
  {
    FreshRecordAppended(page, i);
    AcceptedPrefix(page, i + 1);
    LastOfPrefix(Filter(page[..i]).filteredDocuments, Derive(page[i]), Filter(page).filteredDocuments);
  }

  /** A record that meets the constraint, after a prefix where its key never did, is appended. */
  lemma FreshRecordAppended(page: seq<SourceRecord>, i: nat)
    requires i < |page| && MeetsConstraint(page[i])
    requires !PassedWithKey(page[..i], page[i].parentAutopayId)
    ensures Filter(page[..i + 1]).filteredDocuments == Filter(page[..i]).filteredDocuments + [Derive(page[i])]
  {
    assert page[..i + 1] == page[..i] + [page[i]];
    SeenKeysArePassedKeys(page[..i], page[i].parentAutopayId);
    FilterSnoc(page[..i], page[i]);
  }

  lemma LastOfPrefix(s: seq<DerivedRecord>, x: DerivedRecord, t: seq<DerivedRecord>)
    requires s + [x] <= t
    ensures x in t
  {
    assert t[|s|] == (s + [x])[|s|];
  }

  /** A page in which no record meets the constraint yields nothing accepted and no duplicates. */
  lemma {:induction false} NothingMeetsConstraint(docs: seq<SourceRecord>)
    requires forall k :: 0 <= k < |docs| ==> !MeetsConstraint(docs[k])
    ensures Filter(docs) == FilterResult([], 0, |docs|)
    decreases |docs|
  {
    if docs != [] {
      var n := |docs| - 1;
      NothingMeetsConstraint(docs[..n]);
      assert Keys([]) == {};
    }
  }
}
