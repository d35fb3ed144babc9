/**
 * The records the repair script reads from the `transactions` collection and the
 * small records it derives from the ones it selects.
 */
module Records {

  datatype Option<+T> = None | Some(value: T)

  /** The deduction month a record must carry to be selected. */
  const TargetMonth: string := "October_2025"

  /** The autopay cycle a record must carry to be selected. */
  const TargetCycle: int := 1

  /**
   * One document of the source collection, reduced to the fields the filter reads.
   * `deductionMonth` and `cycle` are read through the optional `autopayInfo` object:
   * a missing object, a missing field, or a value of another JavaScript type (which
   * can never be strictly equal to the target) is `None`.
   */
  datatype SourceRecord = SourceRecord(
    id: string,
    parentAutopayId: string,
    deductionMonth: Option<string>,
    cycle: Option<int>)

  /** The record the filter emits for an accepted document. */
  datatype DerivedRecord = DerivedRecord(
    docId: string,
    parentAutopayId: string,
    deductionMonth: string,
    cycle: int)

  /** The constraint of the filter: the month is "October_2025" and the cycle is 1. */
  predicate MeetsConstraint(d: SourceRecord)
  {
    d.deductionMonth == Some(TargetMonth) && d.cycle == Some(TargetCycle)
  }

  /** The derived record of an accepted document: its id, its key and its autopay fields. */
  function Derive(d: SourceRecord): (r: DerivedRecord)
    requires MeetsConstraint(d)
    ensures r.docId == d.id && r.parentAutopayId == d.parentAutopayId
    ensures r.deductionMonth == TargetMonth && r.cycle == TargetCycle
  {
    DerivedRecord(d.id, d.parentAutopayId, d.deductionMonth.value, d.cycle.value)
  }
}
