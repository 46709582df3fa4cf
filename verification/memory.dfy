/** `normalizeMemory` (`lib/metrics.ts`): memory figures reported either in
    gigabytes or, by some agents, in megabytes are brought to gigabytes, with
    a usage percentage when the total is positive. */
module Memory {
  import opened Wrappers

  /** The fields of the returned object; `None` is a missing property. */
  datatype MemoryView = MemoryView(usedGb: Option<real>, totalGb: Option<real>, percent: Option<real>)

  /** A total above 1024 can only be megabytes. */
  const MegabyteThreshold: real := 1024.0

  /** The denominator floor of the percentage. */
  const MinTotal: real := 0.01

  function NormalizeMemory(used: Option<real>, total: Option<real>): (r: MemoryView)
    ensures used.None? || total.None? ==> r == MemoryView(None, None, None)
    ensures used.Some? && total.Some? ==> r.usedGb.Some? && r.totalGb.Some?
    ensures r.percent.Some? <==> r.totalGb.Some? && r.totalGb.value > 0.0
    ensures r.percent.Some? ==>
      r.percent.value == r.usedGb.value / (if r.totalGb.value >= MinTotal then r.totalGb.value else MinTotal) * 100.0
  {
    if used.None? || total.None? then MemoryView(None, None, None)
    else
      var scale := if total.value > MegabyteThreshold then MegabyteThreshold else 1.0;
      var usedGb := used.value / scale;
      var totalGb := total.value / scale;
      var denom := if totalGb >= MinTotal then totalGb else MinTotal;
      MemoryView(Some(usedGb), Some(totalGb), if totalGb > 0.0 then Some(usedGb / denom * 100.0) else None)
  }

  /** Both figures are scaled together, by 1024 exactly when the total
      exceeds 1024, so their ratio, and hence the percentage, does not depend
      on the unit. */
  lemma ScalesBothOrNeither(used: real, total: real)
    ensures var r := NormalizeMemory(Some(used), Some(total));
      && (total > MegabyteThreshold ==> r.usedGb == Some(used / 1024.0) && r.totalGb == Some(total / 1024.0))
      && (total <= MegabyteThreshold ==> r.usedGb == Some(used) && r.totalGb == Some(total))
  {
  }

  /** A report in megabytes and the same figures in gigabytes give the same
      result, as long as the gigabyte total is not itself above 1024 (which
      the heuristic would take for megabytes again). */
  lemma PercentIsUnitFree(used: real, total: real)
    requires MegabyteThreshold < total <= MegabyteThreshold * MegabyteThreshold
    ensures NormalizeMemory(Some(used), Some(total))
         == NormalizeMemory(Some(used / 1024.0), Some(total / 1024.0))
    ensures NormalizeMemory(Some(used), Some(total)).percent
         == NormalizeMemory(Some(used / 1024.0), Some(total / 1024.0)).percent
  {
    assert total / 1024.0 <= MegabyteThreshold;
  }
}
