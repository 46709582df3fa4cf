/** Integer query parameters: every route reads them as
    `n = parseInt(param || fallback, 10)` and then keeps
    `Number.isFinite(n) ? Math.max(lo, Math.min(n, hi)) : dflt`. */
module Params {
  import opened Wrappers
  import opened Text

  /** The text `parseInt` sees: the parameter unless it is missing or empty. */
  function ParamText(raw: Option<string>, fallback: string): (t: string)
    ensures Given(raw) ==> t == raw.value
    ensures !Given(raw) ==> t == fallback
  {
    if Given(raw) then raw.value else fallback
  }

  function IntParam(raw: Option<string>, fallback: string, dflt: int, lo: int, hi: int): (r: int)
    requires lo <= hi
    ensures var p := ParseInt(ParamText(raw, fallback));
      && (p.Some? ==> lo <= r <= hi)
      && (p.Some? && lo <= p.value <= hi ==> r == p.value)
      && (p.Some? && p.value < lo ==> r == lo)
      && (p.Some? && p.value > hi ==> r == hi)
      && (p.None? ==> r == dflt)
  {
    match ParseInt(ParamText(raw, fallback))
    case Some(n) => Max(lo, Min(n, hi))
    case None => dflt
  }

  /** A missing or empty parameter reads the fallback numeral; when that
      numeral already lies in range, it is the value. */
  lemma MissingParamReadsFallback(raw: Option<string>, fallback: string, dflt: int, lo: int, hi: int)
    requires lo <= hi
    requires |fallback| > 0 && forall i :: 0 <= i < |fallback| ==> IsDigit(fallback[i])
    requires lo <= DecimalValue(fallback) <= hi
    ensures !Given(raw) ==> IntParam(raw, fallback, dflt, lo, hi) == DecimalValue(fallback)
  {
    ParseIntOfNumeral(fallback);
  }
}
