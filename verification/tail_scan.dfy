/** The backward scan shared by the per-device log reader (`lib/persist.ts`)
    and the raw log download (`app/api/logs/recent/route.ts`): walk the lines
    from the last one towards the first, skip a line without a time, stop at
    the first line (from the end) older than the cutoff, and otherwise keep the
    line, stopping early once the limit is reached. The kept lines are handed
    back in file order. */
module TailScan {
  import opened Wrappers
  import opened Seqs

  /** How many more lines the scan may keep: `None` for no limit. */
  function Spend(budget: Option<int>): Option<int> {
    match budget
    case Some(k) => Some(k - 1)
    case None => None
  }

  /** The scan over `xs`, written over the prefix still to be visited: the
      result is the source's `out` array, reversed. `budget` is the limit
      minus the lines kept so far; the source checks `out.length >= limit`
      after each push, so a budget of 1 or less ends the scan right after the
      next kept line. */
  function Scan<T>(xs: seq<T>, stamp: T -> Option<int>, cutoff: int, budget: Option<int>): (r: seq<T>)
    decreases |xs|
  {
    if |xs| == 0 then []
    else
      var x := xs[|xs| - 1];
      match stamp(x)
      case None => Scan(xs[..|xs| - 1], stamp, cutoff, budget)
      case Some(t) =>
        if t < cutoff then []
        else if budget.Some? && budget.value <= 1 then [x]
        else Scan(xs[..|xs| - 1], stamp, cutoff, Spend(budget)) + [x]
  }

  /** The index just past the last line that has a time older than `cutoff`
      (0 when there is none): nothing before it can be returned. */
  function StopPoint<T>(xs: seq<T>, stamp: T -> Option<int>, cutoff: int): (p: nat)
    ensures p <= |xs|
    ensures forall i :: p <= i < |xs| && stamp(xs[i]).Some? ==> stamp(xs[i]).value >= cutoff
    ensures p > 0 ==> stamp(xs[p - 1]).Some? && stamp(xs[p - 1]).value < cutoff
    decreases |xs|
  {
    if |xs| == 0 then 0
    else
      var x := xs[|xs| - 1];
      if stamp(x).Some? && stamp(x).value < cutoff then |xs|
      else StopPoint(xs[..|xs| - 1], stamp, cutoff)
  }

  /** The lines of `xs` that carry a time, in order. */
  function Timed<T>(xs: seq<T>, stamp: T -> Option<int>): (r: seq<T>)
    ensures |r| <= |xs|
    ensures forall y :: y in r ==> y in xs && stamp(y).Some?
    decreases |xs|
  {
    if |xs| == 0 then []
    else
      var x := xs[|xs| - 1];
      Timed(xs[..|xs| - 1], stamp) + (if stamp(x).Some? then [x] else [])
  }

  /** Everything the scan may return: the timed lines after the stop point. */
  function Eligible<T>(xs: seq<T>, stamp: T -> Option<int>, cutoff: int): seq<T>
  {
    Timed(xs[StopPoint(xs, stamp, cutoff)..], stamp)
  }

  /** The cap the scan works to: the limit, but never less than one line. */
  function Cap(budget: Option<int>, n: nat): nat {
    match budget
    case Some(k) => Max(k, 1)
    case None => n
  }

  lemma TimedSnoc<T>(a: seq<T>, x: T, stamp: T -> Option<int>)
    ensures Timed(a + [x], stamp) == Timed(a, stamp) + (if stamp(x).Some? then [x] else [])
  {
    assert (a + [x])[..|a + [x]| - 1] == a;
  }

  /** How the eligible lines change when one more line is looked at from the
      end of the file. */
  lemma EligibleStep<T>(xs: seq<T>, stamp: T -> Option<int>, cutoff: int)
    requires |xs| > 0
    ensures var init := xs[..|xs| - 1];
      var x := xs[|xs| - 1];
      Eligible(xs, stamp, cutoff) ==
        match stamp(x)
        case None => Eligible(init, stamp, cutoff)
        case Some(t) => if t < cutoff then [] else Eligible(init, stamp, cutoff) + [x]
  {
    var init := xs[..|xs| - 1];
    var x := xs[|xs| - 1];
    var p := StopPoint(init, stamp, cutoff);
    if stamp(x).Some? && stamp(x).value < cutoff {
      assert xs[|xs|..] == [];
    } else {
      assert xs[p..] == init[p..] + [x];
      TimedSnoc(init[p..], x, stamp);
    }
  }

  /** The scan returns exactly the newest `min(cap, k)` eligible lines, in file
      order: the timed lines after the last line older than the cutoff, of
      which it keeps the last `limit` (at least one; all without a limit). */
  lemma {:induction false} ScanIsNewestEligible<T>(xs: seq<T>, stamp: T -> Option<int>, cutoff: int, budget: Option<int>)
    ensures var e := Eligible(xs, stamp, cutoff);
      Scan(xs, stamp, cutoff, budget) == LastN(e, Cap(budget, |e|))
    decreases |xs|
  {
    if |xs| > 0 {
      var init := xs[..|xs| - 1];
      var x := xs[|xs| - 1];
      EligibleStep(xs, stamp, cutoff);
      var e0 := Eligible(init, stamp, cutoff);
      var e := Eligible(xs, stamp, cutoff);
      match stamp(x)
      case None =>
        assert e == e0;
        ScanIsNewestEligible(init, stamp, cutoff, budget);
        assert Scan(xs, stamp, cutoff, budget) == Scan(init, stamp, cutoff, budget);
      case Some(t) =>
        if t >= cutoff {
          assert e == e0 + [x];
          if budget.Some? && budget.value <= 1 {
            assert Scan(xs, stamp, cutoff, budget) == [x];
            assert Cap(budget, |e|) == 1;
            LastNAppend(e0, x, 1);
          } else {
            ScanIsNewestEligible(init, stamp, cutoff, Spend(budget));
            assert Scan(xs, stamp, cutoff, budget) == Scan(init, stamp, cutoff, Spend(budget)) + [x];
            assert Cap(Spend(budget), |e0|) == Cap(budget, |e|) - 1;
            LastNAppend(e0, x, Cap(budget, |e|));
          }
        }
    }
  }

  /** Without a limit the scan keeps every eligible line. */
  lemma ScanWithoutLimit<T>(xs: seq<T>, stamp: T -> Option<int>, cutoff: int)
    ensures Scan(xs, stamp, cutoff, None) == Eligible(xs, stamp, cutoff)
  {
    var e := Eligible(xs, stamp, cutoff);
    ScanIsNewestEligible(xs, stamp, cutoff, None);
    assert Cap(None, |e|) == |e|;
    assert LastN(e, |e|) == e;
  }

  /** What the scan returns is timed, no older than the cutoff, at most the
      limit (and at least one line's worth when the limit is not positive),
      and comes from after the stop point. */
  lemma ScanBounds<T>(xs: seq<T>, stamp: T -> Option<int>, cutoff: int, budget: Option<int>)
    ensures var r := Scan(xs, stamp, cutoff, budget);
      && (forall y :: y in r ==> stamp(y).Some? && stamp(y).value >= cutoff)
      && (forall y :: y in r ==> y in xs[StopPoint(xs, stamp, cutoff)..])
      && (budget.Some? ==> |r| <= Max(budget.value, 1))
  {
    ScanIsNewestEligible(xs, stamp, cutoff, budget);
    var p := StopPoint(xs, stamp, cutoff);
    var e := Eligible(xs, stamp, cutoff);
    var r := Scan(xs, stamp, cutoff, budget);
    forall y | y in r
      ensures stamp(y).Some? && stamp(y).value >= cutoff && y in xs[p..]
    {
      assert y in e;
      assert y in xs[p..];
      var i :| p <= i < |xs| && xs[i] == y;
    }
  }
}
