/** Sequence helpers shared by the buffer, the log reader and the routes. */
module Seqs {
  import opened Wrappers

  /** The last `min(n, |s|)` elements of `s`, in order. */
  function LastN<T>(s: seq<T>, n: nat): (r: seq<T>)
    ensures |r| == Min(n, |s|)
    ensures r == s[|s| - |r|..]
  {
    if n < |s| then s[|s| - n..] else s
  }

  /** `s.slice(-k)` in JavaScript: the start index `-k` counts from the end
      when negative and from the front otherwise, so `slice(-0)` is all of `s`. */
  function SliceFromEnd<T>(s: seq<T>, k: int): (r: seq<T>)
    ensures k >= 1 ==> r == LastN(s, k)
    ensures k <= 0 ==> r == s[Min(-k, |s|)..]
    ensures r == s[|s| - |r|..]
  {
    var start := -k;
    if start < 0 then s[Max(|s| + start, 0)..] else s[Min(start, |s|)..]
  }

  lemma LastNAppend<T>(s: seq<T>, x: T, n: nat)
    requires n >= 1
    ensures LastN(s + [x], n) == LastN(s, n - 1) + [x]
  {
  }

  lemma LastNOfLastN<T>(s: seq<T>, m: nat, n: nat)
    requires n <= m
    ensures LastN(LastN(s, m), n) == LastN(s, n)
  {
  }

  function Reverse<T>(s: seq<T>): (r: seq<T>)
    ensures |r| == |s|
    ensures forall i :: 0 <= i < |s| ==> r[i] == s[|s| - 1 - i]
  {
    if |s| == 0 then [] else [s[|s| - 1]] + Reverse(s[..|s| - 1])
  }

  /** The cleaned form of every element that survives cleaning, in order:
      the reference for the bounded collection loops below. */
  function Kept<A, T>(xs: seq<A>, clean: A -> Option<T>): (r: seq<T>)
    ensures |r| <= |xs|
  {
    if |xs| == 0 then []
    else (match clean(xs[0]) case Some(c) => [c] case None => []) + Kept(xs[1..], clean)
  }

  /** `for (const x of xs) { const c = clean(x); if (c) out.push(c);
      if (out.length >= cap) break; }`, continuing from `acc`. */
  function CollectUpTo<A, T>(xs: seq<A>, clean: A -> Option<T>, acc: seq<T>, cap: nat): (r: seq<T>)
    requires |acc| < cap
    ensures |r| <= cap
    decreases |xs|
  {
    if |xs| == 0 then acc
    else
      var acc' := match clean(xs[0]) case Some(c) => acc + [c] case None => acc;
      if |acc'| >= cap then acc' else CollectUpTo(xs[1..], clean, acc', cap)
  }

  /** The loop with its early exit keeps exactly the first `cap` survivors. */
  lemma {:induction false} CollectIsFirstKept<A, T>(xs: seq<A>, clean: A -> Option<T>, acc: seq<T>, cap: nat)
    requires |acc| < cap
    ensures var all := acc + Kept(xs, clean);
      CollectUpTo(xs, clean, acc, cap) == all[..Min(cap, |all|)]
    decreases |xs|
  {
    if |xs| > 0 {
      var rest := Kept(xs[1..], clean);
      match clean(xs[0])
      case Some(c) =>
        assert acc + Kept(xs, clean) == (acc + [c]) + rest;
        if |acc| + 1 < cap {
          CollectIsFirstKept(xs[1..], clean, acc + [c], cap);
        }
      case None =>
        assert Kept(xs, clean) == rest;
        CollectIsFirstKept(xs[1..], clean, acc, cap);
    }
  }
}
