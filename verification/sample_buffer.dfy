/** The bounded in-memory sample buffer of `lib/store.ts`: appends keep at most
    `MaxSamples` samples, dropping the oldest, and reads take a tail of it. */
module SampleBuffer {
  import opened Wrappers
  import opened Seqs
  import opened Samples

  const MaxSamples: nat := 500

  /** `addMetricSample`'s buffer update: push, then keep the newest 500. */
  function Push(buf: seq<Sample>, s: Sample): (r: seq<Sample>)
    ensures |r| == Min(|buf| + 1, MaxSamples)
    ensures r == LastN(buf + [s], MaxSamples)
    ensures r[|r| - 1] == s
  {
    var pushed := buf + [s];
    if |pushed| > MaxSamples then pushed[|pushed| - MaxSamples..] else pushed
  }

  /** A sequence of `addMetricSample` calls, in call order. */
  function PushAll(buf: seq<Sample>, xs: seq<Sample>): seq<Sample>
    decreases |xs|
  {
    if |xs| == 0 then buf else Push(PushAll(buf, xs[..|xs| - 1]), xs[|xs| - 1])
  }

  /** After any sequence of appends to a buffer within capacity, the buffer is
      exactly the newest `min(n, 500)` samples of everything ever held, in
      append order. */
  lemma {:induction false} PushAllKeepsNewest(buf: seq<Sample>, xs: seq<Sample>)
    requires |buf| <= MaxSamples
    ensures PushAll(buf, xs) == LastN(buf + xs, MaxSamples)
  {
    if |xs| > 0 {
      var init := xs[..|xs| - 1];
      var x := xs[|xs| - 1];
      PushAllKeepsNewest(buf, init);
      assert xs == init + [x];
      assert buf + xs == (buf + init) + [x];
      LastNThenPush(buf + init, x);
    }
  }

  lemma LastNThenPush(s: seq<Sample>, x: Sample)
    ensures LastN(LastN(s, MaxSamples) + [x], MaxSamples) == LastN(s + [x], MaxSamples)
  {
    LastNAppend(LastN(s, MaxSamples), x, MaxSamples);
    LastNAppend(s, x, MaxSamples);
    LastNOfLastN(s, MaxSamples, MaxSamples - 1);
  }

  /** Starting from the empty buffer, `n` appends leave the last `min(n, 500)`
      appended samples. */
  lemma FromEmptyKeepsLast(xs: seq<Sample>)
    ensures |PushAll([], xs)| == Min(|xs|, MaxSamples)
    ensures PushAll([], xs) == xs[|xs| - Min(|xs|, MaxSamples)..]
  {
    PushAllKeepsNewest([], xs);
    assert [] + xs == xs;
  }

  /** `getSamples(limit)`: the newest `limit` samples when `limit` is a positive
      number, otherwise (absent, zero or negative) the whole buffer. */
  function GetSamples(buf: seq<Sample>, limit: Option<int>): (r: seq<Sample>)
    ensures limit.Some? && limit.value > 0 ==>
      |r| == Min(limit.value, |buf|) && r == buf[|buf| - |r|..]
    ensures !(limit.Some? && limit.value > 0) ==> r == buf
  {
    if limit.Some? && limit.value > 0 then SliceFromEnd(buf, limit.value) else buf
  }
}
