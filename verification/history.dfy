/** The history route (`app/api/metrics/history/route.ts`): the samples of one
    device over a clamped window, folded into fixed-width time buckets whose
    points carry per-dimension means, the last temperatures seen and a
    per-target ping aggregate.

    The route keeps its buckets in a `Map` keyed by bucket start and sorts the
    entries at the end; the model keeps them in a table already sorted by key,
    which is the same sequence of entries. */
module History {
  import opened Wrappers
  import opened Json
  import opened Text
  import opened Params
  import opened Samples
  import opened Persist

  // ---------------------------------------------------------------------
  // Window and bucket width
  // ---------------------------------------------------------------------

  const MinMinutes: int := 5
  const MaxMinutes: int := 7 * 24 * 60
  const DefaultMinutes: int := 60
  const MaxHistorySamples: int := 5000

  /** `bucketMsFromMinutes`. */
  function BucketMs(minutes: int): (b: int)
    ensures b > 0
  {
    if minutes <= 60 then 10_000
    else if minutes <= 6 * 60 then 60_000
    else 5 * 60_000
  }

  /** Ten-second buckets up to an hour, one-minute buckets up to six hours,
      five-minute buckets beyond; a longer window never gets finer buckets,
      and a clamped window never has more than 2016 buckets. */
  lemma BucketWidths(minutes: int, longer: int)
    requires minutes <= longer
    ensures minutes <= 60 ==> BucketMs(minutes) == 10_000
    ensures 60 < minutes <= 360 ==> BucketMs(minutes) == 60_000
    ensures minutes > 360 ==> BucketMs(minutes) == 300_000
    ensures BucketMs(minutes) <= BucketMs(longer)
    ensures MinMinutes <= minutes <= MaxMinutes ==> minutes * 60_000 <= 2016 * BucketMs(minutes)
  {
  }

  /** The `minutes` query parameter: `parseInt(minutes || "60")`, clamped to
      five minutes .. one week, sixty when it is not a number. */
  function WindowMinutes(raw: Option<string>): (m: int)
    ensures MinMinutes <= m <= MaxMinutes
    ensures !Given(raw) ==> m == DefaultMinutes
    ensures ParseInt(ParamText(raw, "60")).None? ==> m == DefaultMinutes
    ensures (ParseInt(ParamText(raw, "60")).Some? ==>
      m == Max(MinMinutes, Min(ParseInt(ParamText(raw, "60")).value, MaxMinutes)))
  {
    assert DecimalValue("60") == 60 by {
      assert "60"[..1] == "6";
      assert "6"[..0] == "";
    }
    MissingParamReadsFallback(raw, "60", DefaultMinutes, MinMinutes, MaxMinutes);
    IntParam(raw, "60", DefaultMinutes, MinMinutes, MaxMinutes)
  }

  /** The start of the bucket holding `ts`: `ts` less its remainder. */
  function BucketKey(ts: int, b: int): (k: int)
    requires b > 0
    ensures k <= ts < k + b
  {
    ts - ts % b
  }

  /** The key is `Math.floor(ts / bucketMs) * bucketMs`: Dafny's division
      rounds toward minus infinity for a positive divisor, as `Math.floor`
      does, so negative instants land in the bucket below them too. */
  lemma BucketKeyIsFloor(ts: int, b: int)
    requires b > 0
    ensures BucketKey(ts, b) == (ts / b) * b
  {
  }

  /** The bucket starting at `q * b` holds exactly the instants of
      `[q * b, q * b + b)`. */
  lemma BucketKeyUnique(ts: int, b: int, q: int)
    requires b > 0
    ensures BucketKey(ts, b) == q * b <==> q * b <= ts < q * b + b
  {
    if q * b <= ts < q * b + b {
      var p := ts / b;
      assert ts == p * b + ts % b;
      assert (q - p) * b == q * b - p * b;
      MultipleBelow(q - p, b);
    }
  }

  lemma MultipleBelow(d: int, b: int)
    requires b > 0 && -b < d * b < b
    ensures d == 0
  {
  }

  // ---------------------------------------------------------------------
  // Running means
  // ---------------------------------------------------------------------

  /** A `sumX` / `nX` pair. */
  datatype Avg = Avg(sum: real, count: nat)

  const NoData: Avg := Avg(0.0, 0)

  /** One optional reading into a running mean. */
  function Feed(a: Avg, x: Option<real>): (r: Avg)
    ensures x.None? ==> r == a
    ensures x.Some? ==> r.count == a.count + 1 && r.sum == a.sum + x.value
  {
    if x.Some? then Avg(a.sum + x.value, a.count + 1) else a
  }

  /** `n ? sum / n : undefined`. */
  function Mean(a: Avg): (r: Option<real>)
    ensures r.None? <==> a.count == 0
    ensures r.Some? ==> r.value * (a.count as real) == a.sum
  {
    if a.count == 0 then None else Some(a.sum / (a.count as real))
  }

  /** The readings that are present, in order. */
  function Present(xs: seq<Option<real>>): (r: seq<real>)
    ensures |r| <= |xs|
    ensures forall v :: v in r <==> Some(v) in xs
  {
    if |xs| == 0 then []
    else
      var init := xs[..|xs| - 1];
      assert xs == init + [xs[|xs| - 1]];
      Present(init) + (if xs[|xs| - 1].Some? then [xs[|xs| - 1].value] else [])
  }

  function Sum(xs: seq<real>): real {
    if |xs| == 0 then 0.0 else Sum(xs[..|xs| - 1]) + xs[|xs| - 1]
  }

  /** The reference mean of a run of optional readings: the sum of the
      present ones and how many there are. */
  function AvgOf(xs: seq<Option<real>>): Avg {
    Avg(Sum(Present(xs)), |Present(xs)|)
  }

  lemma AvgOfSnoc(xs: seq<Option<real>>, x: Option<real>)
    ensures AvgOf(xs + [x]) == Feed(AvgOf(xs), x)
  {
    assert (xs + [x])[..|xs|] == xs;
    if x.Some? {
      var p := Present(xs) + [x.value];
      assert Present(xs + [x]) == p;
      assert p[..|p| - 1] == Present(xs);
      assert Sum(p) == Sum(Present(xs)) + x.value;
    } else {
      assert Present(xs + [x]) == Present(xs) + [];
      assert Present(xs) + [] == Present(xs);
    }
  }

  /** No present reading, no mean: a dimension nobody reported stays absent
      rather than becoming zero. */
  lemma NoReadingNoMean(xs: seq<Option<real>>)
    ensures Mean(AvgOf(xs)).None? <==> forall i :: 0 <= i < |xs| ==> xs[i].None?
  {
    if |xs| > 0 {
      var init := xs[..|xs| - 1];
      NoReadingNoMean(init);
      assert forall i :: 0 <= i < |init| ==> init[i] == xs[i];
    }
  }

  /** The last present reading. */
  function LastPresent(xs: seq<Option<real>>): (r: Option<real>)
    ensures r.Some? ==> exists i :: 0 <= i < |xs| && xs[i] == r && forall j :: i < j < |xs| ==> xs[j].None?
    ensures r.None? <==> forall i :: 0 <= i < |xs| ==> xs[i].None?
  {
    if |xs| == 0 then None
    else if xs[|xs| - 1].Some? then xs[|xs| - 1]
    else
      var init := xs[..|xs| - 1];
      var r := LastPresent(init);
      assert forall i :: 0 <= i < |init| ==> init[i] == xs[i];
      assert r.Some? ==> exists i :: 0 <= i < |xs| && xs[i] == r && forall j :: i < j < |xs| ==> xs[j].None? by {
        if r.Some? {
          var i :| 0 <= i < |init| && init[i] == r && forall j :: i < j < |init| ==> init[j].None?;
          assert forall j :: i < j < |xs| ==> xs[j].None?;
        }
      }
      r
  }

  /** The largest present reading. */
  function Largest(xs: seq<Option<real>>): (r: Option<real>)
    ensures r.Some? ==> exists i :: 0 <= i < |xs| && xs[i] == r
    ensures r.Some? ==> forall i :: 0 <= i < |xs| && xs[i].Some? ==> xs[i].value <= r.value
    ensures r.None? <==> forall i :: 0 <= i < |xs| ==> xs[i].None?
  {
    if |xs| == 0 then None
    else
      var init := xs[..|xs| - 1];
      var m := Largest(init);
      assert forall i :: 0 <= i < |init| ==> init[i] == xs[i];
      var x := xs[|xs| - 1];
      if x.None? then m
      else if m.Some? && m.value >= x.value then m
      else x
  }

  // ---------------------------------------------------------------------
  // What one sample contributes
  // ---------------------------------------------------------------------

  /** The averaged dimensions of a point. */
  datatype Dimension = Cpu | Mem | MemUsed | Disk | Rx | Tx | Dns

  /** `used` and `total` when both are numbers and `total > 0`. */
  predicate HasMemory(m: Metrics) {
    AsNumber(m.memUsedGB).Some? && AsNumber(m.memTotalGB).Some? && AsNumber(m.memTotalGB).value > 0.0
  }

  predicate HasDisk(m: Metrics) {
    AsNumber(m.diskUsedGB).Some? && AsNumber(m.diskTotalGB).Some? && AsNumber(m.diskTotalGB).value > 0.0
  }

  /** `net.probe`, when the sample carries one. */
  function Probe(m: Metrics): Option<Value> {
    Field(m.net, "probe")
  }

  /** The reading a sample gives for a dimension, if any. */
  function Reading(m: Metrics, d: Dimension): (r: Option<real>)
    ensures d == Cpu ==> r == AsNumber(m.cpuPercent)
    ensures d == MemUsed ==> (r.Some? <==> HasMemory(m))
    ensures d == Mem ==> (r.Some? <==> HasMemory(m))
    ensures d == Disk ==> (r.Some? <==> HasDisk(m))
  {
    match d
    case Cpu => AsNumber(m.cpuPercent)
    case Mem =>
      if HasMemory(m) then Some(AsNumber(m.memUsedGB).value / AsNumber(m.memTotalGB).value * 100.0) else None
    case MemUsed => if HasMemory(m) then AsNumber(m.memUsedGB) else None
    case Disk =>
      if HasDisk(m) then Some(AsNumber(m.diskUsedGB).value / AsNumber(m.diskTotalGB).value * 100.0) else None
    case Rx => AsNumber(Field(Field(m.net, "totals"), "rxBps"))
    case Tx => AsNumber(Field(Field(m.net, "totals"), "txBps"))
    case Dns => AsNumber(Field(Field(Probe(m), "dns"), "ms"))
  }

  /** The total that feeds `memTotalGB`: only with a usable memory reading. */
  function MemTotal(m: Metrics): (r: Option<real>)
    ensures r.Some? <==> HasMemory(m)
  {
    if HasMemory(m) then AsNumber(m.memTotalGB) else None
  }

  /** The entries of `net.probe.ping` when it is an array. */
  function Pings(m: Metrics): seq<Value> {
    match Field(Probe(m), "ping")
    case Some(JArr(items)) => items
    case _ => []
  }

  /** `String(p.target)` for a truthy target; an entry whose target is
      missing or falsy is skipped. */
  function PingTarget(p: Value): (r: Option<string>)
    ensures r.Some? <==> TruthyOpt(Field(Some(p), "target"))
    ensures r.Some? ==> r.value == ToText(Field(Some(p), "target").value)
  {
    var t := Field(Some(p), "target");
    if TruthyOpt(t) then Some(ToText(t.value)) else None
  }

  /** A string target is its own key, and a numeric target is keyed by its
      numeral, so `8` and `"8"` feed the same entry. */
  lemma PingTargetKeys(p: Value, s: string, n: int)
    ensures Field(Some(p), "target") == Some(JStr(s)) && s != "" ==> PingTarget(p) == Some(s)
    ensures (Field(Some(p), "target") == Some(JNum(n as real)) && n != 0 ==>
      PingTarget(p).Some? && ParseInt(PingTarget(p).value) == Some(n))
  {
    TextOfScalars(s, n);
  }

  /** `String(p.target)` throws: the target is truthy but does not print,
      such as an object with its own `toString` key. */
  predicate PingThrows(p: Value) {
    var t := Field(Some(p), "target");
    TruthyOpt(t) && !Printable(t.value)
  }

  /** A throwing target is exactly a truthy target that `String` rejects;
      plain strings, numbers and objects never throw, an own `toString`
      key always does. */
  lemma PingThrowsCases(s: string)
    ensures !PingThrows(JObj(map["target" := JStr(s)]))
    ensures !PingThrows(JObj(map["target" := JObj(map["host" := JStr(s)])]))
    ensures PingThrows(JObj(map["target" := JObj(map["toString" := JNum(1.0)]), "avgMs" := JNum(5.0)]))
    ensures PingThrows(JObj(map["target" := JArr([JObj(map["toString" := JStr(s)])])]))
  {
    var bad := JObj(map["toString" := JStr(s)]);
    assert [bad][0] == bad;
  }

  function PingAvgMs(p: Value): Option<real> { AsNumber(Field(Some(p), "avgMs")) }

  function PingLossPct(p: Value): Option<real> { AsNumber(Field(Some(p), "lossPct")) }

  // ---------------------------------------------------------------------
  // Per-target ping aggregates
  // ---------------------------------------------------------------------

  datatype PingAgg = PingAgg(avg: Avg, loss: Avg)

  const NoPings: PingAgg := PingAgg(NoData, NoData)

  function AggAt(agg: map<string, PingAgg>, k: string): PingAgg {
    if k in agg then agg[k] else NoPings
  }

  /** One ping entry into the per-target map. */
  function FeedPing(agg: map<string, PingAgg>, p: Value): (r: map<string, PingAgg>)
    ensures PingTarget(p).None? ==> r == agg
    ensures PingTarget(p).Some? ==> r.Keys == agg.Keys + {PingTarget(p).value}
  {
    match PingTarget(p)
    case None => agg
    case Some(k) =>
      var a := AggAt(agg, k);
      agg[k := PingAgg(Feed(a.avg, PingAvgMs(p)), Feed(a.loss, PingLossPct(p)))]
  }

  function FeedPings(agg: map<string, PingAgg>, ps: seq<Value>): map<string, PingAgg> {
    if |ps| == 0 then agg else FeedPing(FeedPings(agg, ps[..|ps| - 1]), ps[|ps| - 1])
  }

  lemma {:induction false} FeedPingsAppend(agg: map<string, PingAgg>, a: seq<Value>, b: seq<Value>)
    ensures FeedPings(agg, a + b) == FeedPings(FeedPings(agg, a), b)
    decreases |b|
  {
    if |b| == 0 {
      assert a + b == a;
    } else {
      var init := b[..|b| - 1];
      var x := b[|b| - 1];
      var ab := a + b;
      assert ab[..|ab| - 1] == a + init;
      assert ab[|ab| - 1] == x;
      assert FeedPings(agg, ab) == FeedPing(FeedPings(agg, a + init), x);
      FeedPingsAppend(agg, a, init);
      assert FeedPings(FeedPings(agg, a), b) == FeedPing(FeedPings(FeedPings(agg, a), init), x);
    }
  }

  /** The readings of the pings aimed at `k`, in order. */
  function AvgMsFor(ps: seq<Value>, k: string): seq<Option<real>> {
    if |ps| == 0 then []
    else AvgMsFor(ps[..|ps| - 1], k) + (if PingTarget(ps[|ps| - 1]) == Some(k) then [PingAvgMs(ps[|ps| - 1])] else [])
  }

  function LossPctFor(ps: seq<Value>, k: string): seq<Option<real>> {
    if |ps| == 0 then []
    else LossPctFor(ps[..|ps| - 1], k) + (if PingTarget(ps[|ps| - 1]) == Some(k) then [PingLossPct(ps[|ps| - 1])] else [])
  }

  /** The ping map has an entry for exactly the texts of the truthy targets
      seen, and each entry averages that target's `avgMs` and `lossPct`
      independently, over the pings that carried each. */
  lemma {:induction false} PingTargets(ps: seq<Value>, k: string)
    ensures k in FeedPings(map[], ps) <==> exists i :: 0 <= i < |ps| && PingTarget(ps[i]) == Some(k)
    ensures AggAt(FeedPings(map[], ps), k) == PingAgg(AvgOf(AvgMsFor(ps, k)), AvgOf(LossPctFor(ps, k)))
  {
    if |ps| > 0 {
      var init := ps[..|ps| - 1];
      var p := ps[|ps| - 1];
      PingTargets(init, k);
      assert forall i :: 0 <= i < |init| ==> init[i] == ps[i];
      if PingTarget(p) == Some(k) {
        AvgOfSnoc(AvgMsFor(init, k), PingAvgMs(p));
        AvgOfSnoc(LossPctFor(init, k), PingLossPct(p));
      } else {
        var prev := FeedPings(map[], init);
        assert FeedPings(map[], ps) == FeedPing(prev, p);
        if PingTarget(p).Some? {
          var a := AggAt(prev, PingTarget(p).value);
          assert FeedPing(prev, p) == prev[PingTarget(p).value := PingAgg(Feed(a.avg, PingAvgMs(p)), Feed(a.loss, PingLossPct(p)))];
        }
        assert AggAt(FeedPing(prev, p), k) == AggAt(prev, k);
        assert AvgMsFor(ps, k) == AvgMsFor(init, k) + [];
        assert AvgMsFor(init, k) + [] == AvgMsFor(init, k);
        assert LossPctFor(ps, k) == LossPctFor(init, k) + [];
        assert LossPctFor(init, k) + [] == LossPctFor(init, k);
      }
    }
  }

  // ---------------------------------------------------------------------
  // Buckets
  // ---------------------------------------------------------------------

  /** The accumulator of one bucket. */
  datatype Bucket = Bucket(
    cpu: Avg, mem: Avg, memUsed: Avg, memTotal: Option<real>, disk: Avg,
    rx: Avg, tx: Avg, dns: Avg, cpuTemp: Option<real>, gpuTemp: Option<real>,
    ping: map<string, PingAgg>)

  const EmptyBucket: Bucket :=
    Bucket(NoData, NoData, NoData, None, NoData, NoData, NoData, NoData, None, None, map[])

  function Dim(bk: Bucket, d: Dimension): Avg {
    match d
    case Cpu => bk.cpu
    case Mem => bk.mem
    case MemUsed => bk.memUsed
    case Disk => bk.disk
    case Rx => bk.rx
    case Tx => bk.tx
    case Dns => bk.dns
  }

  /** The body of the route's loop for one sample already known to fall in
      this bucket. */
  function Accumulate(bk: Bucket, m: Metrics): (r: Bucket)
    ensures forall d :: Dim(r, d) == Feed(Dim(bk, d), Reading(m, d))
  {
    var r := Bucket(
      cpu := Feed(bk.cpu, Reading(m, Cpu)),
      mem := Feed(bk.mem, Reading(m, Mem)),
      memUsed := Feed(bk.memUsed, Reading(m, MemUsed)),
      memTotal := if HasMemory(m) then Some(RealMax(bk.memTotal.GetOr(0.0), MemTotal(m).value)) else bk.memTotal,
      disk := Feed(bk.disk, Reading(m, Disk)),
      rx := Feed(bk.rx, Reading(m, Rx)),
      tx := Feed(bk.tx, Reading(m, Tx)),
      dns := Feed(bk.dns, Reading(m, Dns)),
      cpuTemp := if AsNumber(m.cpuTempC).Some? then AsNumber(m.cpuTempC) else bk.cpuTemp,
      gpuTemp := if AsNumber(m.gpuTempC).Some? then AsNumber(m.gpuTempC) else bk.gpuTemp,
      ping := FeedPings(bk.ping, Pings(m)));
    AccumulateDims(bk, m, r);
    r
  }

  lemma AccumulateDims(bk: Bucket, m: Metrics, r: Bucket)
    requires r.cpu == Feed(bk.cpu, Reading(m, Cpu)) && r.mem == Feed(bk.mem, Reading(m, Mem))
    requires r.memUsed == Feed(bk.memUsed, Reading(m, MemUsed)) && r.disk == Feed(bk.disk, Reading(m, Disk))
    requires r.rx == Feed(bk.rx, Reading(m, Rx)) && r.tx == Feed(bk.tx, Reading(m, Tx))
    requires r.dns == Feed(bk.dns, Reading(m, Dns))
    ensures forall d :: Dim(r, d) == Feed(Dim(bk, d), Reading(m, d))
  {
    forall d ensures Dim(r, d) == Feed(Dim(bk, d), Reading(m, d)) {
      match d
      case Cpu => case Mem => case MemUsed => case Disk => case Rx => case Tx => case Dns =>
    }
  }

  function RealMax(a: real, b: real): real { if a >= b then a else b }

  /** A bucket after its samples, in input order. */
  function FoldBucket(ms: seq<Metrics>): Bucket {
    if |ms| == 0 then EmptyBucket else Accumulate(FoldBucket(ms[..|ms| - 1]), ms[|ms| - 1])
  }

  function Readings(ms: seq<Metrics>, d: Dimension): (r: seq<Option<real>>)
    ensures |r| == |ms|
    ensures forall i :: 0 <= i < |ms| ==> r[i] == Reading(ms[i], d)
  {
    seq(|ms|, i requires 0 <= i < |ms| => Reading(ms[i], d))
  }

  function CpuTemps(ms: seq<Metrics>): (r: seq<Option<real>>)
    ensures |r| == |ms|
    ensures forall i :: 0 <= i < |ms| ==> r[i] == AsNumber(ms[i].cpuTempC)
  {
    seq(|ms|, i requires 0 <= i < |ms| => AsNumber(ms[i].cpuTempC))
  }

  function GpuTemps(ms: seq<Metrics>): (r: seq<Option<real>>)
    ensures |r| == |ms|
    ensures forall i :: 0 <= i < |ms| ==> r[i] == AsNumber(ms[i].gpuTempC)
  {
    seq(|ms|, i requires 0 <= i < |ms| => AsNumber(ms[i].gpuTempC))
  }

  function MemTotals(ms: seq<Metrics>): (r: seq<Option<real>>)
    ensures |r| == |ms|
    ensures forall i :: 0 <= i < |ms| ==> r[i] == MemTotal(ms[i])
  {
    seq(|ms|, i requires 0 <= i < |ms| => MemTotal(ms[i]))
  }

  /** Every ping entry of the bucket's samples, in order. */
  function AllPings(ms: seq<Metrics>): seq<Value> {
    if |ms| == 0 then [] else AllPings(ms[..|ms| - 1]) + Pings(ms[|ms| - 1])
  }

  /** Each averaged dimension of a bucket is the sum and count of the
      readings its samples supplied. */
  lemma {:induction false} FoldDimension(ms: seq<Metrics>, d: Dimension)
    ensures Dim(FoldBucket(ms), d) == AvgOf(Readings(ms, d))
  {
    if |ms| > 0 {
      var init := ms[..|ms| - 1];
      var m := ms[|ms| - 1];
      var bk := FoldBucket(init);
      FoldDimension(init, d);
      assert FoldBucket(ms) == Accumulate(bk, m);
      assert Dim(FoldBucket(ms), d) == Feed(Dim(bk, d), Reading(m, d));
      ReadingsSnoc(ms, d);
      AvgOfSnoc(Readings(init, d), Reading(m, d));
    }
  }

  lemma ReadingsSnoc(ms: seq<Metrics>, d: Dimension)
    requires |ms| > 0
    ensures Readings(ms, d) == Readings(ms[..|ms| - 1], d) + [Reading(ms[|ms| - 1], d)]
  {
    var a := Readings(ms, d);
    var b := Readings(ms[..|ms| - 1], d) + [Reading(ms[|ms| - 1], d)];
    assert |a| == |b|;
    forall i | 0 <= i < |a| ensures a[i] == b[i] {
      if i < |ms| - 1 {
        assert ms[..|ms| - 1][i] == ms[i];
      }
    }
  }

  /** `memTotalGB` is the largest usable total of the bucket. */
  lemma {:induction false} FoldMemTotal(ms: seq<Metrics>)
    ensures FoldBucket(ms).memTotal == Largest(MemTotals(ms))
  {
    if |ms| > 0 {
      var init := ms[..|ms| - 1];
      var m := ms[|ms| - 1];
      var bk := FoldBucket(init);
      var xs := MemTotals(ms);
      FoldMemTotal(init);
      assert FoldBucket(ms) == Accumulate(bk, m);
      assert xs[..|ms| - 1] == MemTotals(init);
      assert xs[|ms| - 1] == MemTotal(m);
      if HasMemory(m) {
        var x := MemTotal(m).value;
        assert x > 0.0;
        assert FoldBucket(ms).memTotal == Some(RealMax(bk.memTotal.GetOr(0.0), x));
      } else {
        assert FoldBucket(ms).memTotal == bk.memTotal;
      }
    }
  }

  /** The temperatures are the last numeric reading of the bucket, in input
      order: they are overwritten, not averaged. */
  lemma {:induction false} FoldTemperatures(ms: seq<Metrics>)
    ensures FoldBucket(ms).cpuTemp == LastPresent(CpuTemps(ms))
    ensures FoldBucket(ms).gpuTemp == LastPresent(GpuTemps(ms))
  {
    if |ms| > 0 {
      var init := ms[..|ms| - 1];
      var m := ms[|ms| - 1];
      FoldTemperatures(init);
      assert FoldBucket(ms) == Accumulate(FoldBucket(init), m);
      assert CpuTemps(ms)[..|ms| - 1] == CpuTemps(init);
      assert CpuTemps(ms)[|ms| - 1] == AsNumber(m.cpuTempC);
      assert GpuTemps(ms)[..|ms| - 1] == GpuTemps(init);
      assert GpuTemps(ms)[|ms| - 1] == AsNumber(m.gpuTempC);
    }
  }

  /** The ping map of a bucket aggregates every ping entry of its samples,
      in order. */
  lemma {:induction false} FoldPings(ms: seq<Metrics>)
    ensures FoldBucket(ms).ping == FeedPings(map[], AllPings(ms))
  {
    if |ms| > 0 {
      var init := ms[..|ms| - 1];
      FoldPings(init);
      FeedPingsAppend(map[], AllPings(init), Pings(ms[|ms| - 1]));
    }
  }

  // ---------------------------------------------------------------------
  // The bucket table
  // ---------------------------------------------------------------------

  datatype Slot = Slot(key: int, bucket: Bucket)

  predicate Ascending(t: seq<Slot>) {
    forall i, j :: 0 <= i < j < |t| ==> t[i].key < t[j].key
  }

  /** `buckets.get(k)`. */
  function Get(t: seq<Slot>, k: int): (r: Option<Bucket>)
    ensures r.Some? ==> exists i :: 0 <= i < |t| && t[i] == Slot(k, r.value)
    ensures r.None? <==> forall i :: 0 <= i < |t| ==> t[i].key != k
  {
    if |t| == 0 then None
    else if t[0].key == k then Some(t[0].bucket)
    else
      var r := Get(t[1..], k);
      assert forall i :: 1 <= i < |t| ==> t[1..][i - 1] == t[i];
      r
  }

  /** In a table sorted by key, each slot is what `get` finds for its key. */
  lemma GetAt(t: seq<Slot>, i: nat)
    requires Ascending(t) && i < |t|
    ensures Get(t, t[i].key) == Some(t[i].bucket)
  {
    if i > 0 {
      GetAt(t[1..], i - 1);
    }
  }

  /** One sample into the bucket with key `k`, opening it when new
      (`buckets.get(b) ?? {...}` then `buckets.set(b, cur)`). */
  function Upsert(t: seq<Slot>, k: int, m: Metrics): (r: seq<Slot>)
    requires Ascending(t)
    ensures Ascending(r)
    ensures |r| > 0 && r[0].key == (if |t| == 0 then k else if k < t[0].key then k else t[0].key)
  {
    if |t| == 0 then [Slot(k, Accumulate(EmptyBucket, m))]
    else if t[0].key == k then
      AscendingCons(Slot(k, Accumulate(t[0].bucket, m)), t[1..]);
      [Slot(k, Accumulate(t[0].bucket, m))] + t[1..]
    else if k < t[0].key then
      AscendingCons(Slot(k, Accumulate(EmptyBucket, m)), t);
      [Slot(k, Accumulate(EmptyBucket, m))] + t
    else
      var rest := Upsert(t[1..], k, m);
      AscendingCons(t[0], rest);
      [t[0]] + rest
  }

  /** After the upsert the bucket for `k` is the old one (or a fresh one)
      with the sample added, and every other bucket is what it was. */
  lemma {:induction false} UpsertGet(t: seq<Slot>, k: int, m: Metrics, k': int)
    requires Ascending(t)
    ensures Get(Upsert(t, k, m), k')
      == if k' == k then Some(Accumulate(Get(t, k).GetOr(EmptyBucket), m)) else Get(t, k')
  {
    var r := Upsert(t, k, m);
    if |t| == 0 {
      GetCons(Slot(k, Accumulate(EmptyBucket, m)), []);
      assert r == [Slot(k, Accumulate(EmptyBucket, m))] + [];
    } else {
      assert t == [t[0]] + t[1..];
      GetCons(t[0], t[1..]);
      if t[0].key == k {
        GetCons(Slot(k, Accumulate(t[0].bucket, m)), t[1..]);
      } else if k < t[0].key {
        assert Get(t, k).None?;
        GetCons(Slot(k, Accumulate(EmptyBucket, m)), t);
      } else {
        var rest := Upsert(t[1..], k, m);
        assert r == [t[0]] + rest;
        UpsertGet(t[1..], k, m, k');
        GetCons(t[0], rest);
      }
    }
  }

  /** `get` on a table with a first slot looks there first. */
  lemma GetCons(s: Slot, rest: seq<Slot>)
    ensures forall k :: Get([s] + rest, k) == if s.key == k then Some(s.bucket) else Get(rest, k)
  {
    assert ([s] + rest)[1..] == rest;
  }

  lemma AscendingCons(s: Slot, rest: seq<Slot>)
    requires Ascending(rest)
    requires |rest| > 0 ==> s.key < rest[0].key
    ensures Ascending([s] + rest)
  {
    var r := [s] + rest;
    forall i, j | 0 <= i < j < |r| ensures r[i].key < r[j].key {
      if i > 0 {
        assert r[i] == rest[i - 1] && r[j] == rest[j - 1];
      } else {
        assert r[j] == rest[j - 1];
      }
    }
  }

  /** The accumulation loop over the records read: a record without a
      finite time is skipped, every other one lands in its bucket. */
  function Aggregate(rs: seq<Record>, b: int): (t: seq<Slot>)
    requires b > 0
    ensures Ascending(t)
  {
    if |rs| == 0 then []
    else
      var t := Aggregate(rs[..|rs| - 1], b);
      var r := rs[|rs| - 1];
      if r.ts.Some? then Upsert(t, BucketKey(r.ts.value, b), r.sample.metrics) else t
  }

  /** The reference grouping: the metrics of the records whose time falls in
      the bucket that starts at `k`, in input order. */
  function Members(rs: seq<Record>, b: int, k: int): seq<Metrics>
    requires b > 0
  {
    if |rs| == 0 then []
    else
      var r := rs[|rs| - 1];
      Members(rs[..|rs| - 1], b, k)
        + (if r.ts.Some? && BucketKey(r.ts.value, b) == k then [r.sample.metrics] else [])
  }

  /** The table has a bucket for `k` exactly when some record falls in it,
      and that bucket is the fold of those records. */
  lemma {:induction false} AggregateGet(rs: seq<Record>, b: int, k: int)
    requires b > 0
    ensures Get(Aggregate(rs, b), k)
      == if |Members(rs, b, k)| == 0 then None else Some(FoldBucket(Members(rs, b, k)))
  {
    if |rs| > 0 {
      var init := rs[..|rs| - 1];
      var r := rs[|rs| - 1];
      AggregateGet(init, b, k);
      var ms := Members(init, b, k);
      var t := Aggregate(init, b);
      if r.ts.None? {
        assert Members(rs, b, k) == ms + [];
        assert ms + [] == ms;
      } else {
        var key := BucketKey(r.ts.value, b);
        var u := Upsert(t, key, r.sample.metrics);
        assert Aggregate(rs, b) == u;
        UpsertGet(t, key, r.sample.metrics, k);
        if key == k {
          var ms' := ms + [r.sample.metrics];
          assert Members(rs, b, k) == ms';
          assert ms'[..|ms'| - 1] == ms;
          assert Get(u, k) == Some(Accumulate(Get(t, k).GetOr(EmptyBucket), r.sample.metrics));
        } else {
          assert Get(u, k) == Get(t, k);
          assert Members(rs, b, k) == ms + [];
          assert ms + [] == ms;
        }
      }
    }
  }

  lemma {:induction false} MembersOf(rs: seq<Record>, b: int, j: nat)
    requires b > 0 && j < |rs| && rs[j].ts.Some?
    ensures rs[j].sample.metrics in Members(rs, b, BucketKey(rs[j].ts.value, b))
  {
    if j < |rs| - 1 {
      MembersOf(rs[..|rs| - 1], b, j);
    }
  }

  /** Some record whose time falls in `[k, k + b)` carries `m`. */
  predicate RecordedIn(rs: seq<Record>, b: int, k: int, m: Metrics) {
    exists j :: 0 <= j < |rs| && rs[j].ts.Some? && k <= rs[j].ts.value < k + b && rs[j].sample.metrics == m
  }

  lemma {:induction false} MembersAreInBucket(rs: seq<Record>, b: int, k: int, m: Metrics)
    requires b > 0
    requires m in Members(rs, b, k)
    ensures exists j :: 0 <= j < |rs| && rs[j].ts.Some? && BucketKey(rs[j].ts.value, b) == k && rs[j].sample.metrics == m
    ensures RecordedIn(rs, b, k, m)
  {
    var init := rs[..|rs| - 1];
    if m in Members(init, b, k) {
      MembersAreInBucket(init, b, k, m);
      var j :| 0 <= j < |init| && init[j].ts.Some? && BucketKey(init[j].ts.value, b) == k && init[j].sample.metrics == m;
      assert rs[j] == init[j];
    }
  }

  // ---------------------------------------------------------------------
  // Points
  // ---------------------------------------------------------------------

  datatype PingPoint = PingPoint(avgMs: Option<real>, lossPct: Option<real>)

  /** One emitted point; `None` is a property left `undefined`. */
  datatype Point = Point(
    t: int, cpu: Option<real>, mem: Option<real>, memUsedGB: Option<real>,
    memTotalGB: Option<real>, disk: Option<real>, cpuTemp: Option<real>,
    gpuTemp: Option<real>, rxBps: Option<real>, txBps: Option<real>,
    dnsMs: Option<real>, ping: Option<map<string, PingPoint>>)

  function PingPoints(agg: map<string, PingAgg>): (r: Option<map<string, PingPoint>>)
    ensures r.None? <==> |agg| == 0
    ensures r.Some? ==> r.value.Keys == agg.Keys
    ensures r.Some? ==> forall k :: k in agg ==> r.value[k] == PingPoint(Mean(agg[k].avg), Mean(agg[k].loss))
  {
    if |agg| == 0 then None
    else Some(map k | k in agg :: PingPoint(Mean(agg[k].avg), Mean(agg[k].loss)))
  }

  function ToPoint(s: Slot): Point {
    var v := s.bucket;
    Point(s.key, Mean(v.cpu), Mean(v.mem), Mean(v.memUsed), v.memTotal, Mean(v.disk),
      v.cpuTemp, v.gpuTemp, Mean(v.rx), Mean(v.tx), Mean(v.dns), PingPoints(v.ping))
  }

  function Points(t: seq<Slot>): (ps: seq<Point>)
    requires Ascending(t)
    ensures |ps| == |t|
    ensures forall i :: 0 <= i < |t| ==> ps[i] == ToPoint(t[i])
    ensures forall i, j :: 0 <= i < j < |ps| ==> ps[i].t < ps[j].t
  {
    seq(|t|, i requires 0 <= i < |t| => ToPoint(t[i]))
  }

  function PointMean(p: Point, d: Dimension): Option<real> {
    match d
    case Cpu => p.cpu
    case Mem => p.mem
    case MemUsed => p.memUsedGB
    case Disk => p.disk
    case Rx => p.rxBps
    case Tx => p.txBps
    case Dns => p.dnsMs
  }

  lemma PointMeanOfDim(s: Slot, d: Dimension)
    ensures PointMean(ToPoint(s), d) == Mean(Dim(s.bucket, d))
  {
    match d
    case Cpu => case Mem => case MemUsed => case Disk => case Rx => case Tx => case Dns =>
  }

  /** What a point states about the samples of its bucket: each mean is
      sum / count over the samples that supplied the dimension (absent when
      none did), `memTotalGB` the largest usable total, and the
      temperatures the last numeric reading. */
  lemma PointSummarises(k: int, ms: seq<Metrics>)
    ensures var p := ToPoint(Slot(k, FoldBucket(ms)));
      && p.t == k
      && (forall d :: PointMean(p, d) == Mean(AvgOf(Readings(ms, d))))
      && p.memTotalGB == Largest(MemTotals(ms))
      && p.cpuTemp == LastPresent(CpuTemps(ms))
      && p.gpuTemp == LastPresent(GpuTemps(ms))
      && p.ping == PingPoints(FeedPings(map[], AllPings(ms)))
  {
    var p := ToPoint(Slot(k, FoldBucket(ms)));
    forall d ensures PointMean(p, d) == Mean(AvgOf(Readings(ms, d))) {
      PointMeanOfDim(Slot(k, FoldBucket(ms)), d);
      FoldDimension(ms, d);
    }
    FoldMemTotal(ms);
    FoldTemperatures(ms);
    FoldPings(ms);
  }

  /** A point's `ping` is absent when no entry had a truthy target; otherwise
      each target's means run over that target's entries alone. */
  lemma PingSummary(pings: seq<Value>)
    ensures var r := PingPoints(FeedPings(map[], pings));
      && (r.None? <==> forall j :: 0 <= j < |pings| ==> PingTarget(pings[j]).None?)
      && (r.Some? ==> forall t :: t in r.value <==> exists j :: 0 <= j < |pings| && PingTarget(pings[j]) == Some(t))
      && (r.Some? ==> forall t :: t in r.value ==>
            r.value[t] == PingPoint(Mean(AvgOf(AvgMsFor(pings, t))), Mean(AvgOf(LossPctFor(pings, t)))))
  {
    var agg := FeedPings(map[], pings);
    forall t ensures t in agg <==> exists j :: 0 <= j < |pings| && PingTarget(pings[j]) == Some(t) {
      PingTargets(pings, t);
    }
    forall t | t in agg
      ensures agg[t] == PingAgg(AvgOf(AvgMsFor(pings, t)), AvgOf(LossPctFor(pings, t)))
    {
      PingTargets(pings, t);
    }
  }

  // ---------------------------------------------------------------------
  // The per-target map as the route writes it: a plain object
  // ---------------------------------------------------------------------

  /** The property names a plain object inherits from `Object.prototype`. */
  const InheritedNames: set<string> := {
    "__proto__", "constructor", "hasOwnProperty", "isPrototypeOf",
    "propertyIsEnumerable", "toLocaleString", "toString", "valueOf",
    "__defineGetter__", "__defineSetter__", "__lookupGetter__", "__lookupSetter__"}

  /** One ping entry fed into the plain object `cur.ping`. An inherited name
      looks up the inherited value instead of a fresh aggregate, so the
      sums and counts turn NaN and both means come out undefined. Writing
      back under `__proto__` replaces the prototype and adds no key. */
  function FeedPingAsWritten(agg: map<string, PingAgg>, p: Value): (r: map<string, PingAgg>)
    ensures PingTarget(p).None? || PingTarget(p).value !in InheritedNames ==> r == FeedPing(agg, p)
    ensures PingTarget(p) == Some("__proto__") ==> r == agg
  {
    match PingTarget(p)
    case Some(k) =>
      if k == "__proto__" then agg
      else if k in InheritedNames then agg[k := NoPings]
      else FeedPing(agg, p)
    case None => agg
  }

  function FeedPingsAsWritten(agg: map<string, PingAgg>, ps: seq<Value>): map<string, PingAgg> {
    if |ps| == 0 then agg else FeedPingAsWritten(FeedPingsAsWritten(agg, ps[..|ps| - 1]), ps[|ps| - 1])
  }

  /** Away from the inherited names the plain object and the map agree. */
  lemma {:induction false} AsWrittenAgreesOffPrototype(agg: map<string, PingAgg>, ps: seq<Value>)
    requires forall i :: 0 <= i < |ps| && PingTarget(ps[i]).Some? ==> PingTarget(ps[i]).value !in InheritedNames
    ensures FeedPingsAsWritten(agg, ps) == FeedPings(agg, ps)
  {
    if |ps| > 0 {
      var init := ps[..|ps| - 1];
      assert forall i :: 0 <= i < |init| ==> init[i] == ps[i];
      AsWrittenAgreesOffPrototype(agg, init);
    }
  }

  /** A ping at `__proto__` gives no `ping` property at all, where the map
      keeps its mean. */
  lemma ProtoTargetIsDropped()
    ensures var p := JObj(map["target" := JStr("__proto__"), "avgMs" := JNum(5.0)]);
      && PingPoints(FeedPingsAsWritten(map[], [p])).None?
      && PingPoints(FeedPings(map[], [p])) == Some(map["__proto__" := PingPoint(Some(5.0), None)])
  {
    var p := JObj(map["target" := JStr("__proto__"), "avgMs" := JNum(5.0)]);
    OneTarget(p, "__proto__");
    assert FeedPingAsWritten(map[], p) == map[];
    SinglePoint("__proto__", PingAgg(Avg(5.0, 1), NoData));
  }

  /** A ping at `constructor` keeps its key but loses its mean, where the map
      keeps both. */
  lemma ConstructorTargetLosesMean()
    ensures var q := JObj(map["target" := JStr("constructor"), "avgMs" := JNum(5.0)]);
      && PingPoints(FeedPingsAsWritten(map[], [q])) == Some(map["constructor" := PingPoint(None, None)])
      && PingPoints(FeedPings(map[], [q])) == Some(map["constructor" := PingPoint(Some(5.0), None)])
  {
    var q := JObj(map["target" := JStr("constructor"), "avgMs" := JNum(5.0)]);
    OneTarget(q, "constructor");
    assert "constructor" in InheritedNames && "constructor" != "__proto__";
    var f := map["constructor" := NoPings];
    assert FeedPingsAsWritten(map[], [q]) == f;
    SinglePoint("constructor", NoPings);
    SinglePoint("constructor", PingAgg(Avg(5.0, 1), NoData));
  }

  /** The point of a one-target table. */
  lemma SinglePoint(k: string, a: PingAgg)
    ensures PingPoints(map[k := a]) == Some(map[k := PingPoint(Mean(a.avg), Mean(a.loss))])
    ensures Mean(Avg(5.0, 1)) == Some(5.0) && Mean(NoData).None?
  {
    var t := map[k := a];
    var r := PingPoints(t);
    var m := map[k := PingPoint(Mean(a.avg), Mean(a.loss))];
    assert |t| == 1;
    assert r.value.Keys == m.Keys;
    assert r.value[k] == m[k];
    assert r.value == m;
    assert 5.0 / (1 as real) == 5.0;
  }

  /** A single ping with string target `k` and `avgMs` 5, fed into an empty
      map both ways. */
  lemma OneTarget(p: Value, k: string)
    requires k != "" && p == JObj(map["target" := JStr(k), "avgMs" := JNum(5.0)])
    ensures PingTarget(p) == Some(k) && PingAvgMs(p) == Some(5.0) && PingLossPct(p).None?
    ensures FeedPings(map[], [p]) == map[k := PingAgg(Avg(5.0, 1), NoData)]
    ensures FeedPingsAsWritten(map[], [p]) == FeedPingAsWritten(map[], p)
  {
    PingTargetKeys(p, k, 0);
    assert [p][..0] == [];
    assert FeedPings(map[], [p]) == FeedPing(map[], p);
    assert AggAt(map[], k) == NoPings;
  }

  /** Every emitted point is the fold of a non-empty bucket of the records
      read, keyed by a bucket start. */
  lemma PointIsBucket(rs: seq<Record>, b: int, i: nat)
    requires b > 0 && i < |Aggregate(rs, b)|
    ensures var p := Points(Aggregate(rs, b))[i];
      var ms := Members(rs, b, p.t);
      && |ms| > 0
      && p == ToPoint(Slot(p.t, FoldBucket(ms)))
      && (forall m :: m in ms ==> RecordedIn(rs, b, p.t, m))
  {
    var t := Aggregate(rs, b);
    var k := t[i].key;
    GetAt(t, i);
    AggregateGet(rs, b, k);
    forall m | m in Members(rs, b, k) ensures RecordedIn(rs, b, k, m) {
      MembersAreInBucket(rs, b, k, m);
    }
  }

  /** Every record with a finite time is counted in exactly the point whose
      bucket contains that time. */
  lemma RecordLandsInItsBucket(rs: seq<Record>, b: int, j: nat)
    requires b > 0 && j < |rs| && rs[j].ts.Some?
    ensures var ps := Points(Aggregate(rs, b));
      exists i :: 0 <= i < |ps| && ps[i].t <= rs[j].ts.value < ps[i].t + b
        && rs[j].sample.metrics in Members(rs, b, ps[i].t)
  {
    var k := BucketKey(rs[j].ts.value, b);
    MembersOf(rs, b, j);
    AggregateGet(rs, b, k);
    var i := PointAt(Aggregate(rs, b), k);
  }

  /** A key the table holds is the time of one of its points. */
  lemma PointAt(t: seq<Slot>, k: int) returns (i: nat)
    requires Ascending(t) && Get(t, k).Some?
    ensures i < |Points(t)| && Points(t)[i].t == k
  {
    i :| 0 <= i < |t| && t[i] == Slot(k, Get(t, k).value);
    assert Points(t)[i] == ToPoint(t[i]);
  }

  // ---------------------------------------------------------------------
  // The route
  // ---------------------------------------------------------------------

  datatype HistoryResponse =
    | MissingDevice
    | Failed
    | History(minutes: int, bucketMs: int, points: seq<Point>)

  /** Some timed record carries a ping entry whose target `String` rejects,
      so the accumulation loop throws before any point is built. */
  predicate PingsThrow(rs: seq<Record>) {
    exists j, i :: 0 <= j < |rs| && rs[j].ts.Some? && 0 <= i < |Pings(rs[j].sample.metrics)|
      && PingThrows(Pings(rs[j].sample.metrics)[i])
  }

  /** `GET /api/metrics/history?deviceId=..&minutes=..` at time `now` over
      the log directory `dir`. An unprintable ping target escapes the
      handler as an unhandled error, answered 500 (`Failed`). */
  function GetHistory(deviceId: Option<string>, minutes: Option<string>, now: int, dir: MetricsDir)
    : (r: HistoryResponse)
    ensures r.MissingDevice? <==> !Given(deviceId)
    ensures r.Failed? <==> Given(deviceId) && PingsThrow(HistoryRecords(deviceId.value, WindowMinutes(minutes), now, dir))
    ensures r.History? ==> (
      && r.minutes == WindowMinutes(minutes)
      && r.bucketMs == BucketMs(r.minutes)
      && r.points == Points(Aggregate(HistoryRecords(deviceId.value, r.minutes, now, dir), r.bucketMs)))
    ensures r.History? ==> forall i, j :: 0 <= i < j < |r.points| ==> r.points[i].t < r.points[j].t
  {
    if !Given(deviceId) then MissingDevice
    else
      var m := WindowMinutes(minutes);
      var b := BucketMs(m);
      var rs := HistoryRecords(deviceId.value, m, now, dir);
      if PingsThrow(rs) then Failed else History(m, b, Points(Aggregate(rs, b)))
  }

  /** The records the route buckets: the device's log read back to
      `now - minutes` minutes, at most 5000 of them. */
  function HistoryRecords(deviceId: string, minutes: int, now: int, dir: MetricsDir): (rs: seq<Record>)
    ensures forall x :: x in rs ==> x.ts.Some? && x.ts.value >= now - minutes * 60_000
    ensures |rs| <= MaxHistorySamples
  {
    ReadRecentDeviceSamples(dir, deviceId, now - minutes * 60 * 1000, MaxHistorySamples)
  }
}
