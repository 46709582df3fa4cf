/** `GET /api/metrics` (`app/api/metrics/route.ts`): recent samples, from the
    in-memory buffer when it has something to offer and from the logs of the
    last hour otherwise. */
module MetricsRoute {
  import opened Wrappers
  import opened Text
  import opened Params
  import opened Samples
  import opened SampleBuffer
  import opened Persist

  const MinLimit: int := 1
  const MaxLimit: int := 2000
  const DefaultLimit: int := 300

  /** How far back the log fallback reads. */
  const HourMs: int := 60 * 60 * 1000

  /** `parseInt(limit || "300")`, clamped to 1 .. 2000, 300 when it is not a
      number. */
  function Limit(raw: Option<string>): (n: int)
    ensures MinLimit <= n <= MaxLimit
  {
    IntParam(raw, "300", DefaultLimit, MinLimit, MaxLimit)
  }

  /** A limit that parses is clamped into range; one that does not is 300. */
  lemma LimitParses(raw: Option<string>)
    ensures !Given(raw) ==> Limit(raw) == DefaultLimit
    ensures ParseInt(ParamText(raw, "300")).None? ==> Limit(raw) == DefaultLimit
    ensures (ParseInt(ParamText(raw, "300")).Some? ==>
      Limit(raw) == Max(MinLimit, Min(ParseInt(ParamText(raw, "300")).value, MaxLimit)))
  {
    assert DecimalValue("300") == 300 by {
      assert "300"[..2] == "30";
      assert "30"[..1] == "3";
      assert "3"[..0] == "";
    }
    MissingParamReadsFallback(raw, "300", DefaultLimit, MinLimit, MaxLimit);
  }

  /** Whether the memory window answers the request: with a device id, some
      sample of the window must come from that device; without one, the
      window must not be empty. */
  predicate HaveMemory(window: seq<Sample>, deviceId: Option<string>) {
    if Given(deviceId) then exists i :: 0 <= i < |window| && window[i].deviceId == deviceId.value
    else |window| > 0
  }

  function SamplesOf(rs: seq<Record>): (r: seq<Sample>)
    ensures |r| == |rs|
    ensures forall i :: 0 <= i < |rs| ==> r[i] == rs[i].sample
  {
    seq(|rs|, i requires 0 <= i < |rs| => rs[i].sample)
  }

  /** The route at instant `now`, over the buffer `buf` and the logs `dir`. */
  function GetMetrics(buf: seq<Sample>, dir: MetricsDir, deviceId: Option<string>, limit: Option<string>, now: int)
    : (r: seq<Sample>)
    ensures var n := Limit(limit);
      var window := GetSamples(buf, Some(n));
      && (HaveMemory(window, deviceId) ==> r == window)
      && (!HaveMemory(window, deviceId) && Given(deviceId) ==>
            r == SamplesOf(ReadRecentDeviceSamples(dir, deviceId.value, now - HourMs, n)))
      && (!HaveMemory(window, deviceId) && !Given(deviceId) ==>
            r == SamplesOf(ReadRecentSamplesAllDevices(dir, now - HourMs, n)))
    ensures |r| <= MaxLimit
  {
    var n := Limit(limit);
    var window := GetSamples(buf, Some(n));
    if HaveMemory(window, deviceId) then
      assert |window| <= n;
      window
    else if Given(deviceId) then
      var rs := ReadRecentDeviceSamples(dir, deviceId.value, now - HourMs, n);
      assert |rs| <= n;
      SamplesOf(rs)
    else
      var rs := ReadRecentSamplesAllDevices(dir, now - HourMs, n);
      assert |rs| <= n;
      SamplesOf(rs)
  }

  /** The memory window is the newest `limit` samples of the buffer, and when
      it holds any sample of the requested device it is returned whole,
      other devices' samples included, without reading the logs. */
  lemma MemoryWindowIsUnfiltered(buf: seq<Sample>, dir: MetricsDir, id: string, limit: Option<string>, now: int, j: nat)
    requires id != ""
    requires var w := GetSamples(buf, Some(Limit(limit))); j < |w| && w[j].deviceId == id
    ensures GetMetrics(buf, dir, Some(id), limit, now) == GetSamples(buf, Some(Limit(limit)))
    ensures var n := Limit(limit);
      GetSamples(buf, Some(n)) == buf[|buf| - Min(n, |buf|)..]
  {
    assert HaveMemory(GetSamples(buf, Some(Limit(limit))), Some(id));
  }

  /** Without a device id and with an empty buffer the answer comes from the
      logs of every device, newest last, at most `limit` of them. */
  lemma EmptyBufferFallsBackToLogs(dir: MetricsDir, limit: Option<string>, now: int)
    ensures var r := GetMetrics([], dir, None, limit, now);
      && |r| <= Limit(limit)
      && r == SamplesOf(ReadRecentSamplesAllDevices(dir, now - HourMs, Limit(limit)))
  {
  }
}
