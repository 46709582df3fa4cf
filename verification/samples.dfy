/** The telemetry record as the store, the log and the history route see it
    (the `MetricSample` type of `lib/store.ts`). Every metric field is optional
    and holds the JSON value the agent sent: absence is `None`, never zero. */
module Samples {
  import opened Wrappers
  import opened Json

  datatype Metrics = Metrics(
    cpuPercent: Option<Value>,
    memUsedGB: Option<Value>,
    memTotalGB: Option<Value>,
    diskUsedGB: Option<Value>,
    diskFreeGB: Option<Value>,
    diskTotalGB: Option<Value>,
    diskLabel: Option<Value>,
    disks: Option<Value>,
    processCount: Option<Value>,
    uptimeSec: Option<Value>,
    cpuTempC: Option<Value>,
    gpuTempC: Option<Value>,
    gpuMemoryTempC: Option<Value>,
    boardTempC: Option<Value>,
    cpuTempMaxC: Option<Value>,
    gpuHotspotTempC: Option<Value>,
    temps: Option<Value>,
    tempSource: Option<Value>,
    tempReason: Option<Value>,
    net: Option<Value>)

  /** One heartbeat. `timestamp` is whatever value the heartbeat chose (see
      the heartbeat route); its parsed instant travels beside it in `Record`. */
  datatype Sample = Sample(
    timestamp: Value,
    deviceId: string,
    agentVersion: string,
    hostname: string,
    metrics: Metrics)

  /** A sample together with `new Date(sample.timestamp).getTime()`, which is
      `None` when the timestamp is missing or does not parse to a finite time. */
  datatype Record = Record(ts: Option<int>, sample: Sample)

  /** One line of a per-device log: a JSON object, or text `JSON.parse` rejects. */
  datatype Line = Malformed | Parsed(rec: Record)

  /** The time a line is filed under, when it has one. */
  function LineTime(l: Line): Option<int> {
    match l
    case Malformed => None
    case Parsed(r) => r.ts
  }
}
