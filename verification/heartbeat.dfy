/** `POST /api/agent/heartbeat` (`app/api/agent/heartbeat/route.ts`): resolve
    the agent's credentials, authenticate or auto-provision the device, turn
    the payload into a sample, add it to the store, append it to the device's
    log (best effort) and mark the device present.

    The body is the parsed JSON (`None` when it does not parse). The string
    fields `deviceId`, `agentToken`, `hostname` and `agentVersion` are read as
    strings: a value of another JSON type there counts as absent. The clock
    (`Date.now`, `toISOString`), the timestamp parser (`new Date(..)
    .getTime()`) and the outcome of the file append are parameters. */
module Heartbeat {
  import opened Wrappers
  import opened Json
  import opened Text
  import opened Samples
  import opened Registry
  import opened PubSub
  import opened Store
  import opened SampleBuffer
  import opened Persist

  datatype Request = Request(body: Option<Value>, deviceIdHeader: Option<string>, tokenHeader: Option<string>)

  /** The status code, the store and log afterwards, and the deliveries made
      to metric listeners. */
  datatype Outcome = Outcome(status: int, state: State, dir: MetricsDir, deliveries: seq<Delivery>)

  /** A string field of the body; any non-string value counts as absent. */
  function StringField(body: Value, k: string): (r: Option<string>)
    ensures r.Some? <==> Field(Some(body), k).Some? && Field(Some(body), k).value.JStr?
  {
    AsString(Field(Some(body), k))
  }

  /** `body?.deviceId ?? header ?? ""`, then `|| "unknown"`. */
  function DeviceId(body: Value, header: Option<string>): (id: string)
    ensures id != ""
    ensures StringField(body, "deviceId").Some? && StringField(body, "deviceId").value != "" ==>
      id == StringField(body, "deviceId").value
    ensures StringField(body, "deviceId").None? && Given(header) ==> id == header.value
    ensures (StringField(body, "deviceId") == Some("")
      || (StringField(body, "deviceId").None? && !Given(header))) ==> id == "unknown"
  {
    var raw := match StringField(body, "deviceId")
      case Some(s) => s
      case None => header.GetOr("");
    if raw == "" then "unknown" else raw
  }

  /** `header ?? body?.agentToken ?? ""`: a header that is present wins even
      when it is empty. */
  function Token(body: Value, header: Option<string>): (t: string)
    ensures header.Some? ==> t == header.value
    ensures header.None? ==> t == StringField(body, "agentToken").GetOr("")
  {
    match header
    case Some(h) => h
    case None => StringField(body, "agentToken").GetOr("")
  }

  /** `body?.metrics ?? body`, kept when it is a truthy object (an array
      included) and replaced by `{}` otherwise. */
  function MetricsSource(body: Value): (m: Value)
    ensures m.JObj? || m.JArr?
  {
    var c := Coalesce(Field(Some(body), "metrics"), Some(body)).value;
    if Truthy(c) && IsObjectLike(c) then c else JObj(map[])
  }

  /** The `metrics` object of the stored sample: each known field copied
      from the source object, with three fallbacks to `null`. */
  function NormalizeMetrics(src: Value): Metrics {
    var v := Some(src);
    Metrics(
      cpuPercent := Field(v, "cpuPercent"),
      memUsedGB := Field(v, "memUsedGB"),
      memTotalGB := Field(v, "memTotalGB"),
      diskUsedGB := Field(v, "diskUsedGB"),
      diskFreeGB := Field(v, "diskFreeGB"),
      diskTotalGB := Field(v, "diskTotalGB"),
      diskLabel := Coalesce(Field(v, "diskLabel"), Some(JNull)),
      disks := Field(v, "disks"),
      processCount := Field(v, "processCount"),
      uptimeSec := Field(v, "uptimeSec"),
      cpuTempC := Field(v, "cpuTempC"),
      gpuTempC := Field(v, "gpuTempC"),
      gpuMemoryTempC := Field(v, "gpuMemoryTempC"),
      boardTempC := Field(v, "boardTempC"),
      cpuTempMaxC := Field(v, "cpuTempMaxC"),
      gpuHotspotTempC := Field(v, "gpuHotspotTempC"),
      temps := Field(v, "temps"),
      tempSource := Coalesce(Coalesce(Field(v, "tempSource"), Field(v, "tempProvider")), Some(JNull)),
      tempReason := Coalesce(Coalesce(Field(v, "tempReason"), Field(v, "tempStatus")), Some(JNull)),
      net := Field(v, "net"))
  }

  /** Nothing is invented: a field the source lacks stays absent, except
      `diskLabel`, `tempSource` and `tempReason`, which are always present:
      the source's own value, then the older field name, then `null`. */
  lemma AbsentStaysAbsent(src: Value)
    ensures var m := NormalizeMetrics(src);
      var v := Some(src);
      && (Field(v, "cpuPercent").None? ==> m.cpuPercent.None?)
      && (Field(v, "memUsedGB").None? ==> m.memUsedGB.None?)
      && (Field(v, "memTotalGB").None? ==> m.memTotalGB.None?)
      && (Field(v, "diskTotalGB").None? ==> m.diskTotalGB.None?)
      && (Field(v, "cpuTempC").None? ==> m.cpuTempC.None?)
      && (Field(v, "gpuTempC").None? ==> m.gpuTempC.None?)
      && (Field(v, "net").None? ==> m.net.None?)
      && m.diskLabel.Some? && m.tempSource.Some? && m.tempReason.Some?
      && (Field(v, "diskLabel").None? ==> m.diskLabel == Some(JNull))
      && (Field(v, "tempSource").None? && Field(v, "tempProvider").Some? ==> m.tempSource == Field(v, "tempProvider"))
      && (Field(v, "tempSource").None? && Field(v, "tempProvider").None? ==> m.tempSource == Some(JNull))
      && (Field(v, "tempReason").None? && Field(v, "tempStatus").Some? ==> m.tempReason == Field(v, "tempStatus"))
      && (Field(v, "tempReason").None? && Field(v, "tempStatus").None? ==> m.tempReason == Some(JNull))
  {
  }

  /** `metrics?.timestamp || body?.timestamp || now`: the first truthy
      candidate, kept as it came (it is not parsed or validated here). */
  function Timestamp(src: Value, body: Value, nowIso: string): (t: Value)
    ensures TruthyOpt(Field(Some(src), "timestamp")) ==> t == Field(Some(src), "timestamp").value
    ensures !TruthyOpt(Field(Some(src), "timestamp")) && TruthyOpt(Field(Some(body), "timestamp")) ==>
      t == Field(Some(body), "timestamp").value
    ensures !TruthyOpt(Field(Some(src), "timestamp")) && !TruthyOpt(Field(Some(body), "timestamp")) ==>
      t == JStr(nowIso)
  {
    Or(Field(Some(src), "timestamp"), Or(Field(Some(body), "timestamp"), Some(JStr(nowIso)))).value
  }

  /** The sample the route builds for device `id`. */
  function BuildSample(body: Value, id: string, nowIso: string): (s: Sample)
    ensures s.deviceId == id
    ensures s.agentVersion == StringField(body, "agentVersion").GetOr("unknown")
    ensures s.hostname == StringField(body, "hostname").GetOr("unknown")
    ensures s.metrics == NormalizeMetrics(MetricsSource(body))
  {
    var src := MetricsSource(body);
    Sample(
      timestamp := Timestamp(src, body, nowIso),
      deviceId := id,
      agentVersion := StringField(body, "agentVersion").GetOr("unknown"),
      hostname := StringField(body, "hostname").GetOr("unknown"),
      metrics := NormalizeMetrics(src))
  }

  /** Authentication: refused (`None`) without a token or when a registered
      device's token does not verify; an unregistered device is provisioned
      through `ensureDevice` with the body's hostname. */
  function Admit(ds: seq<Device>, id: string, token: string, hostname: Option<string>): (r: Option<seq<Device>>)
    ensures token == "" ==> r.None?
    ensures r.Some? ==> HasId(r.value, id)
    ensures HasId(ds, id) ==> (r.Some? <==> VerifyDeviceToken(ds, id, token))
    ensures HasId(ds, id) && r.Some? ==> r.value == ds
    ensures !HasId(ds, id) && token != "" ==> r == Some(EnsureDevice(ds, id, token, hostname).0)
  {
    if token == "" then None
    else if GetDevice(ds, id).Some? then
      if VerifyDeviceToken(ds, id, token) then Some(ds) else None
    else
      var (ds', _) := EnsureDevice(ds, id, token, hostname);
      Some(ds')
  }

  /** The accepted path: add the sample to the store (which delivers it and
      marks the device present under the sample's hostname), append it to
      the log when that succeeds, and mark the device present again under
      the body's own hostname. */
  function Accept(st: State, dir: MetricsDir, id: string, hostname: Option<string>, sample: Sample,
                  now: int, ts: Option<int>, persisted: bool): (o: Outcome)
    requires HasId(st.devices, id) && sample.deviceId == id
    ensures o.status == 200
    ensures GetDevice(o.state.devices, id).Some? && GetDevice(o.state.devices, id).value.lastSeenAt == Some(now)
    ensures o.state.samples == AddMetricSample(st, sample, now).0.samples
    ensures |o.state.samples| > 0 && o.state.samples[|o.state.samples| - 1] == sample
    ensures o.state.listeners == st.listeners
    ensures o.deliveries == Publish(st.listeners, sample)
    ensures o.dir == if persisted then AppendMetricSample(dir, Record(ts, sample)) else dir
  {
    var (st2, deliveries) := AddMetricSample(st, sample, now);
    var dir2 := if persisted then AppendMetricSample(dir, Record(ts, sample)) else dir;
    assert HasId(st2.devices, id);
    TouchMarksSeen(st2.devices, id, hostname, now);
    var final := st2.(devices := TouchDevicePresence(st2.devices, id, hostname, now));
    Outcome(200, final, dir2, deliveries)
  }

  /** The summary line logged after the sample is stored interpolates the
      body's `hostname` and the metrics source's `cpuPercent`, `memUsedGB`,
      `memTotalGB` and `timestamp`; the template converts each present value
      to a string, so it throws when one of them does not print. */
  predicate LogLinePrints(body: Value) {
    var src := Some(MetricsSource(body));
    && PrintableOpt(Field(Some(body), "hostname"))
    && PrintableOpt(Field(src, "cpuPercent"))
    && PrintableOpt(Field(src, "memUsedGB"))
    && PrintableOpt(Field(src, "memTotalGB"))
    && PrintableOpt(Field(src, "timestamp"))
  }

  /** Ordinary readings print. */
  lemma PlainLogLinePrints(h: string, n: real)
    ensures LogLinePrints(JObj(map["hostname" := JStr(h), "cpuPercent" := JNum(n), "timestamp" := JNull]))
  {
    var body := JObj(map["hostname" := JStr(h), "cpuPercent" := JNum(n), "timestamp" := JNull]);
    assert MetricsSource(body) == body;
  }

  /** A reading that is an object with its own `toString` key does not
      print when it arrives wrapped in `metrics`... */
  lemma WrappedReadingThrows()
    ensures !LogLinePrints(JObj(map["metrics" := JObj(map["cpuPercent" := JObj(map["toString" := JNum(1.0)])])]))
  {
    var inner := JObj(map["cpuPercent" := JObj(map["toString" := JNum(1.0)])]);
    assert MetricsSource(JObj(map["metrics" := inner])) == inner;
  }

  /** ...nor when it is sent flat, and neither does such a hostname. */
  lemma FlatFieldThrows(h: string, n: real)
    ensures !LogLinePrints(JObj(map["memTotalGB" := JObj(map["toString" := JStr(h)])]))
    ensures !LogLinePrints(JObj(map["hostname" := JObj(map["toString" := JNum(n)])]))
  {
    var flat := JObj(map["memTotalGB" := JObj(map["toString" := JStr(h)])]);
    assert MetricsSource(flat) == flat;
  }

  /** The heartbeat at instant `now` (`nowIso` its ISO text). `parseTime` is
      `new Date(..).getTime()` as the log reader will see it, and `persisted`
      says whether `appendMetricSample` succeeded. A summary line that fails
      to print is caught by the route's outer handler and answered 400, but
      only after the sample was stored, logged and delivered. */
  function HandleHeartbeat(st: State, dir: MetricsDir, req: Request, now: int, nowIso: string,
                           parseTime: Value -> Option<int>, persisted: bool): (o: Outcome)
    ensures req.body.None? ==> o == Outcome(400, st, dir, [])
    ensures req.body.Some? ==> o.status in {200, 400, 401}
    ensures o.status == 401 ==> o.state == st && o.dir == dir && o.deliveries == []
    ensures req.body.Some? && Token(req.body.value, req.tokenHeader) == "" ==> o.status == 401
    ensures req.body.Some? && o.status != 401 ==> (o.status == 200 <==> LogLinePrints(req.body.value))
    ensures req.body.Some? && o.status != 401 ==>
      var id := DeviceId(req.body.value, req.deviceIdHeader);
      && GetDevice(o.state.devices, id).Some?
      && GetDevice(o.state.devices, id).value.lastSeenAt == Some(now)
      && |o.state.samples| > 0
      && o.state.samples[|o.state.samples| - 1] == BuildSample(req.body.value, id, nowIso)
      && o.state.samples == Push(st.samples, BuildSample(req.body.value, id, nowIso))
      && (var sample := BuildSample(req.body.value, id, nowIso);
          o.dir == if persisted then AppendMetricSample(dir, Record(parseTime(sample.timestamp), sample)) else dir)
      && o.state.listeners == st.listeners
      && o.deliveries == Publish(st.listeners, BuildSample(req.body.value, id, nowIso))
  {
    match req.body
    case None => Outcome(400, st, dir, [])
    case Some(body) =>
      var id := DeviceId(body, req.deviceIdHeader);
      var hostname := StringField(body, "hostname");
      match Admit(st.devices, id, Token(body, req.tokenHeader), hostname)
      case None => Outcome(401, st, dir, [])
      case Some(devices) =>
        var sample := BuildSample(body, id, nowIso);
        var o := Accept(st.(devices := devices), dir, id, hostname, sample, now, parseTime(sample.timestamp), persisted);
        if LogLinePrints(body) then o else o.(status := 400)
  }

  /** The id the route uses is never empty, so its empty-id check cannot
      fire: a request without any id is filed under `"unknown"`. */
  lemma IdIsNeverEmpty(body: Value, header: Option<string>)
    ensures DeviceId(body, header) != ""
    ensures StringField(body, "deviceId").None? && header.None? ==> DeviceId(body, header) == "unknown"
  {
  }

  /** Credentials are resolved asymmetrically: the body's id beats the
      header's, but the header's token beats the body's. */
  lemma CredentialPrecedence(body: Value, idHeader: string, tokenHeader: string)
    requires StringField(body, "deviceId").Some? && StringField(body, "deviceId").value != ""
    ensures DeviceId(body, Some(idHeader)) == StringField(body, "deviceId").value
    ensures Token(body, Some(tokenHeader)) == tokenHeader
  {
  }

  /** A registered device that presents a wrong token is refused, and the
      store, the log and the listeners are untouched. */
  lemma WrongTokenIsRefused(st: State, dir: MetricsDir, req: Request, now: int, nowIso: string,
                            parseTime: Value -> Option<int>, persisted: bool)
    requires req.body.Some?
    requires HasId(st.devices, DeviceId(req.body.value, req.deviceIdHeader))
    requires !VerifyDeviceToken(st.devices, DeviceId(req.body.value, req.deviceIdHeader), Token(req.body.value, req.tokenHeader))
    ensures HandleHeartbeat(st, dir, req, now, nowIso, parseTime, persisted) == Outcome(401, st, dir, [])
  {
  }

  /** An unregistered device that sends any token is provisioned, accepted
      (answered 200 unless the summary line fails to print), and from then
      on accepts exactly that token. */
  lemma UnknownDeviceIsProvisioned(st: State, dir: MetricsDir, req: Request, now: int, nowIso: string,
                                   parseTime: Value -> Option<int>, persisted: bool, t: string)
    requires req.body.Some?
    requires Token(req.body.value, req.tokenHeader) != ""
    requires !HasId(st.devices, DeviceId(req.body.value, req.deviceIdHeader))
    ensures var o := HandleHeartbeat(st, dir, req, now, nowIso, parseTime, persisted);
      var id := DeviceId(req.body.value, req.deviceIdHeader);
      && o.status == (if LogLinePrints(req.body.value) then 200 else 400)
      && (VerifyDeviceToken(o.state.devices, id, t) <==> t == Token(req.body.value, req.tokenHeader))
  {
    var body := req.body.value;
    var id := DeviceId(body, req.deviceIdHeader);
    var token := Token(body, req.tokenHeader);
    var hostname := StringField(body, "hostname");
    var devices := EnsureDevice(st.devices, id, token, hostname).0;
    ProvisionedTokenVerifies(st.devices, id, token, hostname, t);
    var sample := BuildSample(body, id, nowIso);
    var st2 := AddMetricSample(st.(devices := devices), sample, now).0;
    TouchKeepsDigest(devices, id, Some(sample.hostname), now, id);
    TouchKeepsDigest(st2.devices, id, hostname, now, id);
  }

  /** Presence updates never change which token a device accepts. */
  lemma TouchKeepsDigest(ds: seq<Device>, id: string, hostname: Option<string>, now: int, other: string)
    ensures var ds' := TouchDevicePresence(ds, id, hostname, now);
      forall t :: VerifyDeviceToken(ds', other, t) == VerifyDeviceToken(ds, other, t)
  {
    var ds' := TouchDevicePresence(ds, id, hostname, now);
    forall j | 0 <= j < |ds| ensures ds'[j].id == ds[j].id && ds'[j].tokenHash == ds[j].tokenHash {
    }
    SameIdsSameLookup(ds, ds', other);
  }

  /** The device a presence update finds is the one it marks as seen. */
  lemma TouchMarksSeen(ds: seq<Device>, id: string, hostname: Option<string>, now: int)
    requires HasId(ds, id)
    ensures var ds' := TouchDevicePresence(ds, id, hostname, now);
      GetDevice(ds', id).Some? && GetDevice(ds', id).value.lastSeenAt == Some(now)
  {
    var ds' := TouchDevicePresence(ds, id, hostname, now);
    var i := FindById(ds, id).value;
    forall j | 0 <= j < |ds| ensures ds'[j].id == ds[j].id && ds'[j].tokenHash == ds[j].tokenHash {
    }
    SameIdsSameLookup(ds, ds', id);
    assert FindById(ds', id) == Some(i);
    assert GetDevice(ds', id) == Some(ds'[i]);
  }

  lemma SameIdsSameLookup(ds: seq<Device>, ds': seq<Device>, id: string)
    requires |ds| == |ds'|
    requires forall j :: 0 <= j < |ds| ==> ds'[j].id == ds[j].id && ds'[j].tokenHash == ds[j].tokenHash
    ensures FindById(ds', id) == FindById(ds, id)
    ensures GetDevice(ds', id).Some? ==> GetDevice(ds', id).value.tokenHash == GetDevice(ds, id).value.tokenHash
  {
    if |ds| > 0 {
      SameIdsSameLookup(ds[1..], ds'[1..], id);
    }
  }

  /** The agent may wrap its metrics as `{metrics: {...}}` or send them flat:
      the stored metrics are the same either way, whatever else the wrapper
      carries. */
  lemma WrappedEqualsFlat(fields: map<string, Value>, outer: map<string, Value>)
    requires "metrics" !in fields
    ensures NormalizeMetrics(MetricsSource(JObj(outer["metrics" := JObj(fields)])))
         == NormalizeMetrics(MetricsSource(JObj(fields)))
  {
  }

  /** A candidate that is not an object (a number, a string, `null`, `false`)
      yields empty metrics: every field absent, except the three that fall
      back to `null`. */
  lemma NonObjectGivesEmptyMetrics(body: Value)
    requires !IsObjectLike(Coalesce(Field(Some(body), "metrics"), Some(body)).value)
    ensures var m := NormalizeMetrics(MetricsSource(body));
      && m.cpuPercent.None? && m.memUsedGB.None? && m.memTotalGB.None? && m.net.None?
      && m.diskLabel == Some(JNull) && m.tempSource == Some(JNull) && m.tempReason == Some(JNull)
  {
    var src := MetricsSource(body);
    assert src == JObj(map[]);
    assert forall k :: Field(Some(src), k).None?;
  }

  /** Persistence is best effort: whether the append succeeds changes
      neither the response nor the in-memory store. */
  lemma PersistenceIsBestEffort(st: State, dir: MetricsDir, req: Request, now: int, nowIso: string,
                                parseTime: Value -> Option<int>)
    ensures var ok := HandleHeartbeat(st, dir, req, now, nowIso, parseTime, true);
      var failed := HandleHeartbeat(st, dir, req, now, nowIso, parseTime, false);
      && ok.status == failed.status && ok.state == failed.state && ok.deliveries == failed.deliveries
      && failed.dir == dir
  {
  }
}
