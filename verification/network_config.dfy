/** `POST /api/agent/config/network` (`app/api/agent/config/network/route.ts`):
    writes the network probe settings into the agent's configuration file,
    taking over only the body fields of the right type and clamping or
    trimming them, and keeping every other property of the file. */
module NetworkConfig {
  import opened Wrappers
  import opened Json
  import opened Text
  import opened Seqs
  import opened AgentConfig

  const MinInterval: real := 2.0
  const MaxInterval: real := 300.0
  const MaxTargets: nat := 12
  const MaxDnsHostLength: nat := 200

  /** The four properties the route may set. */
  const Keys: set<string> := {"networkProbeIntervalSeconds", "networkTargets", "networkDnsTestHost", "enablePublicIp"}

  /** `Math.max(2, Math.min(n, 300))`. */
  function ClampInterval(n: real): (r: real)
    ensures MinInterval <= r <= MaxInterval
    ensures MinInterval <= n <= MaxInterval ==> r == n
    ensures n < MinInterval ==> r == MinInterval
    ensures n > MaxInterval ==> r == MaxInterval
  {
    var m := if n <= MaxInterval then n else MaxInterval;
    if MinInterval >= m then MinInterval else m
  }

  /** One entry of `networkTargets` after `.map(trim)` and `.filter(Boolean)`:
      a non-string counts as `""` and goes, like a blank string. */
  function Target(v: Value): (r: Option<string>)
    ensures r.Some? ==> r.value != "" && v.JStr? && r.value == Trim(v.s)
    ensures v.JStr? && Trim(v.s) != "" ==> r == Some(Trim(v.s))
  {
    if v.JStr? && Trim(v.s) != "" then Some(Trim(v.s)) else None
  }

  /** `.map(...).filter(Boolean).slice(0, 12)`. */
  function Targets(items: seq<Value>): (r: seq<string>)
    ensures |r| <= MaxTargets
  {
    var kept := Kept(items, Target);
    kept[..Min(MaxTargets, |kept|)]
  }

  function Strings(ss: seq<string>): (r: seq<Value>)
    ensures |r| == |ss|
    ensures forall i :: 0 <= i < |ss| ==> r[i] == JStr(ss[i])
  {
    seq(|ss|, i requires 0 <= i < |ss| => JStr(ss[i]))
  }

  /** The value each property receives, or `None` when the body does not
      carry one of the right type. */
  function IntervalOf(body: Value): Option<Value> {
    match AsNumber(Field(Some(body), "networkProbeIntervalSeconds"))
    case Some(n) => Some(JNum(ClampInterval(n)))
    case None => None
  }

  function TargetsOf(body: Value): Option<Value> {
    match Field(Some(body), "networkTargets")
    case Some(JArr(items)) => Some(JArr(Strings(Targets(items))))
    case _ => None
  }

  function DnsHostOf(body: Value): Option<Value> {
    match AsString(Field(Some(body), "networkDnsTestHost"))
    case Some(s) => Some(JStr(Take(Trim(s), MaxDnsHostLength)))
    case None => None
  }

  function PublicIpOf(body: Value): Option<Value> {
    match AsBool(Field(Some(body), "enablePublicIp"))
    case Some(b) => Some(JBool(b))
    case None => None
  }

  /** The four assignments in the order of the source; `None` when one
      throws. */
  function Update(config: Value, body: Value): (r: Option<Value>)
  {
    var c1 := AssignIf(Some(config), "networkProbeIntervalSeconds", IntervalOf(body));
    var c2 := AssignIf(c1, "networkTargets", TargetsOf(body));
    var c3 := AssignIf(c2, "networkDnsTestHost", DnsHostOf(body));
    AssignIf(c3, "enablePublicIp", PublicIpOf(body))
  }

  /** The route. `body` is the parsed request (`None` when it is not JSON). */
  function PostNetworkConfig(enabled: bool, body: Option<Value>, stored: Stored): (r: Outcome)
    ensures !enabled ==> r == Outcome(403, None)
    ensures enabled && (body.None? || body.value == JNull) ==> r == Outcome(500, None)
    ensures r.status in {200, 403, 500}
    ensures r.status == 200 <==> r.written.Some?
    ensures r.status == 200 ==> r.written == Update(Load(stored), body.value)
  {
    if !enabled then Outcome(403, None)
    else if body.None? || body.value == JNull then Outcome(500, None)
    else
      match Update(Load(stored), body.value)
      case Some(c) => Outcome(200, Some(c))
      case None => Outcome(500, None)
  }

  /** `m` with `k` set to `v` when there is one. */
  function Put(m: map<string, Value>, k: string, v: Option<Value>): (r: map<string, Value>)
    ensures r.Keys == if v.Some? then m.Keys + {k} else m.Keys
    ensures forall o :: o != k && o in m ==> r[o] == m[o]
    ensures k in r ==> r[k] == if v.Some? then v.value else m[k]
  {
    if v.Some? then m[k := v.value] else m
  }

  /** The first of two optional values that is present. */
  function FirstPresent(a: Option<Value>, b: Option<Value>): (r: Option<Value>)
    ensures a.Some? ==> r == a
    ensures a.None? ==> r == b
  {
    if a.Some? then a else b
  }

  lemma AssignIfObject(fields: map<string, Value>, k: string, v: Option<Value>)
    ensures AssignIf(Some(JObj(fields)), k, v) == Some(JObj(Put(fields, k, v)))
  {
  }

  /** What the route writes over an object: each of the four properties is
      set from the body exactly when the body carries it with the right
      type, clamped or cleaned, and every other property of the file stays
      as it was. */
  lemma UpdateOfObject(fields: map<string, Value>, body: Value)
    ensures var r := Update(JObj(fields), body);
      && r.Some? && r.value.JObj?
      && (forall k :: k !in Keys ==> Field(r, k) == Field(Some(JObj(fields)), k))
      && Field(r, "networkProbeIntervalSeconds") == FirstPresent(IntervalOf(body), Field(Some(JObj(fields)), "networkProbeIntervalSeconds"))
      && Field(r, "networkTargets") == FirstPresent(TargetsOf(body), Field(Some(JObj(fields)), "networkTargets"))
      && Field(r, "networkDnsTestHost") == FirstPresent(DnsHostOf(body), Field(Some(JObj(fields)), "networkDnsTestHost"))
      && Field(r, "enablePublicIp") == FirstPresent(PublicIpOf(body), Field(Some(JObj(fields)), "enablePublicIp"))
  {
    UpdateField(fields, body, "networkProbeIntervalSeconds");
    UpdateField(fields, body, "networkTargets");
    UpdateField(fields, body, "networkDnsTestHost");
    UpdateField(fields, body, "enablePublicIp");
    forall k | k !in Keys ensures Field(Update(JObj(fields), body), k) == Field(Some(JObj(fields)), k) {
      UpdateField(fields, body, k);
    }
  }

  /** What the four assignments do to one property `o` of an object. */
  lemma UpdateField(fields: map<string, Value>, body: Value, o: string)
    ensures var r := Update(JObj(fields), body);
      var before := Field(Some(JObj(fields)), o);
      && r.Some? && r.value.JObj?
      && Field(r, o) == (
        if o == "networkProbeIntervalSeconds" then FirstPresent(IntervalOf(body), before)
        else if o == "networkTargets" then FirstPresent(TargetsOf(body), before)
        else if o == "networkDnsTestHost" then FirstPresent(DnsHostOf(body), before)
        else if o == "enablePublicIp" then FirstPresent(PublicIpOf(body), before)
        else before)
  {
    var m1 := Put(fields, "networkProbeIntervalSeconds", IntervalOf(body));
    var m2 := Put(m1, "networkTargets", TargetsOf(body));
    var m3 := Put(m2, "networkDnsTestHost", DnsHostOf(body));
    var m4 := Put(m3, "enablePublicIp", PublicIpOf(body));
    AssignIfObject(fields, "networkProbeIntervalSeconds", IntervalOf(body));
    AssignIfObject(m1, "networkTargets", TargetsOf(body));
    AssignIfObject(m2, "networkDnsTestHost", DnsHostOf(body));
    AssignIfObject(m3, "enablePublicIp", PublicIpOf(body));
    assert Update(JObj(fields), body) == Some(JObj(m4));
    PutField(fields, "networkProbeIntervalSeconds", IntervalOf(body), o);
    PutField(m1, "networkTargets", TargetsOf(body), o);
    PutField(m2, "networkDnsTestHost", DnsHostOf(body), o);
    PutField(m3, "enablePublicIp", PublicIpOf(body), o);
  }

  /** What one conditional assignment does to each property. */
  lemma PutField(m: map<string, Value>, k: string, v: Option<Value>, o: string)
    ensures Field(Some(JObj(Put(m, k, v))), o)
      == if o == k then FirstPresent(v, Field(Some(JObj(m)), k)) else Field(Some(JObj(m)), o)
  {
  }

  /** The written settings are in range: the interval lies in 2 .. 300, there
      are at most twelve targets, each non-empty with no space at either end,
      and the DNS test host is trimmed and at most 200 characters. */
  lemma WrittenSettingsAreClean(body: Value)
    ensures IntervalOf(body).Some? ==> (
      IntervalOf(body).value.JNum? && MinInterval <= IntervalOf(body).value.n <= MaxInterval)
    ensures TargetsOf(body).Some? ==> (
      && TargetsOf(body).value.JArr? && |TargetsOf(body).value.items| <= MaxTargets
      && forall v :: v in TargetsOf(body).value.items ==> v.JStr? && CleanTarget(v.s))
    ensures DnsHostOf(body).Some? ==> DnsHostOf(body).value.JStr? && |DnsHostOf(body).value.s| <= MaxDnsHostLength
  {
    match Field(Some(body), "networkTargets")
    case Some(JArr(items)) =>
      var ts := Targets(items);
      forall v | v in Strings(ts) ensures v.JStr? && CleanTarget(v.s) {
        var i :| 0 <= i < |ts| && Strings(ts)[i] == v;
        assert ts[i] in Kept(items, Target);
        KeptAreTargets(items, ts[i]);
      }
    case _ =>
  }

  predicate CleanTarget(s: string) {
    s != "" && !IsJsSpace(s[0]) && !IsJsSpace(s[|s| - 1])
  }

  lemma {:induction false} KeptAreTargets(items: seq<Value>, t: string)
    requires t in Kept(items, Target)
    ensures CleanTarget(t)
  {
    if Target(items[0]) == Some(t) {
      TrimSpec(items[0].s);
    } else {
      assert t in Kept(items[1..], Target);
      KeptAreTargets(items[1..], t);
    }
  }

  /** Setting a property to the value it already has changes nothing. */
  lemma PutSame(m: map<string, Value>, k: string, v: Option<Value>)
    requires v.Some? ==> k in m && m[k] == v.value
    ensures Put(m, k, v) == m
  {
    if v.Some? {
      assert m[k := v.value] == m;
    }
  }

  /** The four optional assignments on the properties of an object. */
  function Puts(m: map<string, Value>, body: Value): map<string, Value> {
    var m1 := Put(m, "networkProbeIntervalSeconds", IntervalOf(body));
    var m2 := Put(m1, "networkTargets", TargetsOf(body));
    var m3 := Put(m2, "networkDnsTestHost", DnsHostOf(body));
    Put(m3, "enablePublicIp", PublicIpOf(body))
  }

  lemma UpdateIsPuts(fields: map<string, Value>, body: Value)
    ensures Update(JObj(fields), body) == Some(JObj(Puts(fields, body)))
  {
    UpdateOfObject(fields, body);
    var m1 := Put(fields, "networkProbeIntervalSeconds", IntervalOf(body));
    var m2 := Put(m1, "networkTargets", TargetsOf(body));
    var m3 := Put(m2, "networkDnsTestHost", DnsHostOf(body));
    AssignIfObject(fields, "networkProbeIntervalSeconds", IntervalOf(body));
    AssignIfObject(m1, "networkTargets", TargetsOf(body));
    AssignIfObject(m2, "networkDnsTestHost", DnsHostOf(body));
    AssignIfObject(m3, "enablePublicIp", PublicIpOf(body));
  }

  lemma PutsSetsEach(m: map<string, Value>, body: Value)
    ensures var p := Puts(m, body);
      && (IntervalOf(body).Some? ==> "networkProbeIntervalSeconds" in p && p["networkProbeIntervalSeconds"] == IntervalOf(body).value)
      && (TargetsOf(body).Some? ==> "networkTargets" in p && p["networkTargets"] == TargetsOf(body).value)
      && (DnsHostOf(body).Some? ==> "networkDnsTestHost" in p && p["networkDnsTestHost"] == DnsHostOf(body).value)
      && (PublicIpOf(body).Some? ==> "enablePublicIp" in p && p["enablePublicIp"] == PublicIpOf(body).value)
  {
  }

  lemma PutsTwice(m: map<string, Value>, body: Value)
    ensures Puts(Puts(m, body), body) == Puts(m, body)
  {
    var p := Puts(m, body);
    PutsSetsEach(m, body);
    PutSame(p, "networkProbeIntervalSeconds", IntervalOf(body));
    PutSame(p, "networkTargets", TargetsOf(body));
    PutSame(p, "networkDnsTestHost", DnsHostOf(body));
    PutSame(p, "enablePublicIp", PublicIpOf(body));
  }

  /** Applying the same body a second time writes the same object again. */
  lemma UpdateTwice(fields: map<string, Value>, body: Value)
    ensures Update(JObj(fields), body).Some?
    ensures var once := Update(JObj(fields), body).value;
      Update(once, body) == Some(once)
  {
    UpdateIsPuts(fields, body);
    UpdateIsPuts(Puts(fields, body), body);
    PutsTwice(fields, body);
  }

  /** Posting the same settings twice writes what posting them once wrote. */
  lemma PostIsIdempotent(body: Value, stored: Stored)
    requires body != JNull
    requires PostNetworkConfig(true, Some(body), stored).status == 200
    ensures var once := PostNetworkConfig(true, Some(body), stored).written.value;
      PostNetworkConfig(true, Some(body), Parsed(once)) == Outcome(200, Some(once))
  {
    var c := Load(stored);
    if c.JObj? {
      UpdateTwice(c.fields, body);
    }
  }
}
