/** `POST /api/devices/apply` (`app/api/devices/apply/route.ts`): writes a
    device's credentials and the server address into the agent's
    configuration file, keeping every other property of the file. */
module ApplyConfig {
  import opened Wrappers
  import opened Json
  import opened AgentConfig

  const DefaultBaseUrl: string := "http://localhost:3000"

  /** `body.baseUrl || config.baseUrl || "http://localhost:3000"`. */
  function BaseUrl(body: Value, config: Value): (r: Value)
    ensures TruthyOpt(Field(Some(body), "baseUrl")) ==> r == Field(Some(body), "baseUrl").value
    ensures (!TruthyOpt(Field(Some(body), "baseUrl")) && TruthyOpt(Field(Some(config), "baseUrl")) ==>
      r == Field(Some(config), "baseUrl").value)
    ensures (!TruthyOpt(Field(Some(body), "baseUrl")) && !TruthyOpt(Field(Some(config), "baseUrl")) ==>
      r == JStr(DefaultBaseUrl))
    ensures Truthy(r)
  {
    Or(Or(Field(Some(body), "baseUrl"), Field(Some(config), "baseUrl")), Some(JStr(DefaultBaseUrl))).value
  }

  /** The three assignments in the order of the source; `None` when one
      throws. The base URL is read from the configuration after the
      credentials were assigned, which does not affect it. */
  function Update(config: Value, body: Value): (r: Option<Value>)
    requires Field(Some(body), "deviceId").Some? && Field(Some(body), "agentToken").Some?
  {
    var c1 := Assign(config, "deviceId", Field(Some(body), "deviceId").value);
    var c2 := if c1.Some? then Assign(c1.value, "agentToken", Field(Some(body), "agentToken").value) else None;
    if c2.Some? then Assign(c2.value, "baseUrl", BaseUrl(body, c2.value)) else None
  }

  /** The route. `body` is the parsed request (`None` when it is not JSON). */
  function PostApply(enabled: bool, body: Option<Value>, stored: Stored): (r: Outcome)
    ensures !enabled ==> r == Outcome(403, None)
    ensures enabled && (body.None? || body.value == JNull) ==> r == Outcome(500, None)
    ensures (enabled && body.Some? && body.value != JNull ==>
      (r.status == 400 <==> !TruthyOpt(Field(body, "deviceId")) || !TruthyOpt(Field(body, "agentToken"))))
    ensures r.status in {200, 400, 403, 500}
    ensures r.status == 200 <==> r.written.Some?
    ensures r.status == 200 ==> r.written == Update(Load(stored), body.value)
  {
    if !enabled then Outcome(403, None)
    else if body.None? || body.value == JNull then Outcome(500, None)
    else if !TruthyOpt(Field(body, "deviceId")) || !TruthyOpt(Field(body, "agentToken")) then Outcome(400, None)
    else
      match Update(Load(stored), body.value)
      case Some(c) => Outcome(200, Some(c))
      case None => Outcome(500, None)
  }

  /** Over an object (a missing or unreadable file reads as `{}`), the route
      writes the body's credentials verbatim, the first base URL that is
      set, and keeps every other property. */
  lemma ApplyWritesCredentials(body: Value, stored: Stored)
    requires TruthyOpt(Field(Some(body), "deviceId")) && TruthyOpt(Field(Some(body), "agentToken"))
    requires Load(stored).JObj?
    ensures var r := PostApply(true, Some(body), stored);
      && r.status == 200 && r.written.value.JObj?
      && Field(r.written, "deviceId") == Field(Some(body), "deviceId")
      && Field(r.written, "agentToken") == Field(Some(body), "agentToken")
      && Field(r.written, "baseUrl") == Some(BaseUrl(body, Load(stored)))
      && (forall k :: k !in {"deviceId", "agentToken", "baseUrl"} ==> Field(r.written, k) == Field(Some(Load(stored)), k))
  {
    var c := Load(stored);
    var c1 := Assign(c, "deviceId", Field(Some(body), "deviceId").value).value;
    var c2 := Assign(c1, "agentToken", Field(Some(body), "agentToken").value).value;
    assert Field(Some(c2), "baseUrl") == Field(Some(c), "baseUrl");
  }

  /** Without a file the base URL falls back to the local server unless the
      body names one. */
  lemma FreshFileGetsDefaultBaseUrl(body: Value, stored: Stored)
    requires TruthyOpt(Field(Some(body), "deviceId")) && TruthyOpt(Field(Some(body), "agentToken"))
    requires !stored.Parsed?
    requires !TruthyOpt(Field(Some(body), "baseUrl"))
    ensures PostApply(true, Some(body), stored).written == Some(JObj(map[
      "deviceId" := Field(Some(body), "deviceId").value,
      "agentToken" := Field(Some(body), "agentToken").value,
      "baseUrl" := JStr(DefaultBaseUrl)]))
  {
    ApplyWritesCredentials(body, stored);
  }

  /** Applying the same body to what it wrote writes the same thing again. */
  lemma ApplyIsIdempotent(body: Value, stored: Stored)
    requires TruthyOpt(Field(Some(body), "deviceId")) && TruthyOpt(Field(Some(body), "agentToken"))
    requires PostApply(true, Some(body), stored).status == 200
    ensures var once := PostApply(true, Some(body), stored).written.value;
      PostApply(true, Some(body), Parsed(once)) == Outcome(200, Some(once))
  {
    var c := Load(stored);
    if c.JObj? {
      ApplyWritesCredentials(body, stored);
      var once := PostApply(true, Some(body), stored).written.value;
      ApplyWritesCredentials(body, Parsed(once));
      var twice := PostApply(true, Some(body), Parsed(once)).written.value;
      forall k ensures k in twice.fields <==> k in once.fields {
        assert Field(Some(twice), k).Some? <==> Field(Some(once), k).Some?;
      }
      forall k | k in once.fields ensures twice.fields[k] == once.fields[k] {
        assert Field(Some(twice), k) == Field(Some(once), k);
      }
      assert twice.fields == once.fields;
    }
  }
}
