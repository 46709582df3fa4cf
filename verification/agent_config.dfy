/** The agent's configuration file `dist/agent.config.json`, as the two
    routes that write it see it (`app/api/devices/apply/route.ts` and
    `app/api/agent/config/network/route.ts`): both load the stored JSON,
    assign some properties and write the result back. Reading, creating and
    writing the file are effects left to the caller; the model says which
    value is written. */
module AgentConfig {
  import opened Wrappers
  import opened Json

  /** What the file holds before the route runs. */
  datatype Stored = Missing | Corrupt | Parsed(v: Value)

  /** `let config = {}; if (exists) try { config = JSON.parse(...) } catch { config = {} }`. */
  function Load(stored: Stored): (r: Value)
    ensures stored.Parsed? ==> r == stored.v
    ensures !stored.Parsed? ==> r == JObj(map[])
  {
    match stored
    case Parsed(v) => v
    case _ => JObj(map[])
  }

  /** `config[k] = v` in a module (strict mode), seen through
      `JSON.stringify`: an object gains the property; an array gains a named
      property that `JSON.stringify` drops, so the written value does not
      change; on `null` or a primitive the assignment throws (`None`). */
  function Assign(config: Value, k: string, v: Value): (r: Option<Value>)
    ensures r.Some? <==> config.JObj? || config.JArr?
    ensures config.JObj? ==> r == Some(JObj(config.fields[k := v]))
    ensures config.JArr? ==> r == Some(config)
  {
    match config
    case JObj(m) => Some(JObj(m[k := v]))
    case JArr(_) => Some(config)
    case _ => None
  }

  /** An assignment that may not happen (`None` for "skip"), after a step
      that may have thrown. */
  function AssignIf(config: Option<Value>, k: string, v: Option<Value>): (r: Option<Value>)
    ensures v.None? ==> r == config
    ensures v.Some? && config.Some? ==> r == Assign(config.value, k, v.value)
    ensures config.None? ==> r.None?
  {
    match config
    case None => None
    case Some(c) =>
      match v
      case None => config
      case Some(x) => Assign(c, k, x)
  }

  /** An assignment leaves every other property as it was. */
  lemma AssignKeepsOthers(config: Value, k: string, v: Value, other: string)
    requires other != k
    requires Assign(config, k, v).Some?
    ensures Field(Assign(config, k, v), other) == Field(Some(config), other)
  {
  }

  /** `APPLY_ENABLED`: writes are allowed when `AGENT_APPLY_ENABLED` is
      `"true"` or the server does not run in production. */
  predicate ApplyEnabled(agentApplyEnabled: Option<string>, nodeEnv: Option<string>) {
    agentApplyEnabled == Some("true") || nodeEnv != Some("production")
  }

  /** The status of a write route and the value it writes (`None` when the
      file is left alone). */
  datatype Outcome = Outcome(status: int, written: Option<Value>)
}
