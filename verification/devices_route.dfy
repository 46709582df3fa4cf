/** `/api/devices` (`app/api/devices/route.ts`): `GET` lists the registry as
    `getDevices()` does (see `Registry.GetDevices`); `POST` enrols a device
    by name and answers with its fresh id and token only. */
module DevicesRoute {
  import opened Wrappers
  import opened Json
  import opened Text
  import opened Registry

  const DefaultName: string := "New Device"

  /** What `POST` answers: the new credentials, or a failure (500) when the
      body is not JSON or its `name` is neither a string nor null. */
  datatype Enrolled = Enrolled(id: string, token: string) | Failed

  /** `body?.name?.trim() || "New Device"`; `None` where calling `trim`
      throws. */
  function EnrolmentName(body: Value): (r: Option<string>)
    ensures var f := Field(Some(body), "name");
      && (f.None? || f.value == JNull ==> r == Some(DefaultName))
      && (f.Some? && f.value.JStr? ==> r == Some(if Trim(f.value.s) == "" then DefaultName else Trim(f.value.s)))
      && (f.Some? && !f.value.JStr? && f.value != JNull ==> r.None?)
    ensures r.Some? ==> r.value != ""
  {
    match Field(Some(body), "name")
    case None => Some(DefaultName)
    case Some(JNull) => Some(DefaultName)
    case Some(JStr(s)) => var t := Trim(s); Some(if t == "" then DefaultName else t)
    case Some(_) => None
  }

  /** `POST /api/devices` with fresh ids drawn by `randomUUID`. */
  function PostDevice(ds: seq<Device>, body: Option<Value>, freshId: string, freshToken: string)
    : (r: (seq<Device>, Enrolled))
    ensures body.None? || EnrolmentName(body.value).None? ==> r == (ds, Failed)
    ensures body.Some? && EnrolmentName(body.value).Some? ==>
      var (ds', e) := EnrollDevice(ds, EnrolmentName(body.value).value, freshId, freshToken);
      r == (ds', Enrolled(e.id, e.token))
  {
    if body.None? then (ds, Failed)
    else
      match EnrolmentName(body.value)
      case None => (ds, Failed)
      case Some(name) =>
        var (ds', e) := EnrollDevice(ds, name, freshId, freshToken);
        (ds', Enrolled(e.id, e.token))
  }

  /** Posting the name of a registered device, in any letter case and with
      surrounding space, re-enrols that device instead of adding one; its
      old token stops verifying and the returned one starts. */
  lemma PostReenrolsByName(ds: seq<Device>, j: nat, name: string, freshId: string, freshToken: string, t: string)
    requires j < |ds| && SameIgnoringCase(ds[j].name, Trim(name)) && Trim(name) != ""
    requires freshId != "" && freshToken != "" && !HasId(ds, freshId)
    ensures var (ds', e) := PostDevice(ds, Some(JObj(map["name" := JStr(name)])), freshId, freshToken);
      && |ds'| == |ds|
      && e == Enrolled(freshId, freshToken)
      && (VerifyDeviceToken(ds', freshId, t) <==> t == freshToken)
  {
    var body := JObj(map["name" := JStr(name)]);
    assert Field(Some(body), "name") == Some(JStr(name));
    assert EnrolmentName(body) == Some(Trim(name));
    var en := EnrollDevice(ds, Trim(name), freshId, freshToken);
    assert en.1.updatedExisting;
    assert PostDevice(ds, Some(body), freshId, freshToken) == (en.0, Enrolled(freshId, freshToken));
    EnrolledTokenVerifies(ds, Trim(name), freshId, freshToken, t);
  }

  /** A body without a usable name enrols a device called "New Device". */
  lemma MissingNameIsDefaulted(ds: seq<Device>, freshId: string, freshToken: string)
    requires forall j :: 0 <= j < |ds| ==> !SameIgnoringCase(ds[j].name, DefaultName)
    ensures PostDevice(ds, Some(JObj(map[])), freshId, freshToken).0
      == ds + [Device(freshId, DefaultName, HashToken(freshToken), None, None)]
  {
  }
}
