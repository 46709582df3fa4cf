/** `GET /api/agent/jobs/next` (`app/api/agent/jobs/next/route.ts`): the job
    poll. Credentials come only from the `x-device-id` and `x-agent-token`
    headers; an unknown device is provisioned on the spot (without a
    hostname) and there is never a job to hand out. */
module JobsNext {
  import opened Wrappers
  import opened Text
  import opened Registry

  /** The status code and the registry afterwards. */
  datatype Poll = Poll(status: int, devices: seq<Device>)

  function NextJob(ds: seq<Device>, idHeader: Option<string>, tokenHeader: Option<string>): (r: Poll)
    ensures r.status in {204, 401}
    ensures !Given(idHeader) || !Given(tokenHeader) ==> r == Poll(401, ds)
    ensures r.status == 401 ==> r.devices == ds
    ensures Given(idHeader) && Given(tokenHeader) && HasId(ds, idHeader.value) ==>
      r == Poll(if VerifyDeviceToken(ds, idHeader.value, tokenHeader.value) then 204 else 401, ds)
    ensures Given(idHeader) && Given(tokenHeader) && !HasId(ds, idHeader.value) ==>
      r == Poll(204, EnsureDevice(ds, idHeader.value, tokenHeader.value, None).0)
  {
    var id := idHeader.GetOr("");
    var token := tokenHeader.GetOr("");
    if id == "" || token == "" then Poll(401, ds)
    else if GetDevice(ds, id).None? then Poll(204, EnsureDevice(ds, id, token, None).0)
    else if !VerifyDeviceToken(ds, id, token) then Poll(401, ds)
    else Poll(204, ds)
  }

  /** A poll is answered 204 exactly when the device is afterwards registered
      and accepts the token it presented: a first poll enrols the device
      under that token, and a later poll with any other token is refused. */
  lemma PollSucceedsIffTokenVerifies(ds: seq<Device>, id: string, token: string)
    requires id != "" && token != ""
    ensures var r := NextJob(ds, Some(id), Some(token));
      r.status == 204 <==> VerifyDeviceToken(r.devices, id, token)
  {
    if !HasId(ds, id) {
      ProvisionedTokenVerifies(ds, id, token, None, token);
    }
  }

  /** A device provisioned by a poll is named after its id. */
  lemma ProvisionedByPollIsNamedAfterId(ds: seq<Device>, id: string, token: string)
    requires id != "" && token != "" && !HasId(ds, id)
    ensures var r := NextJob(ds, Some(id), Some(token));
      r.devices == ds + [Device(id, "device-" + Take(id, 6), HashToken(token), None, None)]
  {
  }
}
