/** The device registry of `lib/store.ts`: an ordered list of devices searched
    front to back (`Array.prototype.find`), with token digests, presence and
    the name-based re-identification used by enrolment and auto-provisioning.
    `crypto.randomUUID` and the clock are parameters. */
module Registry {
  import opened Wrappers
  import opened Text

  /** `hashToken`: a SHA-256 hex digest, modelled as an injective map from
      tokens to digests. `Blank` is the empty `tokenHash` that
      auto-provisioning stores when no token came with the request; no
      digest of any token is blank. */
  datatype Digest = Blank | HashOf(token: string)

  function HashToken(token: string): (d: Digest)
    ensures d != Blank
  {
    HashOf(token)
  }

  /** Distinct tokens have distinct digests. */
  lemma HashInjective(t1: string, t2: string)
    ensures HashToken(t1) == HashToken(t2) <==> t1 == t2
  {
  }

  /** `lastSeenAt` is kept as epoch milliseconds (the source stores the ISO
      string of the same instant and parses it back when listing). */
  datatype Device = Device(
    id: string,
    name: string,
    tokenHash: Digest,
    lastSeenAt: Option<int>,
    hostname: Option<string>)

  /** `devices.find(d => d.id === id)`, as the index of the first match. */
  function FindById(ds: seq<Device>, id: string): (r: Option<nat>)
    ensures r.Some? ==> (r.value < |ds| && ds[r.value].id == id
      && forall j :: 0 <= j < r.value ==> ds[j].id != id)
    ensures r.None? ==> forall j :: 0 <= j < |ds| ==> ds[j].id != id
  {
    if |ds| == 0 then None
    else if ds[0].id == id then Some(0)
    else match FindById(ds[1..], id)
      case Some(i) => Some(i + 1)
      case None => None
  }

  /** `devices.find(d => d.name.toLowerCase() === name.toLowerCase())`. */
  function FindByName(ds: seq<Device>, name: string): (r: Option<nat>)
    ensures r.Some? ==> (r.value < |ds| && SameIgnoringCase(ds[r.value].name, name)
      && forall j :: 0 <= j < r.value ==> !SameIgnoringCase(ds[j].name, name))
    ensures r.None? ==> forall j :: 0 <= j < |ds| ==> !SameIgnoringCase(ds[j].name, name)
  {
    if |ds| == 0 then None
    else if SameIgnoringCase(ds[0].name, name) then Some(0)
    else match FindByName(ds[1..], name)
      case Some(i) => Some(i + 1)
      case None => None
  }

  predicate HasId(ds: seq<Device>, id: string) {
    exists j :: 0 <= j < |ds| && ds[j].id == id
  }

  /** `getDevice`. */
  function GetDevice(ds: seq<Device>, id: string): (r: Option<Device>)
    ensures r.Some? <==> HasId(ds, id)
    ensures r.Some? ==> r.value.id == id && r.value in ds
  {
    match FindById(ds, id)
    case Some(i) => Some(ds[i])
    case None => None
  }

  /** `verifyDeviceToken`: fails closed on an empty id, an empty token or an
      unknown id; otherwise compares digests. */
  function VerifyDeviceToken(ds: seq<Device>, id: string, token: string): (ok: bool)
    ensures ok <==> id != "" && token != "" && GetDevice(ds, id).Some?
                    && GetDevice(ds, id).value.tokenHash == HashToken(token)
  {
    if id == "" || token == "" then false
    else match FindById(ds, id)
      case None => false
      case Some(i) => ds[i].tokenHash == HashToken(token)
  }

  datatype Enrolment = Enrolment(id: string, token: string, updatedExisting: bool)

  /** `enrollDevice(name)` with `freshId` and `freshToken` the two UUIDs it
      draws. A device whose name matches case-insensitively is re-keyed in
      place; otherwise a new device is appended. */
  function EnrollDevice(ds: seq<Device>, name: string, freshId: string, freshToken: string)
    : (r: (seq<Device>, Enrolment))
    ensures r.1.id == freshId && r.1.token == freshToken
    ensures r.1.updatedExisting <==> exists j :: 0 <= j < |ds| && SameIgnoringCase(ds[j].name, name)
    ensures r.1.updatedExisting ==>
      var i := FindByName(ds, name).value;
      && |r.0| == |ds|
      && r.0[i].id == freshId && r.0[i].tokenHash == HashToken(freshToken)
      && r.0[i].lastSeenAt.None? && r.0[i].name == ds[i].name
      && r.0[i].hostname == (if Given(ds[i].hostname) then ds[i].hostname else Some(name))
      && (forall j :: 0 <= j < |ds| && j != i ==> r.0[j] == ds[j])
    ensures !r.1.updatedExisting ==>
      r.0 == ds + [Device(freshId, name, HashToken(freshToken), None, None)]
  {
    match FindByName(ds, name)
    case Some(i) =>
      var d := ds[i];
      var hostname := if Given(d.hostname) then d.hostname else Some(name);
      var d' := d.(id := freshId, tokenHash := HashToken(freshToken), lastSeenAt := None, hostname := hostname);
      (ds[i := d'], Enrolment(freshId, freshToken, true))
    case None =>
      (ds + [Device(freshId, name, HashToken(freshToken), None, None)],
       Enrolment(freshId, freshToken, false))
  }

  /** `ensureDevice(id, token, hostname)`: returns the device with that id,
      creating it when needed. An unknown id first takes over a device whose
      name matches the hostname (keeping its old digest when no token is
      given), and otherwise a new device is appended, named after the
      hostname or `device-` plus the first six characters of the id. */
  function EnsureDevice(ds: seq<Device>, id: string, token: string, hostname: Option<string>)
    : (r: (seq<Device>, Device))
    ensures GetDevice(r.0, id) == Some(r.1)
    ensures HasId(ds, id) ==> r.0 == ds
    ensures !HasId(ds, id) && Given(hostname) && FindByName(ds, hostname.value).Some? ==>
      var j := FindByName(ds, hostname.value).value;
      && |r.0| == |ds|
      && r.0[j] == ds[j].(id := id, tokenHash := if token != "" then HashToken(token) else ds[j].tokenHash)
      && (forall k :: 0 <= k < |ds| && k != j ==> r.0[k] == ds[k])
    ensures !HasId(ds, id) && !(Given(hostname) && FindByName(ds, hostname.value).Some?) ==>
      && r.0 == ds + [r.1]
      && r.1.name == (if Given(hostname) then hostname.value else "device-" + Take(id, 6))
      && r.1.tokenHash == (if token != "" then HashToken(token) else Blank)
      && r.1.lastSeenAt.None? && r.1.hostname.None?
  {
    match FindById(ds, id)
    case Some(i) => (ds, ds[i])
    case None =>
      var byName := if Given(hostname) then FindByName(ds, hostname.value) else None;
      var digest := if token != "" then HashToken(token) else Blank;
      match byName
      case Some(j) =>
        var d := ds[j].(id := id, tokenHash := if token != "" then digest else ds[j].tokenHash);
        FindByIdUnique(ds[j := d], id, j);
        (ds[j := d], d)
      case None =>
        var name := if Given(hostname) then hostname.value else "device-" + Take(id, 6);
        var d := Device(id, name, digest, None, None);
        FindByIdUnique(ds + [d], id, |ds|);
        (ds + [d], d)
  }

  /** `touchDevicePresence(id, hostname)` at instant `now`. */
  function TouchDevicePresence(ds: seq<Device>, id: string, hostname: Option<string>, now: int)
    : (r: seq<Device>)
    ensures !HasId(ds, id) ==> r == ds
    ensures |r| == |ds|
    ensures forall j :: 0 <= j < |ds| && ds[j] != GetDevice(ds, id).GetOr(ds[j]) ==> r[j] == ds[j]
    ensures HasId(ds, id) ==>
      var i := FindById(ds, id).value;
      && r[i].lastSeenAt == Some(now)
      && r[i].hostname == (if Given(hostname) then hostname else ds[i].hostname)
      && r[i].(lastSeenAt := ds[i].lastSeenAt, hostname := ds[i].hostname) == ds[i]
      && (forall j :: 0 <= j < |ds| && j != i ==> r[j] == ds[j])
  {
    match FindById(ds, id)
    case None => ds
    case Some(i) =>
      ds[i := ds[i].(lastSeenAt := Some(now), hostname := if Given(hostname) then hostname else ds[i].hostname)]
  }

  /** The time after which a silent device counts as offline. */
  const OnlineWindowSeconds: int := 90

  datatype Status = Online | Offline

  datatype DeviceView = DeviceView(device: Device, status: Status, secondsSinceSeen: Option<int>)

  /** One entry of `getDevices()` at instant `now`. The source re-parses the
      stored instant and tests it for truthiness, so a device last seen at the
      epoch itself (instant 0) has no `secondsSinceSeen`. */
  function View(d: Device, now: int): (v: DeviceView)
  {
    var seconds := if d.lastSeenAt.Some? && d.lastSeenAt.value != 0
      then Some((now - d.lastSeenAt.value) / 1000) else None;
    var status := if seconds.Some? && seconds.value < OnlineWindowSeconds then Online else Offline;
    DeviceView(d, status, seconds)
  }

  /** `getDevices()`. */
  function GetDevices(ds: seq<Device>, now: int): (r: seq<DeviceView>)
    ensures |r| == |ds|
    ensures forall i :: 0 <= i < |ds| ==> r[i] == View(ds[i], now)
  {
    if |ds| == 0 then [] else GetDevices(ds[..|ds| - 1], now) + [View(ds[|ds| - 1], now)]
  }

  /** A re-enrolled or newly enrolled device accepts exactly the token that
      enrolment returned, provided the drawn id is not already in use. */
  lemma EnrolledTokenVerifies(ds: seq<Device>, name: string, freshId: string, freshToken: string, t: string)
    requires freshId != "" && freshToken != ""
    requires !HasId(ds, freshId)
    ensures var (ds', e) := EnrollDevice(ds, name, freshId, freshToken);
      VerifyDeviceToken(ds', e.id, t) <==> t == freshToken
  {
    var (ds', e) := EnrollDevice(ds, name, freshId, freshToken);
    if e.updatedExisting {
      var i := FindByName(ds, name).value;
      assert ds'[i].id == freshId;
      assert forall j :: 0 <= j < |ds'| && j != i ==> ds'[j].id != freshId;
      assert FindById(ds', freshId) == Some(i) by { FindByIdUnique(ds', freshId, i); }
    } else {
      assert FindById(ds', freshId) == Some(|ds|) by { FindByIdUnique(ds', freshId, |ds|); }
    }
  }

  /** The first match is the only match when no other device has the id. */
  lemma FindByIdUnique(ds: seq<Device>, id: string, i: nat)
    requires i < |ds| && ds[i].id == id
    requires forall j :: 0 <= j < |ds| && j != i ==> ds[j].id != id
    ensures FindById(ds, id) == Some(i)
  {
  }

  /** A device provisioned on first sight with a token afterwards accepts that
      token and no other. */
  lemma ProvisionedTokenVerifies(ds: seq<Device>, id: string, token: string, hostname: Option<string>, t: string)
    requires id != "" && token != ""
    requires !HasId(ds, id)
    ensures VerifyDeviceToken(EnsureDevice(ds, id, token, hostname).0, id, t) <==> t == token
  {
  }

  /** Two tokens that both verify for the same id are the same token: a token
      valid for one device never opens another. */
  lemma VerifyingTokenIsUnique(ds: seq<Device>, id: string, t1: string, t2: string)
    requires VerifyDeviceToken(ds, id, t1) && VerifyDeviceToken(ds, id, t2)
    ensures t1 == t2
  {
    HashInjective(t1, t2);
  }

  /** Online means seen less than 90 seconds ago: `floor((now - last) / 1000) < 90`
      is exactly `now - last < 90000` milliseconds. */
  lemma OnlineWithinNinetySeconds(d: Device, now: int)
    ensures View(d, now).status == Online <==>
      d.lastSeenAt.Some? && d.lastSeenAt.value != 0 && now - d.lastSeenAt.value < 90000
  {
    if d.lastSeenAt.Some? && d.lastSeenAt.value != 0 {
      var delta := now - d.lastSeenAt.value;
      assert delta == 1000 * (delta / 1000) + delta % 1000;
    }
  }
}
