/** The device registry endpoints: create, read, partial update and delete
    of `devices` rows. */
module Registry {
  import opened Base
  import opened Model
  import Hex

  /** Body of a create request. `deviceType` absent means the schema default. */
  datatype DeviceCreate = DeviceCreate(
    name: string,
    deviceType: Option<string>,
    apiKey: Option<string>,
    publicIp: Option<string>,
    notes: Option<string>)

  /** Body of an update request: every field optional. */
  datatype DeviceUpdate = DeviceUpdate(
    name: Option<string>,
    deviceType: Option<string>,
    publicIp: Option<string>,
    notes: Option<string>)

  const DefaultDeviceType := "unknown"

  /** The credential a new device gets: the supplied one when it is a
      non-empty string (Python truthiness), otherwise the hex encoding of the
      random draw. */
  function ChosenKey(req: DeviceCreate, entropy: seq<Hex.Byte>): (k: string)
    requires |entropy| == Hex.KeyBytes
    ensures k != ""
    ensures req.apiKey.Some? && req.apiKey.value != "" ==> k == req.apiKey.value
    ensures req.apiKey.None? || req.apiKey.value == "" ==> |k| == 64 && k == Hex.TokenHex(entropy)
  {
    if req.apiKey.Some? && req.apiKey.value != "" then req.apiKey.value
    else Hex.TokenHex(entropy)
  }

  /** The largest id in use, or 0 for an empty table. */
  function MaxId(devices: seq<Device>): (m: int)
    ensures m >= 0
    ensures forall i :: 0 <= i < |devices| ==> devices[i].id <= m
    ensures m == 0 || exists i :: 0 <= i < |devices| && devices[i].id == m
  {
    if |devices| == 0 then 0
    else
      assert forall i :: 1 <= i < |devices| ==> devices[i] == devices[1..][i - 1];
      Max(devices[0].id, MaxId(devices[1..]))
  }

  /** The id SQLite assigns to a new row of an `INTEGER PRIMARY KEY` table
      without AUTOINCREMENT: one more than the largest id present, 1 when the
      table is empty. */
  function NextId(devices: seq<Device>): (id: int)
    ensures id >= 1 && !HasId(devices, id)
  {
    MaxId(devices) + 1
  }

  /** `POST /api/devices`. Fails when the chosen key is already registered;
      otherwise appends a device that is offline and has never been seen. */
  function CreateDevice(st: Store, req: DeviceCreate, entropy: seq<Hex.Byte>, now: int)
    : (r: Result<(Store, Device), ApiError>)
    requires |entropy| == Hex.KeyBytes
    ensures r.Err? <==> HasKey(st.devices, ChosenKey(req, entropy))
    ensures r.Err? ==> r.error == DuplicateKey
    ensures r.Ok? ==>
      var st', d := r.value.0, r.value.1;
      && st'.devices == st.devices + [d]
      && st'.statuses == st.statuses && st'.errors == st.errors
      && d.id >= 1 && !HasId(st.devices, d.id)
      && d.apiKey == ChosenKey(req, entropy)
      && d.name == req.name
      && d.deviceType == req.deviceType.GetOr(DefaultDeviceType)
      && d.publicIp == req.publicIp && d.notes == req.notes
      && !d.isOnline && d.lastSeen == None && d.createdAt == now
    ensures r.Ok? && Valid(st) ==> Valid(r.value.0)
  {
    var key := ChosenKey(req, entropy);
    if HasKey(st.devices, key) then Err(DuplicateKey)
    else
      var d := Device(NextId(st.devices), req.name, req.deviceType.GetOr(DefaultDeviceType),
                      key, req.publicIp, false, None, now, req.notes);
      Ok((st.(devices := st.devices + [d]), d))
  }

  /** `GET /api/devices/{id}`. */
  function GetDevice(st: Store, id: int): (r: Result<Device, ApiError>)
    ensures r.Err? <==> !HasId(st.devices, id)
    ensures r.Err? ==> r.error == NotFound
    ensures r.Ok? ==> r.value.id == id && r.value in st.devices
  {
    match FindById(st.devices, id)
    case None => Err(NotFound)
    case Some(i) => Ok(st.devices[i])
  }

  /** Applies the non-null fields of `upd`; an explicitly supplied empty
      string is a value like any other here. */
  function Apply(d: Device, upd: DeviceUpdate): Device {
    d.(name := upd.name.GetOr(d.name),
       deviceType := upd.deviceType.GetOr(d.deviceType),
       publicIp := if upd.publicIp.Some? then upd.publicIp else d.publicIp,
       notes := if upd.notes.Some? then upd.notes else d.notes)
  }

  /** `PUT /api/devices/{id}`: a partial update of the device with that id. */
  function UpdateDevice(st: Store, id: int, upd: DeviceUpdate): (r: Result<(Store, Device), ApiError>)
    ensures r.Err? <==> !HasId(st.devices, id)
    ensures r.Err? ==> r.error == NotFound
    ensures r.Ok? ==>
      var st', d := r.value.0, r.value.1;
      && st'.statuses == st.statuses && st'.errors == st.errors
      && |st'.devices| == |st.devices|
      && (forall j :: 0 <= j < |st.devices| && st.devices[j].id != id ==> st'.devices[j] == st.devices[j])
      && d.id == id
      // supplied fields take the supplied value, the others keep theirs
      && (upd.name.Some? ==> d.name == upd.name.value)
      && (upd.deviceType.Some? ==> d.deviceType == upd.deviceType.value)
      && (upd.publicIp.Some? ==> d.publicIp == upd.publicIp)
      && (upd.notes.Some? ==> d.notes == upd.notes)
      && exists j :: 0 <= j < |st.devices| && st.devices[j].id == id && st'.devices[j] == d
           && (upd.name.None? ==> d.name == st.devices[j].name)
           && (upd.deviceType.None? ==> d.deviceType == st.devices[j].deviceType)
           && (upd.publicIp.None? ==> d.publicIp == st.devices[j].publicIp)
           && (upd.notes.None? ==> d.notes == st.devices[j].notes)
           // fields the endpoint never writes
           && d.apiKey == st.devices[j].apiKey && d.isOnline == st.devices[j].isOnline
           && d.lastSeen == st.devices[j].lastSeen && d.createdAt == st.devices[j].createdAt
    ensures r.Ok? && Valid(st) ==> Valid(r.value.0)
  {
    match FindById(st.devices, id)
    case None => Err(NotFound)
    case Some(i) =>
      var d := Apply(st.devices[i], upd);
      Ok((st.(devices := st.devices[i := d]), d))
  }

  /** `DELETE /api/devices/{id}`. The device's samples stay in the store. */
  function DeleteDevice(st: Store, id: int): (r: Result<Store, ApiError>)
    ensures r.Err? <==> !HasId(st.devices, id)
    ensures r.Err? ==> r.error == NotFound
    ensures r.Ok? ==>
      && |r.value.devices| == |st.devices| - 1
      && r.value.statuses == st.statuses && r.value.errors == st.errors
      && (forall j :: 0 <= j < |r.value.devices| ==> r.value.devices[j] in st.devices)
      && (forall j :: 0 <= j < |st.devices| && st.devices[j].id != id ==> st.devices[j] in r.value.devices)
    ensures r.Ok? && Valid(st) ==> Valid(r.value) && !HasId(r.value.devices, id)
    // the remaining rows keep their order
    ensures r.Ok? ==> exists i ::
      && 0 <= i < |st.devices| && st.devices[i].id == id
      && r.value.devices == st.devices[..i] + st.devices[i + 1..]
  {
    match FindById(st.devices, id)
    case None => Err(NotFound)
    case Some(i) =>
      var rest := RemoveAt(st.devices, i);
      assert rest == st.devices[..i] + st.devices[i + 1..];
      RemoveAtKeepsOthers(st.devices, i, rest);
      RemoveAtValid(st, i, rest);
      Ok(st.(devices := rest))
  }

  /** The registry without its row at position `i`. */
  function RemoveAt(devices: seq<Device>, i: nat): (r: seq<Device>)
    requires i < |devices|
    ensures |r| == |devices| - 1
    ensures forall j :: 0 <= j < |r| ==> r[j] == (if j < i then devices[j] else devices[j + 1])
  {
    devices[..i] + devices[i + 1..]
  }

  /** Removing one row keeps every other row and invents none. */
  lemma RemoveAtKeepsOthers(devices: seq<Device>, i: nat, r: seq<Device>)
    requires i < |devices| && r == RemoveAt(devices, i)
    ensures forall j :: 0 <= j < |r| ==> r[j] in devices
    ensures forall j :: 0 <= j < |devices| && j != i ==> devices[j] in r
  {
    forall j | 0 <= j < |devices| && j != i ensures devices[j] in r {
      if j < i { assert r[j] == devices[j]; } else { assert r[j - 1] == devices[j]; }
    }
  }

  /** Removing a row keeps the table valid, and with distinct ids the
      removed row's id is gone. */
  lemma RemoveAtValid(st: Store, i: nat, r: seq<Device>)
    requires i < |st.devices| && r == RemoveAt(st.devices, i)
    ensures Valid(st) ==> Valid(st.(devices := r)) && !HasId(r, st.devices[i].id)
  {
    if Valid(st) {
      forall j, k | 0 <= j < k < |r|
        ensures r[j].id != r[k].id && r[j].apiKey != r[k].apiKey
      {
        var j', k' := if j < i then j else j + 1, if k < i then k else k + 1;
        assert r[j] == st.devices[j'] && r[k] == st.devices[k'] && j' < k';
      }
      forall j | 0 <= j < |r| ensures r[j].id != st.devices[i].id {
        var j' := if j < i then j else j + 1;
        assert r[j] == st.devices[j'] && j' != i;
      }
    }
  }

  /** An update that supplies nothing leaves the store as it was. */
  lemma EmptyUpdateIsIdentity(st: Store, id: int)
    requires HasId(st.devices, id)
    ensures UpdateDevice(st, id, DeviceUpdate(None, None, None, None)).Ok?
    ensures UpdateDevice(st, id, DeviceUpdate(None, None, None, None)).value.0 == st
  {
    var i := FindById(st.devices, id).value;
    assert Apply(st.devices[i], DeviceUpdate(None, None, None, None)) == st.devices[i];
    assert st.devices[i := st.devices[i]] == st.devices;
  }

  /** Sending the same update twice has the effect of sending it once. */
  lemma UpdateIdempotent(st: Store, id: int, upd: DeviceUpdate)
    requires HasId(st.devices, id)
    ensures var once := UpdateDevice(st, id, upd);
      once.Ok? && UpdateDevice(once.value.0, id, upd) == once
  {
    var i := FindById(st.devices, id).value;
    var once := UpdateDevice(st, id, upd);
    var st1 := once.value.0;
    assert FindById(st1.devices, id) == Some(i) by {
      FindByIdPrefix(st.devices, st1.devices, id, i);
    }
    assert Apply(Apply(st.devices[i], upd), upd) == Apply(st.devices[i], upd);
    assert st1.devices[i := Apply(st.devices[i], upd)] == st1.devices;
  }

  /** `FindById` depends only on the ids up to the first hit. */
  lemma {:induction false} FindByIdPrefix(a: seq<Device>, b: seq<Device>, id: int, i: nat)
    requires FindById(a, id) == Some(i)
    requires |a| == |b| && i < |b| && b[i].id == id
    requires forall j :: 0 <= j < i ==> b[j].id == a[j].id
    ensures FindById(b, id) == Some(i)
  {
    if i > 0 {
      assert a[0].id != id;
      FindByIdPrefix(a[1..], b[1..], id, i - 1);
    }
  }
}
