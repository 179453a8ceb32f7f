/** The registered device of backend/models/device.js and the collection that
    holds them, whose `deviceId` index is unique. */
module DeviceModel {
  import opened Common
  import opened Mongo

  datatype Device = Device(
    userId: Oid,
    deviceId: string,
    deviceName: string,
    ipAddress: Option<string>,
    lastUsed: int,
    isActive: bool)

  /** The fields handed to `Device.create`; `None` is a field left out. */
  datatype DeviceInput = DeviceInput(
    userId: Option<Oid>,
    deviceId: Option<string>,
    deviceName: Option<string>,
    ipAddress: Option<Option<string>>,
    lastUsed: Option<int>,
    isActive: Option<bool>)

  /** The unique index on `deviceId`, together with its `required` check. */
  predicate DevicesWellFormed(ds: seq<Device>) {
    && (forall i | 0 <= i < |ds| :: ds[i].deviceId != "")
    && (forall i, j | 0 <= i < j < |ds| :: ds[i].deviceId != ds[j].deviceId)
  }

  predicate DeviceIdTaken(ds: seq<Device>, deviceId: string) {
    exists i | 0 <= i < |ds| :: ds[i].deviceId == deviceId
  }

  /** Inserting a device at time `now`: the required paths must be present, the
      id must be free, and defaults fill the optional paths. */
  function InsertDevice(ds: seq<Device>, input: DeviceInput, now: int): (r: Result<seq<Device>>)
    ensures r.Success? <==>
              input.userId.Some? && RequiredString(input.deviceId)
              && !DeviceIdTaken(ds, input.deviceId.value)
    ensures r.Success? ==> |r.value| == |ds| + 1 && r.value[..|ds|] == ds
    ensures r.Success? ==> var d := r.value[|ds|];
              && d.userId == input.userId.value && d.deviceId == input.deviceId.value
              && d.deviceName == input.deviceName.GetOr("Unknown Device")
              && d.ipAddress == input.ipAddress.GetOr(None)
              && d.lastUsed == input.lastUsed.GetOr(now)
              && d.isActive == input.isActive.GetOr(true)
  {
    if input.userId.None? || !RequiredString(input.deviceId) then Failure("ValidationError")
    else if DeviceIdTaken(ds, input.deviceId.value) then Failure("E11000 duplicate key")
    else Success(ds + [Device(input.userId.value, input.deviceId.value,
                              input.deviceName.GetOr("Unknown Device"), input.ipAddress.GetOr(None),
                              input.lastUsed.GetOr(now), input.isActive.GetOr(true))])
  }

  lemma InsertDevicePreservesWellFormed(ds: seq<Device>, input: DeviceInput, now: int)
    requires DevicesWellFormed(ds)
    ensures InsertDevice(ds, input, now).Success? ==> DevicesWellFormed(InsertDevice(ds, input, now).value)
  {
    var r := InsertDevice(ds, input, now);
    if r.Success? {
      var n := r.value[|ds|];
      forall i, j | 0 <= i < j < |r.value| ensures r.value[i].deviceId != r.value[j].deviceId {
        if j == |ds| {
          assert r.value[i] == ds[i];
        } else {
          assert r.value[i] == ds[i] && r.value[j] == ds[j];
        }
      }
    }
  }

  /** In a well-formed collection a device id has at most one owner. */
  lemma OneOwnerPerDevice(ds: seq<Device>, i: int, j: int)
    requires DevicesWellFormed(ds) && 0 <= i < |ds| && 0 <= j < |ds|
    requires ds[i].deviceId == ds[j].deviceId
    ensures i == j && ds[i].userId == ds[j].userId
  {
  }
}
