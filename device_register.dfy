/** `POST /api/biometric/device/register`: an HR admin adds an attendance device. */
module DeviceRegister {
  import opened Wrappers
  import opened Http
  import opened BiometricStore
  import Checkin

  /** The JSON body: `device_name` and `device_id` (the hardware's own id). */
  datatype RegisterRequest = RegisterRequest(deviceName: string, externalId: string)

  /** The inserted row as the route returns it, with its generated id. */
  datatype DeviceRecord = DeviceRecord(id: Id, device: Device)

  /** The row the insert writes. The status is the column default, taken to be
      "active"; no sync has happened yet. */
  function NewDevice(req: RegisterRequest, uid: Id): Device
  {
    Device(req.deviceName, req.externalId, "active", uid, None)
  }

  /** The request as a step on the tables. */
  function Register(t: Tables, user: Option<Id>, req: RegisterRequest, insert: Outcome): (r: (Tables, Response<DeviceRecord>))
    ensures r.1.status in {201, 401, 403, 500}
    ensures r.0.enrollments == t.enrollments && r.0.attendance == t.attendance && r.0.punches == t.punches && r.0.profiles == t.profiles
  {
    if user.None? then (t, Fail(401, "Unauthorized"))
    else if !IsHrAdmin(t.profiles, user.value) then (t, Fail(403, "Only HR admins can register devices"))
    else if insert.Failure? then (t, Fail(500, insert.message))
    else
      var id := SerialId(t.nextSerial);
      var device := NewDevice(req, user.value);
      (t.(devices := t.devices[id := device], nextSerial := t.nextSerial + 1), Ok(201, DeviceRecord(id, device)))
  }

  /** Without a session the answer is 401, for a non-admin 403, for a failed
      insert 500 with its message; in all three the tables are unchanged. */
  lemma RejectionsWriteNothing(t: Tables, user: Option<Id>, req: RegisterRequest, insert: Outcome)
    ensures var (t', r) := Register(t, user, req, insert);
      && (user.None? ==> r == Fail(401, "Unauthorized"))
      && (user.Some? && !IsHrAdmin(t.profiles, user.value) ==> r == Fail(403, "Only HR admins can register devices"))
      && (user.Some? && IsHrAdmin(t.profiles, user.value) && insert.Failure? ==> r == Fail(500, insert.message))
      && (r.status != 201 ==> t' == t)
  {
  }

  /** A successful registration adds exactly one device under a fresh id, with
      the given name and hardware id and the caller as registrant, and
      returns it with 201. */
  lemma {:induction false} RegistrationAddsOneDevice(t: Tables, uid: Id, req: RegisterRequest)
    requires WellFormed(t) && IsHrAdmin(t.profiles, uid)
    ensures var (t', r) := Register(t, Some(uid), req, Success);
      && r.status == 201 && r.body.Data?
      && r.body.value.id !in t.devices
      && t'.devices == t.devices[r.body.value.id := r.body.value.device]
      && |t'.devices| == |t.devices| + 1
      && r.body.value.device.name == req.deviceName && r.body.value.device.externalId == req.externalId
      && r.body.value.device.registeredBy == uid
  {
    FreshSerial(t);
  }

  /** A newly registered device can take scans at once: it passes the check-in
      route's device gate. */
  lemma {:induction false} RegisteredDeviceIsActive(t: Tables, uid: Id, req: RegisterRequest)
    requires WellFormed(t) && IsHrAdmin(t.profiles, uid)
    ensures var (t', r) := Register(t, Some(uid), req, Success);
      r.body.Data? && Checkin.DeviceActive(t', r.body.value.id)
  {
    RegistrationAddsOneDevice(t, uid, req);
  }

  lemma {:induction false} RegisterKeepsWellFormed(t: Tables, user: Option<Id>, req: RegisterRequest, insert: Outcome)
    requires WellFormed(t)
    ensures WellFormed(Register(t, user, req, insert).0)
  {
    FreshSerial(t);
    var t' := Register(t, user, req, insert).0;
    forall n: nat | n >= t'.nextSerial
      ensures SerialId(n) !in t'.devices
    {
      if t'.nextSerial != t.nextSerial && SerialId(n) == SerialId(t.nextSerial) {
        SerialIdInjective(n, t.nextSerial);
      }
    }
  }

  /** The handler, inserting into the device table in place. */
  method Post(db: Store, user: Option<Id>, req: RegisterRequest, insert: Outcome) returns (resp: Response<DeviceRecord>)
    requires db.Valid()
    modifies db
    ensures db.Valid()
    ensures (db.Snapshot(), resp) == Register(old(db.Snapshot()), user, req, insert)
  {
    RegisterKeepsWellFormed(db.Snapshot(), user, req, insert);
    if user.None? {
      return Fail(401, "Unauthorized");
    }
    var role := RoleOf(db.profiles, user.value);
    if role != Some("hr_admin") {
      return Fail(403, "Only HR admins can register devices");
    }
    if insert.Failure? {
      return Fail(500, insert.message);
    }
    var id := SerialId(db.nextSerial);
    var data := NewDevice(req, user.value);
    db.devices := db.devices[id := data];
    db.nextSerial := db.nextSerial + 1;
    resp := Ok(201, DeviceRecord(id, data));
  }
}
