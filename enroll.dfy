/** `POST /api/biometric/enroll`: an HR admin enrolls an employee on a device,
    writing the biometric template. The write is an upsert on (device,
    employee): enrolling again replaces the row's template, status and time. */
module Enroll {
  import opened Wrappers
  import opened Http
  import opened IsoTime
  import opened BiometricStore
  import Checkin

  /** The JSON body: `device_id`, `employee_id`, `biometric_template`, `pin`
      (the pin is read but never written). */
  datatype EnrollRequest = EnrollRequest(deviceId: Id, employeeId: Id, template: string, pin: Option<string>)

  /** The request as a step on the tables, for the signed-in user `user`
      (none when there is no session), at time `stamp`, with the upsert
      turning out as `write`. */
  function Upsert(t: Tables, user: Option<Id>, req: EnrollRequest, stamp: string, write: Outcome): (r: (Tables, Response<Enrollment>))
    ensures r.1.status in {201, 401, 403, 404, 500}
    ensures r.0.devices == t.devices && r.0.attendance == t.attendance && r.0.punches == t.punches && r.0.profiles == t.profiles
  {
    if user.None? then (t, Fail(401, "Unauthorized"))
    else if !IsHrAdmin(t.profiles, user.value) then (t, Fail(403, "Only HR admins can enroll employees"))
    else if req.deviceId !in t.devices then (t, Fail(404, "Device not found"))
    else if write.Failure? then (t, Fail(500, write.message))
    else
      var key := (req.deviceId, req.employeeId);
      var existing := key in t.enrollments;
      var id := if existing then t.enrollments[key].id else SerialId(t.nextSerial);
      var row := Enrollment(id, req.deviceId, req.employeeId, "enrolled", req.template, stamp);
      (t.(enrollments := t.enrollments[key := row], nextSerial := if existing then t.nextSerial else t.nextSerial + 1),
       Ok(201, row))
  }

  /** The gates run in the order session, role, device; the first that fails
      answers, and a request that does not get 201 writes nothing. */
  lemma GatesInOrder(t: Tables, user: Option<Id>, req: EnrollRequest, stamp: string, write: Outcome)
    ensures var (t', r) := Upsert(t, user, req, stamp, write);
      && (user.None? ==> r.status == 401)
      && (user.Some? && !IsHrAdmin(t.profiles, user.value) ==> r.status == 403)
      && (user.Some? && IsHrAdmin(t.profiles, user.value) && req.deviceId !in t.devices ==> r.status == 404)
      && (r.status == 201 <==> user.Some? && IsHrAdmin(t.profiles, user.value) && req.deviceId in t.devices && write.Success?)
      && (r.status != 201 ==> t' == t)
  {
  }

  /** On success the (device, employee) row is the response row: status
      "enrolled", the supplied template, enrolled at the request time. No other
      enrollment changes, at most the one key is added, and devices,
      attendance and scans are not touched. */
  lemma EnrolledRow(t: Tables, user: Option<Id>, req: EnrollRequest, stamp: string, write: Outcome)
    requires Upsert(t, user, req, stamp, write).1.status == 201
    ensures var (t', r) := Upsert(t, user, req, stamp, write);
      var key := (req.deviceId, req.employeeId);
      && r.body.Data? && key in t'.enrollments && t'.enrollments[key] == r.body.value
      && r.body.value.status == "enrolled" && r.body.value.template == req.template && r.body.value.enrolledAt == stamp
      && t'.enrollments.Keys == t.enrollments.Keys + {key}
      && (forall k :: k in t.enrollments && k != key ==> t'.enrollments[k] == t.enrollments[k])
      && t'.devices == t.devices && t'.attendance == t.attendance && t'.punches == t.punches
  {
  }

  /** The device's status is not checked: an inactive device can be enrolled on. */
  lemma InactiveDeviceAccepted(t: Tables, uid: Id, req: EnrollRequest, stamp: string)
    requires IsHrAdmin(t.profiles, uid)
    requires req.deviceId in t.devices && t.devices[req.deviceId].status == "inactive"
    ensures Upsert(t, Some(uid), req, stamp, Success).1.status == 201
  {
  }

  /** Enrolling the same employee on the same device twice leaves a single row,
      with the first row's id and the second request's template and time. */
  lemma {:induction false} ReEnrollKeepsOneRow(t: Tables, uid: Id, req1: EnrollRequest, req2: EnrollRequest, stamp1: string, stamp2: string)
    requires req1.deviceId == req2.deviceId && req1.employeeId == req2.employeeId
    requires IsHrAdmin(t.profiles, uid) && req1.deviceId in t.devices
    ensures var (t1, r1) := Upsert(t, Some(uid), req1, stamp1, Success);
      var (t2, r2) := Upsert(t1, Some(uid), req2, stamp2, Success);
      var key := (req1.deviceId, req1.employeeId);
      && r1.status == 201 && r2.status == 201
      && t2.enrollments.Keys == t.enrollments.Keys + {key}
      && t2.enrollments[key].id == t1.enrollments[key].id
      && t2.enrollments[key].template == req2.template && t2.enrollments[key].enrolledAt == stamp2
  {
    var t1 := Upsert(t, Some(uid), req1, stamp1, Success).0;
    assert t1.profiles == t.profiles && t1.devices == t.devices;
    EnrolledRow(t, Some(uid), req1, stamp1, Success);
  }

  /** Once enrolled on an active device, the employee's scans on that device
      pass both gates of the check-in route. */
  lemma {:induction false} EnrollmentOpensCheckin(t: Tables, uid: Id, req: EnrollRequest, stamp: string)
    requires IsHrAdmin(t.profiles, uid) && Checkin.DeviceActive(t, req.deviceId)
    ensures var t' := Upsert(t, Some(uid), req, stamp, Success).0;
      Checkin.DeviceActive(t', req.deviceId) && Checkin.Enrolled(t', req.deviceId, req.employeeId)
  {
    EnrolledRow(t, Some(uid), req, stamp, Success);
  }

  lemma UpsertKeepsWellFormed(t: Tables, user: Option<Id>, req: EnrollRequest, stamp: string, write: Outcome)
    requires WellFormed(t)
    ensures WellFormed(Upsert(t, user, req, stamp, write).0)
  {
  }

  /** The handler's work once the request time is known. */
  method Write(db: Store, user: Option<Id>, req: EnrollRequest, stamp: string, write: Outcome) returns (resp: Response<Enrollment>)
    modifies db
    ensures (db.Snapshot(), resp) == Upsert(old(db.Snapshot()), user, req, stamp, write)
  {
    if user.None? {
      return Fail(401, "Unauthorized");
    }
    var role := RoleOf(db.profiles, user.value);
    if role != Some("hr_admin") {
      return Fail(403, "Only HR admins can enroll employees");
    }
    if req.deviceId !in db.devices {
      return Fail(404, "Device not found");
    }
    if write.Failure? {
      return Fail(500, write.message);
    }
    var key := (req.deviceId, req.employeeId);
    var id: Id;
    if key in db.enrollments {
      id := db.enrollments[key].id;
    } else {
      id := SerialId(db.nextSerial);
      db.nextSerial := db.nextSerial + 1;
    }
    var data := Enrollment(id, req.deviceId, req.employeeId, "enrolled", req.template, stamp);
    db.enrollments := db.enrollments[key := data];
    resp := Ok(201, data);
  }

  /** The handler: `now` is the request time in milliseconds since the epoch. */
  method Post(db: Store, user: Option<Id>, req: EnrollRequest, now: int, write: Outcome) returns (resp: Response<Enrollment>)
    requires db.Valid()
    modifies db
    ensures db.Valid()
    ensures (db.Snapshot(), resp) == Upsert(old(db.Snapshot()), user, req, IsoTimestamp(now), write)
  {
    var stamp := IsoTimestamp(now);
    UpsertKeepsWellFormed(db.Snapshot(), user, req, stamp, write);
    resp := Write(db, user, req, stamp, write);
  }
}
