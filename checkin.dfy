/** `POST /api/biometric/checkin`: a device reports a scan; the route checks the
    device and the enrollment, finds or opens the employee's attendance row for
    the UTC day, records the scan, and stamps the matching time field. */
module Checkin {
  import opened Wrappers
  import opened Http
  import opened IsoTime
  import opened BiometricStore

  /** The JSON body: `device_id`, `employee_id`, `record_type`, `confidence_score`. */
  datatype PunchRequest = PunchRequest(deviceId: Id, employeeId: Id, recordType: string, confidence: real)

  /** How the three writes turn out: the insert of a new attendance row, the
      insert of the scan, and the update of the time field. */
  datatype Faults = Faults(attendanceInsert: Outcome, punchInsert: Outcome, fieldUpdate: Outcome)

  /** The record types that stamp a field of the attendance row. */
  const Kinds: seq<string> := ["time_in", "lunch_out", "lunch_in", "time_out"]

  /** Lines 10-17: a device row with that id and status "active". */
  predicate DeviceActive(t: Tables, device: Id)
  {
    device in t.devices && t.devices[device].status == "active"
  }

  /** Lines 22-30: an enrollment of the employee on the device with status "enrolled". */
  predicate Enrolled(t: Tables, device: Id, employee: Id)
  {
    (device, employee) in t.enrollments && t.enrollments[(device, employee)].status == "enrolled"
  }

  /** The attendance row a scan at time `stamp` (an ISO timestamp) belongs to. */
  function DayKey(req: PunchRequest, stamp: string): (Id, string)
  {
    (req.employeeId, DatePart(stamp))
  }

  /** The row lines 46-55 insert: present, from the biometric source, nothing stamped yet. */
  function NewDayRow(t: Tables, key: (Id, string)): Attendance
  {
    Attendance(SerialId(t.nextSerial), key.0, key.1, "present", "biometric", None, None, None, None)
  }

  /** Lines 38-57: the id of the day's row, inserting the row when there is none.
      A failed insert leaves the tables alone and no id. */
  function OpenDay(t: Tables, key: (Id, string), insert: Outcome): (r: (Tables, Option<Id>))
    ensures r.1.Some? <==> key in r.0.attendance
    ensures r.1.Some? ==> r.0.attendance[key].id == r.1.value
  {
    if key in t.attendance then (t, Some(t.attendance[key].id))
    else if insert.Failure? then (t, None)
    else
      var row := NewDayRow(t, key);
      (t.(attendance := t.attendance[key := row], nextSerial := t.nextSerial + 1), Some(row.id))
  }

  /** The `updateData` object of lines 76-80: which time fields to set. */
  datatype FieldUpdate = FieldUpdate(timeIn: Option<string>, lunchOut: Option<string>, lunchIn: Option<string>, timeOut: Option<string>)

  function UpdateFor(kind: string, stamp: string): FieldUpdate
  {
    FieldUpdate(
      if kind == "time_in" then Some(stamp) else None,
      if kind == "lunch_out" then Some(stamp) else None,
      if kind == "lunch_in" then Some(stamp) else None,
      if kind == "time_out" then Some(stamp) else None)
  }

  /** `Object.keys(updateData).length > 0` fails. */
  predicate IsEmpty(u: FieldUpdate)
  {
    u.timeIn.None? && u.lunchOut.None? && u.lunchIn.None? && u.timeOut.None?
  }

  /** The row after the update: the fields the update names, the rest as they were. */
  function Apply(row: Attendance, u: FieldUpdate): Attendance
  {
    row.(
      timeIn := if u.timeIn.Some? then u.timeIn else row.timeIn,
      lunchOut := if u.lunchOut.Some? then u.lunchOut else row.lunchOut,
      lunchIn := if u.lunchIn.Some? then u.lunchIn else row.lunchIn,
      timeOut := if u.timeOut.Some? then u.timeOut else row.timeOut)
  }

  /** The time column a record type names, read from a row. */
  function Stamp(row: Attendance, kind: string): Option<string>
  {
    if kind == "time_in" then row.timeIn
    else if kind == "lunch_out" then row.lunchOut
    else if kind == "lunch_in" then row.lunchIn
    else if kind == "time_out" then row.timeOut
    else None
  }

  /** The whole request as a step on the tables: the new tables and the response. */
  function Ingest(t: Tables, req: PunchRequest, stamp: string, f: Faults): (r: (Tables, Response<Punch>))
    ensures r.1.status in {201, 403, 404, 500}
    ensures r.0.devices == t.devices && r.0.enrollments == t.enrollments && r.0.profiles == t.profiles
  {
    if !DeviceActive(t, req.deviceId) then (t, Fail(404, "Device not found or inactive"))
    else if !Enrolled(t, req.deviceId, req.employeeId) then (t, Fail(403, "Employee not enrolled on this device"))
    else
      var key := DayKey(req, stamp);
      var (t1, attendanceId) := OpenDay(t, key, f.attendanceInsert);
      if f.punchInsert.Failure? then (t1, Fail(500, f.punchInsert.message))
      else
        var punch := Punch(SerialId(t1.nextSerial), req.deviceId, req.employeeId, attendanceId,
                           req.recordType, stamp, req.confidence);
        var t2 := t1.(punches := t1.punches + [punch], nextSerial := t1.nextSerial + 1);
        var u := UpdateFor(req.recordType, stamp);
        var t3 := if !IsEmpty(u) && attendanceId.Some? && f.fieldUpdate.Success?
                  then t2.(attendance := t2.attendance[key := Apply(t2.attendance[key], u)])
                  else t2;
        (t3, Ok(201, punch))
  }

  /** The scan is recorded, with status 201, exactly when the device is active,
      the employee is enrolled on it and the insert succeeds; a recorded scan
      is appended to the log with the request's fields and the request time,
      and a rejected one leaves the log as it was. */
  lemma RecordedExactlyWhenAccepted(t: Tables, req: PunchRequest, stamp: string, f: Faults)
    ensures var (t', r) := Ingest(t, req, stamp, f);
      (r.status == 201 <==> DeviceActive(t, req.deviceId) && Enrolled(t, req.deviceId, req.employeeId) && f.punchInsert.Success?)
      && (r.status == 201 ==>
            && r.body.Data?
            && t'.punches == t.punches + [r.body.value]
            && r.body.value.deviceId == req.deviceId && r.body.value.employeeId == req.employeeId
            && r.body.value.recordType == req.recordType && r.body.value.confidence == req.confidence
            && r.body.value.recordedAt == stamp)
      && (r.status != 201 ==> t'.punches == t.punches && t'.devices == t.devices)
  {
  }

  /** The device gate comes first: an unknown or inactive device answers 404
      whatever the enrollment; an active device without an enrollment answers
      403; either way nothing at all is written. */
  lemma GatesWriteNothing(t: Tables, req: PunchRequest, stamp: string, f: Faults)
    ensures !DeviceActive(t, req.deviceId) ==>
      Ingest(t, req, stamp, f) == (t, Fail(404, "Device not found or inactive"))
    ensures DeviceActive(t, req.deviceId) && !Enrolled(t, req.deviceId, req.employeeId) ==>
      Ingest(t, req, stamp, f) == (t, Fail(403, "Employee not enrolled on this device"))
    ensures Ingest(t, req, stamp, f).1.status in {403, 404} <==>
      !DeviceActive(t, req.deviceId) || !Enrolled(t, req.deviceId, req.employeeId)
  {
  }

  /** Devices, enrollments and profiles are never written, and no attendance
      row other than the day's row of the scanning employee changes. */
  lemma OnlyTheDayRowChanges(t: Tables, req: PunchRequest, stamp: string, f: Faults)
    ensures var t' := Ingest(t, req, stamp, f).0;
      && t'.devices == t.devices && t'.enrollments == t.enrollments && t'.profiles == t.profiles
      && t'.attendance.Keys <= t.attendance.Keys + {DayKey(req, stamp)}
      && (forall k :: k in t.attendance && k != DayKey(req, stamp) ==> k in t'.attendance && t'.attendance[k] == t.attendance[k])
  {
    if DeviceActive(t, req.deviceId) && Enrolled(t, req.deviceId, req.employeeId) {
      var key := DayKey(req, stamp);
      var t1 := OpenDay(t, key, f.attendanceInsert).0;
      assert t1.attendance.Keys <= t.attendance.Keys + {key};
      assert forall k :: k in t.attendance && k != key ==> k in t1.attendance && t1.attendance[k] == t.attendance[k];
    }
  }

  /** A second scan on the same day reuses the day's row: no row is added and
      the scan points at the existing row. */
  lemma DayRowReused(t: Tables, req: PunchRequest, stamp: string, f: Faults)
    requires DeviceActive(t, req.deviceId) && Enrolled(t, req.deviceId, req.employeeId)
    requires DayKey(req, stamp) in t.attendance
    ensures var (t', r) := Ingest(t, req, stamp, f);
      && t'.attendance.Keys == t.attendance.Keys
      && t'.attendance[DayKey(req, stamp)].id == t.attendance[DayKey(req, stamp)].id
      && (r.body.Data? ==> r.body.value.attendanceId == Some(t.attendance[DayKey(req, stamp)].id))
  {
  }

  /** The first scan of the day opens a row (unless that insert fails, in
      which case the scan is recorded without a row): the row is for the
      employee and the day, status "present", source "biometric". */
  lemma DayRowOpened(t: Tables, req: PunchRequest, stamp: string, f: Faults)
    requires DeviceActive(t, req.deviceId) && Enrolled(t, req.deviceId, req.employeeId)
    requires DayKey(req, stamp) !in t.attendance
    ensures var (t', r) := Ingest(t, req, stamp, f);
      && (f.attendanceInsert.Success? ==>
            && t'.attendance.Keys == t.attendance.Keys + {DayKey(req, stamp)}
            && var row := t'.attendance[DayKey(req, stamp)];
               row.employeeId == req.employeeId && row.date == DatePart(stamp)
               && row.status == "present" && row.source == "biometric"
               && (r.body.Data? ==> r.body.value.attendanceId == Some(row.id)))
      && (f.attendanceInsert.Failure? ==>
            t'.attendance == t.attendance && (r.body.Data? ==> r.body.value.attendanceId.None?))
  {
  }

  /** The row the scan finds before any field is stamped. */
  function RowBefore(t: Tables, key: (Id, string)): Attendance
  {
    if key in t.attendance then t.attendance[key] else NewDayRow(t, key)
  }

  /** A recorded scan of one of the four kinds stamps that kind's field of the
      day's row with the request time and leaves the other three fields, the
      id, the status and the source as they were. */
  lemma ScanStampsItsField(t: Tables, req: PunchRequest, stamp: string, f: Faults)
    requires DeviceActive(t, req.deviceId) && Enrolled(t, req.deviceId, req.employeeId)
    requires DayKey(req, stamp) in t.attendance || f.attendanceInsert.Success?
    requires f.punchInsert.Success? && f.fieldUpdate.Success?
    requires req.recordType in Kinds
    ensures var key := DayKey(req, stamp);
      var row := Ingest(t, req, stamp, f).0.attendance[key];
      var before := RowBefore(t, key);
      && Stamp(row, req.recordType) == Some(stamp)
      && (forall other :: other in Kinds && other != req.recordType ==> Stamp(row, other) == Stamp(before, other))
      && row.id == before.id && row.status == before.status && row.source == before.source
  {
  }

  /** Any other record type is logged but stamps nothing. */
  lemma UnknownKindStampsNothing(t: Tables, req: PunchRequest, stamp: string, f: Faults)
    requires DeviceActive(t, req.deviceId) && Enrolled(t, req.deviceId, req.employeeId)
    requires req.recordType !in Kinds
    ensures Ingest(t, req, stamp, f).0.attendance == OpenDay(t, DayKey(req, stamp), f.attendanceInsert).0.attendance
  {
  }

  /** The outcome of the field update is not looked at: the response is the
      same whether it succeeds or fails. */
  lemma ResponseIgnoresFieldUpdate(t: Tables, req: PunchRequest, stamp: string, f: Faults, u: Outcome)
    ensures Ingest(t, req, stamp, f).1 == Ingest(t, req, stamp, f.(fieldUpdate := u)).1
  {
  }

  /** A failed scan insert answers 500 with the database's message; a row opened
      just before stays, and nothing is stamped. */
  lemma PunchFailureStampsNothing(t: Tables, req: PunchRequest, stamp: string, f: Faults)
    requires DeviceActive(t, req.deviceId) && Enrolled(t, req.deviceId, req.employeeId)
    requires f.punchInsert.Failure?
    ensures Ingest(t, req, stamp, f) == (OpenDay(t, DayKey(req, stamp), f.attendanceInsert).0, Fail(500, f.punchInsert.message))
  {
  }

  /** Opening the day's row keeps the tables well formed, only ever adds the
      day's key, and changes no other table. */
  lemma OpenDayKeepsWellFormed(t: Tables, key: (Id, string), insert: Outcome)
    requires WellFormed(t)
    ensures WellFormed(OpenDay(t, key, insert).0)
  {
    FreshSerial(t);
  }

  /** Counting a generated id, and appending scans, keeps the tables well formed. */
  lemma BumpKeepsWellFormed(t: Tables, punches: seq<Punch>)
    requires WellFormed(t)
    ensures WellFormed(t.(punches := punches, nextSerial := t.nextSerial + 1))
  {
  }

  /** Replacing a row by one with the same id, employee and date keeps the
      tables well formed. */
  lemma ReplaceRowKeepsWellFormed(t: Tables, key: (Id, string), row: Attendance)
    requires WellFormed(t) && key in t.attendance
    requires row.id == t.attendance[key].id
    requires row.employeeId == key.0 && row.date == key.1
    ensures WellFormed(t.(attendance := t.attendance[key := row]))
  {
    var a := t.attendance[key := row];
    assert forall k :: k in a ==> a[k].id == t.attendance[k].id;
  }

  /** Stamping time fields of an existing row keeps the tables well formed. */
  lemma StampKeepsWellFormed(t: Tables, key: (Id, string), u: FieldUpdate)
    requires WellFormed(t) && key in t.attendance
    ensures WellFormed(t.(attendance := t.attendance[key := Apply(t.attendance[key], u)]))
  {
    ReplaceRowKeepsWellFormed(t, key, Apply(t.attendance[key], u));
  }

  /** The step keeps the tables well formed. */
  lemma IngestKeepsWellFormed(t: Tables, req: PunchRequest, stamp: string, f: Faults)
    requires WellFormed(t)
    ensures WellFormed(Ingest(t, req, stamp, f).0)
  {
    if DeviceActive(t, req.deviceId) && Enrolled(t, req.deviceId, req.employeeId) {
      var key := DayKey(req, stamp);
      var (t1, attendanceId) := OpenDay(t, key, f.attendanceInsert);
      OpenDayKeepsWellFormed(t, key, f.attendanceInsert);
      if f.punchInsert.Success? {
        var punch := Punch(SerialId(t1.nextSerial), req.deviceId, req.employeeId, attendanceId,
                           req.recordType, stamp, req.confidence);
        var t2 := t1.(punches := t1.punches + [punch], nextSerial := t1.nextSerial + 1);
        BumpKeepsWellFormed(t1, t1.punches + [punch]);
        var u := UpdateFor(req.recordType, stamp);
        if !IsEmpty(u) && attendanceId.Some? && f.fieldUpdate.Success? {
          StampKeepsWellFormed(t2, key, u);
        }
      }
    }
  }

  /** Every scan succeeds. */
  const AllGood := Faults(Success, Success, Success)

  /** A day of two scans, time in and then time out, on a device the employee
      is enrolled on: one row for the day holds both times and nothing else. */
  lemma {:induction false} TimeInThenTimeOut(t: Tables, device: Id, employee: Id, stamp1: string, stamp2: string)
    requires DeviceActive(t, device) && Enrolled(t, device, employee)
    requires DatePart(stamp1) == DatePart(stamp2)
    requires (employee, DatePart(stamp1)) !in t.attendance
    ensures var s1 := Ingest(t, PunchRequest(device, employee, "time_in", 1.0), stamp1, AllGood);
      var s2 := Ingest(s1.0, PunchRequest(device, employee, "time_out", 1.0), stamp2, AllGood);
      var key := (employee, DatePart(stamp1));
      && s1.1.status == 201 && s2.1.status == 201
      && s2.0.attendance.Keys == t.attendance.Keys + {key}
      && s2.0.attendance[key].timeIn == Some(stamp1)
      && s2.0.attendance[key].timeOut == Some(stamp2)
      && s2.0.attendance[key].lunchOut.None? && s2.0.attendance[key].lunchIn.None?
      && |s2.0.punches| == |t.punches| + 2
  {
    var in1 := PunchRequest(device, employee, "time_in", 1.0);
    var out2 := PunchRequest(device, employee, "time_out", 1.0);
    var s1 := Ingest(t, in1, stamp1, AllGood);
    ScanStampsItsField(t, in1, stamp1, AllGood);
    OnlyTheDayRowChanges(t, in1, stamp1, AllGood);
    DayRowOpened(t, in1, stamp1, AllGood);
    RecordedExactlyWhenAccepted(t, in1, stamp1, AllGood);
    assert DeviceActive(s1.0, device) && Enrolled(s1.0, device, employee);
    ScanStampsItsField(s1.0, out2, stamp2, AllGood);
    DayRowReused(s1.0, out2, stamp2, AllGood);
    RecordedExactlyWhenAccepted(s1.0, out2, stamp2, AllGood);
  }

  /** Two scans of the same kind on one day, the first of them opening the
      day's row or finding it: the later time wins. */
  lemma {:induction false} RepeatedKindOverwrites(t: Tables, req: PunchRequest, stamp1: string, stamp2: string)
    requires DeviceActive(t, req.deviceId) && Enrolled(t, req.deviceId, req.employeeId)
    requires DatePart(stamp1) == DatePart(stamp2)
    requires req.recordType in Kinds
    ensures var s1 := Ingest(t, req, stamp1, AllGood).0;
      var s2 := Ingest(s1, req, stamp2, AllGood).0;
      && DayKey(req, stamp1) in s2.attendance
      && Stamp(s2.attendance[DayKey(req, stamp1)], req.recordType) == Some(stamp2)
  {
    var s1 := Ingest(t, req, stamp1, AllGood).0;
    OnlyTheDayRowChanges(t, req, stamp1, AllGood);
    if DayKey(req, stamp1) in t.attendance {
      DayRowReused(t, req, stamp1, AllGood);
    } else {
      DayRowOpened(t, req, stamp1, AllGood);
    }
    assert DeviceActive(s1, req.deviceId) && Enrolled(s1, req.deviceId, req.employeeId);
    assert DayKey(req, stamp2) in s1.attendance;
    ScanStampsItsField(s1, req, stamp2, AllGood);
  }

  /** Lines 38-57 against the database: find the day's row or insert it. */
  method OpenDayIn(db: Store, key: (Id, string), insert: Outcome) returns (attendance: Option<Id>)
    modifies db
    ensures (db.Snapshot(), attendance) == OpenDay(old(db.Snapshot()), key, insert)
  {
    if key in db.attendance {
      attendance := Some(db.attendance[key].id);
    } else if insert.Success? {
      var row := Attendance(SerialId(db.nextSerial), key.0, key.1, "present", "biometric", None, None, None, None);
      db.attendance := db.attendance[key := row];
      db.nextSerial := db.nextSerial + 1;
      attendance := Some(row.id);
    } else {
      attendance := None;
    }
  }

  /** Lines 76-80: the fields a record type stamps. */
  method BuildUpdate(recordType: string, stamp: string) returns (updateData: FieldUpdate)
    ensures updateData == UpdateFor(recordType, stamp)
    ensures IsEmpty(updateData) <==> recordType !in Kinds
  {
    updateData := FieldUpdate(None, None, None, None);
    if recordType == "time_in" { updateData := updateData.(timeIn := Some(stamp)); }
    if recordType == "lunch_out" { updateData := updateData.(lunchOut := Some(stamp)); }
    if recordType == "lunch_in" { updateData := updateData.(lunchIn := Some(stamp)); }
    if recordType == "time_out" { updateData := updateData.(timeOut := Some(stamp)); }
  }

  /** The handler's work once the request time is known. */
  method Record(db: Store, req: PunchRequest, stamp: string, f: Faults) returns (resp: Response<Punch>)
    modifies db
    ensures (db.Snapshot(), resp) == Ingest(old(db.Snapshot()), req, stamp, f)
  {
    if !(req.deviceId in db.devices && db.devices[req.deviceId].status == "active") {
      return Fail(404, "Device not found or inactive");
    }
    var pair := (req.deviceId, req.employeeId);
    if !(pair in db.enrollments && db.enrollments[pair].status == "enrolled") {
      return Fail(403, "Employee not enrolled on this device");
    }
    var today := DatePart(stamp);
    var key := (req.employeeId, today);
    var attendance := OpenDayIn(db, key, f.attendanceInsert);
    ghost var t1 := db.Snapshot();
    if f.punchInsert.Failure? {
      return Fail(500, f.punchInsert.message);
    }
    var bioRecord := Punch(SerialId(db.nextSerial), req.deviceId, req.employeeId, attendance, req.recordType, stamp, req.confidence);
    db.punches := db.punches + [bioRecord];
    db.nextSerial := db.nextSerial + 1;
    ghost var t2 := db.Snapshot();
    assert t2 == t1.(punches := t1.punches + [bioRecord], nextSerial := t1.nextSerial + 1);
    var updateData := BuildUpdate(req.recordType, stamp);
    if !IsEmpty(updateData) && attendance.Some? && f.fieldUpdate.Success? {
      db.attendance := db.attendance[key := Apply(db.attendance[key], updateData)];
    }
    resp := Ok(201, bioRecord);
  }

  /** The handler: `now` is the request time in milliseconds since the epoch. */
  method Post(db: Store, req: PunchRequest, now: int, f: Faults) returns (resp: Response<Punch>)
    requires db.Valid()
    modifies db
    ensures db.Valid()
    ensures (db.Snapshot(), resp) == Ingest(old(db.Snapshot()), req, IsoTimestamp(now), f)
  {
    var stamp := IsoTimestamp(now);
    IngestKeepsWellFormed(db.Snapshot(), req, stamp, f);
    resp := Record(db, req, stamp, f);
  }
}
