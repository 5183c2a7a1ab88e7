/** The database tables the biometric routes read and write, held in memory:
    `attendance_devices`, `device_employees`, `attendance`,
    `biometric_attendance` and `profiles`. */
module BiometricStore {
  import opened Wrappers
  import Strings
  import Lists

  /** Row and user identifiers (UUIDs in the database). */
  type Id = string

  /** The id the database generates for the `n`-th inserted row. */
  function SerialId(n: nat): Id
  {
    Strings.Decimal(n)
  }

  lemma SerialIdInjective(m: nat, n: nat)
    requires SerialId(m) == SerialId(n)
    ensures m == n
  {
    Strings.DecimalInjective(m, n);
  }

  /** A row of `attendance_devices`. */
  datatype Device = Device(name: string, externalId: string, status: string, registeredBy: Id, lastSync: Option<string>)

  /** A row of `device_employees`: an employee enrolled on a device. */
  datatype Enrollment = Enrollment(id: Id, deviceId: Id, employeeId: Id, status: string, template: string, enrolledAt: string)

  /** A row of `attendance`: one employee's record for one calendar day. */
  datatype Attendance = Attendance(
    id: Id, employeeId: Id, date: string, status: string, source: string,
    timeIn: Option<string>, lunchOut: Option<string>, lunchIn: Option<string>, timeOut: Option<string>)

  /** A row of `biometric_attendance`: one scan. */
  datatype Punch = Punch(
    id: Id, deviceId: Id, employeeId: Id, attendanceId: Option<Id>,
    recordType: string, recordedAt: string, confidence: real)

  /** A row of `profiles`. */
  datatype Profile = Profile(
    id: Id, fullName: string, email: string, position: string, department: string,
    photoUrl: Option<string>, role: string)

  /** The tables as values. Devices are keyed by their row id, enrollments by
      (device, employee), attendance rows by (employee, date). */
  datatype Tables = Tables(
    devices: map<Id, Device>,
    enrollments: map<(Id, Id), Enrollment>,
    attendance: map<(Id, string), Attendance>,
    punches: seq<Punch>,
    profiles: seq<Profile>,
    nextSerial: nat)

  /** What the schema guarantees: rows agree with their keys, and no id the
      database will generate later is in use yet (so generated ids are fresh). */
  ghost predicate WellFormed(t: Tables)
  {
    && (forall k :: k in t.enrollments ==> t.enrollments[k].deviceId == k.0 && t.enrollments[k].employeeId == k.1)
    && (forall k :: k in t.attendance ==> t.attendance[k].employeeId == k.0 && t.attendance[k].date == k.1)
    && (forall k1, k2 :: k1 in t.attendance && k2 in t.attendance && t.attendance[k1].id == t.attendance[k2].id ==> k1 == k2)
    && (forall n: nat :: n >= t.nextSerial ==> SerialId(n) !in t.devices)
    && (forall n: nat, k :: n >= t.nextSerial && k in t.attendance ==> t.attendance[k].id != SerialId(n))
  }

  /** The next generated id is not in use and the ones after it stay unused. */
  lemma FreshSerial(t: Tables)
    requires WellFormed(t)
    ensures SerialId(t.nextSerial) !in t.devices
    ensures forall k :: k in t.attendance ==> t.attendance[k].id != SerialId(t.nextSerial)
    ensures forall n: nat :: n > t.nextSerial ==> SerialId(n) != SerialId(t.nextSerial)
  {
    forall n: nat | n > t.nextSerial
      ensures SerialId(n) != SerialId(t.nextSerial)
    {
      if SerialId(n) == SerialId(t.nextSerial) {
        SerialIdInjective(n, t.nextSerial);
      }
    }
  }

  function HasId(uid: Id): Profile -> bool
  {
    (p: Profile) => p.id == uid
  }

  /** The profile rows with that id, in table order. */
  function ProfilesWithId(profiles: seq<Profile>, uid: Id): seq<Profile>
  {
    Lists.Filter(profiles, HasId(uid))
  }

  /** When exactly one row has the id, every row with the id is that row. */
  lemma OnlyRowWithId(profiles: seq<Profile>, uid: Id, i: int)
    requires |ProfilesWithId(profiles, uid)| == 1
    requires 0 <= i < |profiles| && profiles[i].id == uid
    ensures profiles[i] == ProfilesWithId(profiles, uid)[0]
  {
    Lists.FilterMembership(profiles, HasId(uid), profiles[i]);
  }

  /** `profiles.select("role").eq("id", uid).single()`: the role of the one
      profile with that id; none when there is no such row or more than one. */
  function RoleOf(profiles: seq<Profile>, uid: Id): (role: Option<string>)
    ensures role.Some? <==> |ProfilesWithId(profiles, uid)| == 1
    ensures role.Some? ==> exists i :: 0 <= i < |profiles| && profiles[i].id == uid
    ensures role.Some? ==> forall i :: 0 <= i < |profiles| && profiles[i].id == uid ==> profiles[i].role == role.value
  {
    var rows := ProfilesWithId(profiles, uid);
    if |rows| == 1 then
      Lists.FilterMembership(profiles, HasId(uid), rows[0]);
      assert forall i :: 0 <= i < |profiles| && profiles[i].id == uid ==> profiles[i].role == rows[0].role by {
        forall i | 0 <= i < |profiles| && profiles[i].id == uid
          ensures profiles[i].role == rows[0].role
        {
          OnlyRowWithId(profiles, uid, i);
        }
      }
      Some(rows[0].role)
    else None
  }

  /** The caller passes the routes' admin gate. */
  predicate IsHrAdmin(profiles: seq<Profile>, uid: Id)
  {
    RoleOf(profiles, uid) == Some("hr_admin")
  }

  /** The database, updated in place by the route handlers. */
  class Store {
    var devices: map<Id, Device>
    var enrollments: map<(Id, Id), Enrollment>
    var attendance: map<(Id, string), Attendance>
    var punches: seq<Punch>
    var profiles: seq<Profile>
    var nextSerial: nat

    function Snapshot(): Tables
      reads this
    {
      Tables(devices, enrollments, attendance, punches, profiles, nextSerial)
    }

    ghost predicate Valid()
      reads this
    {
      WellFormed(Snapshot())
    }

    /** A database with the given profiles and otherwise empty tables. */
    constructor (profiles: seq<Profile>)
      ensures Valid()
      ensures Snapshot() == Tables(map[], map[], map[], [], profiles, 0)
    {
      devices, enrollments, attendance, punches := map[], map[], map[], [];
      this.profiles, nextSerial := profiles, 0;
    }
  }
}
