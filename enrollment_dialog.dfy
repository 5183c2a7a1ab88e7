/** The dialog that lists the employees of one biometric device and enrols
    them: it derives each employee's enrollment status, shows an "Enroll"
    button for those not yet enrolled or pending, and tracks which employee's
    enroll request is in flight. */
module EnrollmentDialog {
  import opened Wrappers
  import opened BiometricStore
  import Enroll
  import Checkin

  /** An employee as the listing route returns it; `enrollmentStatuses` are the
      embedded `device_employees` entries in the order the response lists them
      (absent when the response has no such field). */
  datatype DialogEmployee = DialogEmployee(
    id: string, fullName: string, position: string, email: string,
    enrollmentStatuses: Option<seq<string>>)

  /** `getEnrollmentStatus`: the first entry's status, or "not_enrolled". */
  function EnrollmentStatus(e: DialogEmployee): (r: string)
    ensures r == "not_enrolled" || (e.enrollmentStatuses.Some? && r in e.enrollmentStatuses.value)
  {
    if e.enrollmentStatuses.None? || e.enrollmentStatuses.value == [] then "not_enrolled"
    else e.enrollmentStatuses.value[0]
  }

  /** Lines 132-152: the badge for "enrolled" and "pending", the button otherwise. */
  predicate ShowsEnrollButton(status: string)
    ensures status == "not_enrolled" ==> ShowsEnrollButton(status)
  {
    status != "enrolled" && status != "pending"
  }

  /** The button is shown exactly for an employee without entries or whose
      first entry is neither enrolled nor pending. */
  lemma EnrollButtonExactly(e: DialogEmployee)
    ensures ShowsEnrollButton(EnrollmentStatus(e)) <==>
      e.enrollmentStatuses.None? || e.enrollmentStatuses.value == [] ||
      (e.enrollmentStatuses.value[0] != "enrolled" && e.enrollmentStatuses.value[0] != "pending")
    ensures EnrollmentStatus(e) == "not_enrolled" <==>
      e.enrollmentStatuses.None? || e.enrollmentStatuses.value == [] || e.enrollmentStatuses.value[0] == "not_enrolled"
  {
  }

  /** The body of the enroll request of lines 65-73. */
  function EnrollBody(deviceId: Id, employeeId: Id): (req: Enroll.EnrollRequest)
    ensures req.deviceId == deviceId && req.employeeId == employeeId && req.template == "mock_template"
  {
    Enroll.EnrollRequest(deviceId, employeeId, "mock_template", None)
  }

  /** An HR admin's click on "Enroll" for an existing device enrols the
      employee with the placeholder template, and, on an active device, the
      employee's punches are then accepted. */
  lemma {:induction false} ClickEnrols(t: Tables, uid: Id, deviceId: Id, employeeId: Id, stamp: string)
    requires IsHrAdmin(t.profiles, uid) && deviceId in t.devices
    ensures var (t', r) := Enroll.Upsert(t, Some(uid), EnrollBody(deviceId, employeeId), stamp, Success);
      && r.status == 201
      && (deviceId, employeeId) in t'.enrollments
      && t'.enrollments[(deviceId, employeeId)].template == "mock_template"
      && t'.enrollments[(deviceId, employeeId)].status == "enrolled"
    ensures Checkin.DeviceActive(t, deviceId) ==>
      Checkin.Enrolled(Enroll.Upsert(t, Some(uid), EnrollBody(deviceId, employeeId), stamp, Success).0, deviceId, employeeId)
  {
    var req := EnrollBody(deviceId, employeeId);
    Enroll.GatesInOrder(t, Some(uid), req, stamp, Success);
    Enroll.EnrolledRow(t, Some(uid), req, stamp, Success);
    if Checkin.DeviceActive(t, deviceId) {
      Enroll.EnrollmentOpensCheckin(t, uid, req, stamp);
    }
  }

  /** The dialog's state for one device. */
  class Dialog {
    const deviceId: Id
    var employees: seq<DialogEmployee>
    var loading: bool
    var enrolling: Option<Id>

    constructor (deviceId: Id)
      ensures this.deviceId == deviceId && employees == [] && loading && enrolling.None?
    {
      this.deviceId := deviceId;
      employees, loading, enrolling := [], true, None;
    }

    /** Line 146: an employee's button is disabled while its request is in flight. */
    predicate ButtonDisabled(employeeId: Id)
      reads this
    {
      enrolling == Some(employeeId)
    }

    /** `fetchEmployees` up to its `await`: the skeleton is shown. */
    method BeginFetch()
      modifies this
      ensures loading && employees == old(employees) && enrolling == old(enrolling)
    {
      loading := true;
    }

    /** `fetchEmployees` after the response: the list is replaced when the
        request succeeded (`data` is its rows) and kept otherwise; `loading`
        ends false either way. */
    method EndFetch(data: Option<seq<DialogEmployee>>)
      modifies this
      ensures employees == (if data.Some? then data.value else old(employees))
      ensures !loading && enrolling == old(enrolling)
    {
      if data.Some? {
        employees := data.value;
      }
      loading := false;
    }

    /** `handleEnroll` up to its `await`: the employee's button is disabled and
        the request is sent. */
    method BeginEnroll(employeeId: Id) returns (request: Enroll.EnrollRequest)
      modifies this
      ensures ButtonDisabled(employeeId)
      ensures request == EnrollBody(deviceId, employeeId)
      ensures employees == old(employees) && loading == old(loading)
    {
      enrolling := Some(employeeId);
      request := EnrollBody(deviceId, employeeId);
    }

    /** `handleEnroll` after the response: only a successful enroll starts a
        refetch (whose first step sets `loading`), and `enrolling` is cleared
        whether the request succeeded or not. */
    method EndEnroll(ok: bool) returns (refetch: bool)
      modifies this
      ensures refetch == ok
      ensures enrolling.None? && forall id :: !ButtonDisabled(id)
      ensures loading == (ok || old(loading)) && employees == old(employees)
    {
      if ok {
        BeginFetch();
      }
      enrolling := None;
      refetch := ok;
    }
  }
}
