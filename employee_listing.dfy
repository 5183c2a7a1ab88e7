/** `GET /api/biometric/employees`: the employees with their device
    enrollments, for an HR admin, optionally restricted to one device. */
module EmployeeListing {
  import opened Wrappers
  import opened Http
  import opened BiometricStore
  import Lists

  /** One embedded `device_employees(id, enrollment_status)` entry. */
  datatype EmbeddedEnrollment = EmbeddedEnrollment(id: Id, status: string)

  /** One returned profile: the selected columns and the embedded enrollments.
      The order of the embedded entries is not specified, so they form a set. */
  datatype EmployeeRow = EmployeeRow(
    id: Id, fullName: string, email: string, position: string, department: string,
    photoUrl: Option<string>, enrollments: set<EmbeddedEnrollment>)

  /** `if (device_id)`: the filter applies only to a present, non-empty parameter. */
  function DeviceFilter(param: Option<string>): (device: Option<Id>)
    ensures device.Some? <==> param.Some? && param.value != ""
    ensures device.Some? ==> device == param
  {
    if param.Some? && param.value != "" then param else None
  }

  /** The employee's enrollments, restricted to one device when a filter is given. */
  function Embedded(t: Tables, employee: Id, device: Option<Id>): set<EmbeddedEnrollment>
  {
    set k | k in t.enrollments && k.1 == employee && (device.None? || k.0 == device.value)
      :: EmbeddedEnrollment(t.enrollments[k].id, t.enrollments[k].status)
  }

  predicate IsEmployee(p: Profile)
  {
    p.role == "employee"
  }

  function RowFor(t: Tables, device: Option<Id>, p: Profile): EmployeeRow
  {
    EmployeeRow(p.id, p.fullName, p.email, p.position, p.department, p.photoUrl, Embedded(t, p.id, device))
  }

  /** The query result: every profile with role "employee", in table order,
      with its embedded enrollments. */
  function Listing(t: Tables, device: Option<Id>): (r: seq<EmployeeRow>)
    ensures |r| <= |t.profiles|
  {
    Lists.Map(Lists.Filter(t.profiles, IsEmployee), (p: Profile) => RowFor(t, device, p))
  }

  /** The whole request: the session, the role, then the query. */
  function Answer(t: Tables, user: Option<Id>, param: Option<string>, query: Outcome): (r: Response<seq<EmployeeRow>>)
    ensures r.status in {200, 401, 403, 500}
    ensures r.status == 200 ==> r.body.Data? && |r.body.value| <= |t.profiles|
  {
    if user.None? then Fail(401, "Unauthorized")
    else if !IsHrAdmin(t.profiles, user.value) then Fail(403, "Only HR admins can access this")
    else if query.Failure? then Fail(500, query.message)
    else Ok(200, Listing(t, DeviceFilter(param)))
  }

  /** The session is checked first (401), then the role (403), then the
      query (500 with its message); only a signed-in HR admin whose query
      succeeds gets the listing. */
  lemma GatesInOrder(t: Tables, user: Option<Id>, param: Option<string>, query: Outcome)
    ensures user.None? ==> Answer(t, user, param, query) == Fail(401, "Unauthorized")
    ensures user.Some? && !IsHrAdmin(t.profiles, user.value) ==>
      Answer(t, user, param, query) == Fail(403, "Only HR admins can access this")
    ensures user.Some? && IsHrAdmin(t.profiles, user.value) && query.Failure? ==>
      Answer(t, user, param, query) == Fail(500, query.message)
    ensures Answer(t, user, param, query).status == 200 <==>
      user.Some? && IsHrAdmin(t.profiles, user.value) && query.Success?
  {
  }

  /** The listing holds exactly the employee profiles: each row is an employee
      profile of the table, and each employee profile has a row. */
  lemma {:induction false} ListingIsTheEmployees(t: Tables, device: Option<Id>)
    ensures forall r :: r in Listing(t, device) ==>
      exists p :: p in t.profiles && IsEmployee(p) && r == RowFor(t, device, p)
    ensures forall p :: p in t.profiles && IsEmployee(p) ==> RowFor(t, device, p) in Listing(t, device)
    ensures |Listing(t, device)| <= |t.profiles|
  {
    var employees := Lists.Filter(t.profiles, IsEmployee);
    var l := Listing(t, device);
    forall r | r in l
      ensures exists p :: p in t.profiles && IsEmployee(p) && r == RowFor(t, device, p)
    {
      var i :| 0 <= i < |l| && l[i] == r;
      Lists.FilterMembership(t.profiles, IsEmployee, employees[i]);
    }
    forall p | p in t.profiles && IsEmployee(p)
      ensures RowFor(t, device, p) in l
    {
      Lists.FilterMembership(t.profiles, IsEmployee, p);
      var i :| 0 <= i < |employees| && employees[i] == p;
      assert l[i] == RowFor(t, device, p);
    }
  }

  /** With a device filter an employee carries at most one enrollment: the one
      for that device, if there is one. */
  lemma DeviceFilterLeavesAtMostOne(t: Tables, employee: Id, device: Id)
    ensures Embedded(t, employee, Some(device)) ==
      if (device, employee) in t.enrollments
      then {EmbeddedEnrollment(t.enrollments[(device, employee)].id, t.enrollments[(device, employee)].status)}
      else {}
    ensures |Embedded(t, employee, Some(device))| <= 1
  {
    var key := (device, employee);
    if key in t.enrollments {
      var e := EmbeddedEnrollment(t.enrollments[key].id, t.enrollments[key].status);
      assert e in Embedded(t, employee, Some(device));
    }
  }

  /** The filter only narrows: without it every enrollment of the employee is
      embedded, with it a subset; an employee is listed whether or not it has
      an enrollment on the filtered device. */
  lemma FilterOnlyNarrows(t: Tables, employee: Id, device: Id)
    ensures Embedded(t, employee, Some(device)) <= Embedded(t, employee, None)
    ensures forall k :: k in t.enrollments && k.1 == employee ==>
      EmbeddedEnrollment(t.enrollments[k].id, t.enrollments[k].status) in Embedded(t, employee, None)
  {
  }

  /** The handler. It reads the database and changes nothing. */
  method Get(db: Store, user: Option<Id>, param: Option<string>, query: Outcome) returns (resp: Response<seq<EmployeeRow>>)
    ensures resp == Answer(db.Snapshot(), user, param, query)
    ensures resp.status == 200 ==>
              resp.body.Data? && forall r :: r in resp.body.value ==> exists p :: p in db.profiles && IsEmployee(p) && r.id == p.id
  {
    if user.None? {
      return Fail(401, "Unauthorized");
    }
    var role := RoleOf(db.profiles, user.value);
    if role != Some("hr_admin") {
      return Fail(403, "Only HR admins can access this");
    }
    var device: Option<Id> := None;
    if param.Some? && param.value != "" {
      device := param;
    }
    if query.Failure? {
      return Fail(500, query.message);
    }
    ListingIsTheEmployees(db.Snapshot(), device);
    resp := Ok(200, Listing(db.Snapshot(), device));
  }
}
