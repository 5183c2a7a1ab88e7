/** The 201-files dashboard's list logic: the search and filter over the
    employees it is given, the department choices and the headline counts. */
module FilesDashboard {
  import opened Wrappers
  import opened Strings
  import Lists

  /** The fields of an employee the dashboard reads. */
  datatype Employee = Employee(
    id: string, fullName: string, email: string, position: string, department: string,
    employmentStatus: Option<string>)

  /** Lines 40-46: the search term against name or e-mail, ignoring case, and
      the two drop-downs, where "all" matches everything. */
  predicate Keeps(e: Employee, searchTerm: string, departmentFilter: string, statusFilter: string)
  {
    && (ContainsIgnoringCase(e.fullName, searchTerm) || ContainsIgnoringCase(e.email, searchTerm))
    && (departmentFilter == "all" || e.department == departmentFilter)
    && (statusFilter == "all" || e.employmentStatus == Some(statusFilter))
  }

  /** `filteredEmployees`. */
  function Filtered(employees: seq<Employee>, searchTerm: string, departmentFilter: string, statusFilter: string): (r: seq<Employee>)
    ensures |r| <= |employees|
    ensures forall i :: 0 <= i < |r| ==> Keeps(r[i], searchTerm, departmentFilter, statusFilter)
  {
    Lists.Filter(employees, (e: Employee) => Keeps(e, searchTerm, departmentFilter, statusFilter))
  }

  /** An employee is shown exactly when it is in the list and passes the three
      tests, and the shown list keeps the list's order. */
  lemma FilteredExactly(employees: seq<Employee>, searchTerm: string, departmentFilter: string, statusFilter: string, e: Employee)
    ensures e in Filtered(employees, searchTerm, departmentFilter, statusFilter) <==>
      e in employees && Keeps(e, searchTerm, departmentFilter, statusFilter)
    ensures Lists.IsSubsequence(Filtered(employees, searchTerm, departmentFilter, statusFilter), employees)
  {
    var p := (x: Employee) => Keeps(x, searchTerm, departmentFilter, statusFilter);
    Lists.FilterMembership(employees, p, e);
    Lists.FilterIsSubsequence(employees, p);
  }

  /** The initial state, an empty search with both filters on "all", shows
      every employee. */
  lemma NoFilterShowsAll(employees: seq<Employee>)
    ensures Filtered(employees, "", "all", "all") == employees
  {
    forall i | 0 <= i < |employees| ensures Keeps(employees[i], "", "all", "all") {
      ContainsEmpty(employees[i].fullName);
    }
    Lists.FilterAll(employees, (x: Employee) => Keeps(x, "", "all", "all"));
  }

  /** Narrowing the search by a department keeps a subset of what the search
      alone shows. */
  lemma DepartmentNarrows(employees: seq<Employee>, searchTerm: string, department: string, statusFilter: string, e: Employee)
    requires e in Filtered(employees, searchTerm, department, statusFilter)
    ensures e in Filtered(employees, searchTerm, "all", statusFilter)
    ensures e.department == department || department == "all"
  {
    FilteredExactly(employees, searchTerm, department, statusFilter, e);
    FilteredExactly(employees, searchTerm, "all", statusFilter, e);
  }

  function DepartmentOf(e: Employee): string
  {
    e.department
  }

  predicate NonEmpty(s: string)
  {
    s != ""
  }

  /** Every department as listed, in list order. */
  function DepartmentColumn(employees: seq<Employee>): seq<string>
  {
    Lists.Map(employees, DepartmentOf)
  }

  /** Line 52: `[...new Set(employees.map(e => e.department).filter(Boolean))]`. */
  function Departments(employees: seq<Employee>): (r: seq<string>)
    ensures forall i :: 0 <= i < |r| ==> r[i] != ""
  {
    Lists.DedupeKeepsTest(Lists.Filter(DepartmentColumn(employees), NonEmpty), NonEmpty);
    Lists.Dedupe(Lists.Filter(DepartmentColumn(employees), NonEmpty))
  }

  /** The department choices are exactly the non-empty departments of the
      employees, each once. */
  lemma DepartmentsExactly(employees: seq<Employee>, d: string)
    ensures d in Departments(employees) <==> d != "" && exists e :: e in employees && e.department == d
    ensures Lists.Distinct(Departments(employees))
  {
    var column := DepartmentColumn(employees);
    var named := Lists.Filter(column, NonEmpty);
    var r := Departments(employees);
    Lists.FilterMembership(column, NonEmpty, d);
    assert d in r <==> d in named by {
      if d in named {
        var k :| 0 <= k < |named| && named[k] == d;
      }
    }
    if d in column {
      var k :| 0 <= k < |column| && column[k] == d;
      assert employees[k] in employees && employees[k].department == d;
    }
    if exists e :: e in employees && e.department == d {
      var e :| e in employees && e.department == d;
      var k :| 0 <= k < |employees| && employees[k] == e;
      assert column[k] == d;
    }
  }

  /** The department choices are ordered by the first employee in each. */
  lemma DepartmentsInFirstOccurrenceOrder(employees: seq<Employee>)
    ensures Lists.InFirstOccurrenceOrder(Departments(employees), DepartmentColumn(employees))
  {
    var named := Lists.Filter(DepartmentColumn(employees), NonEmpty);
    Lists.DedupeOrdered(named);
    Lists.OrderSurvivesFilter(Lists.Dedupe(named), DepartmentColumn(employees), NonEmpty);
  }

  /** The exact counts of lines 55-57; the two floating-point estimates of
      lines 58-59 are not modelled. */
  datatype Stats = Stats(total: nat, active: nat, resigned: nat)

  predicate IsActive(e: Employee)
  {
    e.employmentStatus == Some("Regular") || e.employmentStatus == Some("Probationary")
  }

  predicate IsResigned(e: Employee)
  {
    e.employmentStatus == Some("Resigned")
  }

  function StatsOf(employees: seq<Employee>): (r: Stats)
    ensures r.total == |employees|
    ensures r.active <= r.total && r.resigned <= r.total
  {
    Stats(|employees|, |Lists.Filter(employees, IsActive)|, |Lists.Filter(employees, IsResigned)|)
  }

  /** No employee counts as both active and resigned, so the two counts fit in
      the total; and the counts of two lists put together add up. */
  lemma StatsFit(employees: seq<Employee>)
    ensures StatsOf(employees).active + StatsOf(employees).resigned <= StatsOf(employees).total
  {
    Lists.DisjointFiltersFit(employees, IsActive, IsResigned);
  }

  lemma StatsAdd(a: seq<Employee>, b: seq<Employee>)
    ensures StatsOf(a + b).total == StatsOf(a).total + StatsOf(b).total
    ensures StatsOf(a + b).active == StatsOf(a).active + StatsOf(b).active
    ensures StatsOf(a + b).resigned == StatsOf(a).resigned + StatsOf(b).resigned
  {
    Lists.FilterConcat(a, b, IsActive);
    Lists.FilterConcat(a, b, IsResigned);
  }

  /** An employee is counted as active exactly when its status is "Regular" or
      "Probationary", and as resigned exactly when it is "Resigned". */
  lemma StatsCountTheStatuses(employees: seq<Employee>, e: Employee)
    ensures e in Lists.Filter(employees, IsActive) <==>
      e in employees && (e.employmentStatus == Some("Regular") || e.employmentStatus == Some("Probationary"))
    ensures e in Lists.Filter(employees, IsResigned) <==> e in employees && e.employmentStatus == Some("Resigned")
  {
    Lists.FilterMembership(employees, IsActive, e);
    Lists.FilterMembership(employees, IsResigned, e);
  }
}
