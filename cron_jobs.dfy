/** What the two scheduled jobs share: the `employees_201` rows they read, the
    alert e-mails they send, the bearer-token gate in front of them and the
    loop that sends one alert per selected employee. */
module CronJobs {
  import opened Wrappers
  import Lists

  /** A row of `employees_201`, with the ids of its embedded
      `government_info`, `employment_records` and `compensation` rows. */
  datatype Employee201 = Employee201(
    employeeId: string, firstName: string, lastName: string, position: string, department: string,
    employmentStatus: Option<string>, employmentType: Option<string>, dateHired: Option<string>,
    governmentInfo: seq<string>, employmentRecords: seq<string>, compensation: seq<string>)

  /** The two alerts of `lib/email-alerts.tsx`. */
  datatype AlertKind = ContractExpiration | IncompleteFile

  /** An alert e-mail: recipient and subject (the HTML body is not modelled). */
  datatype Alert = Alert(to: string, subject: string, employeeId: string)

  const HrInbox: string := "hr@company.com"

  /** Lines 5-10 and 25-30 of `lib/email-alerts.tsx`. */
  function AlertFor(kind: AlertKind, e: Employee201): (a: Alert)
    ensures a.to == HrInbox && a.employeeId == e.employeeId
  {
    var who := e.firstName + " " + e.lastName;
    match kind
    case ContractExpiration => Alert(HrInbox, "Contract Expiration Alert - " + who, e.employeeId)
    case IncompleteFile => Alert(HrInbox, "Incomplete 201 File - " + who, e.employeeId)
  }

  /** The JSON summary `{ success: true, checked }`. */
  datatype Summary = Summary(success: bool, checked: nat)

  /** The header the routes compare against, as written:
      `` `Bearer ${process.env.CRON_SECRET}` ``, where an unset variable
      interpolates as the text "undefined". */
  function ExpectedHeaderAsWritten(secret: Option<string>): string
  {
    "Bearer " + (if secret.Some? then secret.value else "undefined")
  }

  /** The gate as written: the `authorization` header (none when absent)
      must equal that text. */
  predicate AuthorizedAsWritten(header: Option<string>, secret: Option<string>)
    ensures AuthorizedAsWritten(header, secret) ==>
      header.Some? && |header.value| >= 7 && header.value[..7] == "Bearer "
  {
    header == Some(ExpectedHeaderAsWritten(secret))
  }

  /** With `CRON_SECRET` unset, anyone who sends the literal header
      "Bearer undefined" passes the gate as written. */
  lemma UnsetSecretAcceptsLiteralUndefined()
    ensures AuthorizedAsWritten(Some("Bearer undefined"), None)
  {
    assert "Bearer " + "undefined" == "Bearer undefined";
  }

  /** The gate as intended: a configured, non-empty secret, sent as a bearer
      token (section 2.1 of RFC 6750). */
  predicate Authorized(header: Option<string>, secret: Option<string>)
    ensures Authorized(header, secret) ==> AuthorizedAsWritten(header, secret)
  {
    secret.Some? && secret.value != "" && header == Some("Bearer " + secret.value)
  }

  /** The correction only ever refuses: it admits a subset of what the gate
      as written admits, and the requests it refuses in addition are exactly
      those made while the secret is unset or empty. */
  lemma AuthorizedRequiresSecret(header: Option<string>, secret: Option<string>)
    ensures secret.None? || secret == Some("") ==> !Authorized(header, secret)
    ensures Authorized(header, secret) ==> AuthorizedAsWritten(header, secret)
    ensures AuthorizedAsWritten(header, secret) && !Authorized(header, secret) ==> secret.None? || secret == Some("")
  {
  }

  /** Wherever the secret is configured the two gates agree, so the
      correction changes nothing for a configured deployment. */
  lemma GatesAgreeWhenConfigured(header: Option<string>, secret: Option<string>)
    requires secret.Some? && secret.value != ""
    ensures Authorized(header, secret) <==> AuthorizedAsWritten(header, secret)
  {
  }

  /** The `for (const employee of …) await send…Alert(employee)` loops. The
      sender catches its own errors, so every employee gets an attempt, in
      list order, whatever happens to the ones before. */
  method AlertEach(kind: AlertKind, employees: seq<Employee201>) returns (alerts: seq<Alert>)
    ensures |alerts| == |employees|
    ensures forall i :: 0 <= i < |employees| ==> alerts[i] == AlertFor(kind, employees[i])
  {
    alerts := [];
    for i := 0 to |employees|
      invariant |alerts| == i
      invariant forall k :: 0 <= k < i ==> alerts[k] == AlertFor(kind, employees[k])
    {
      alerts := alerts + [AlertFor(kind, employees[i])];
    }
  }

  /** The alerts the loop sends, as a value. */
  function Alerts(kind: AlertKind, employees: seq<Employee201>): seq<Alert>
  {
    Lists.Map(employees, (e: Employee201) => AlertFor(kind, e))
  }

  /** Every alert names an employee of the list, and each employee of the list
      is named by the alert at its own position. */
  lemma {:induction false} AlertsNameTheEmployees(kind: AlertKind, employees: seq<Employee201>)
    ensures |Alerts(kind, employees)| == |employees|
    ensures forall a :: a in Alerts(kind, employees) ==>
      exists e :: e in employees && a.employeeId == e.employeeId && a.to == HrInbox
  {
    var alerts := Alerts(kind, employees);
    forall a | a in alerts
      ensures exists e :: e in employees && a.employeeId == e.employeeId && a.to == HrInbox
    {
      var i :| 0 <= i < |alerts| && alerts[i] == a;
      assert employees[i] in employees;
    }
  }
}
