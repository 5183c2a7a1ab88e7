/** `GET /api/cron/check-expiring-contracts`: alert HR about every active
    contractual employee whose `date_hired` is on or before the date thirty
    days from now. */
module ExpiringContractsCron {
  import opened Wrappers
  import opened Http
  import opened Strings
  import opened IsoTime
  import opened CronJobs
  import Lists

  /** Lines 15-16 and 23: the date thirty days after `now`, as
      `toISOString().split("T")[0]` renders it. */
  function Cutoff(now: int): (r: string)
    ensures forall k :: 0 <= k < |r| ==> DateChar(r[k])
    ensures 0 <= CivilFromDays(DayNumber(now + 30 * MsPerDay)).0 <= 9999 ==> IsoDateShape(r)
  {
    Today(now + 30 * MsPerDay)
  }

  /** The cutoff is the ISO date of the UTC day thirty days after today's. */
  lemma CutoffIsThirtyDaysAhead(now: int)
    ensures Cutoff(now) == IsoDate(now + 30 * MsPerDay)
    ensures DayNumber(now + 30 * MsPerDay) == DayNumber(now) + 30
  {
    TodayIsIsoDate(now + 30 * MsPerDay);
  }

  /** The query's three conditions; a row with no `date_hired` fails `lte`. */
  predicate Expiring(e: Employee201, cutoff: string)
  {
    && e.employmentType == Some("Contractual")
    && e.employmentStatus == Some("Active")
    && e.dateHired.Some? && LexLe(e.dateHired.value, cutoff)
  }

  function Selected(table: seq<Employee201>, cutoff: string): (r: seq<Employee201>)
    ensures |r| <= |table|
    ensures forall i :: 0 <= i < |r| ==> Expiring(r[i], cutoff)
  {
    Lists.Filter(table, (e: Employee201) => Expiring(e, cutoff))
  }

  /** An employee is selected exactly when it meets all three conditions; the
      selection keeps the table's order. */
  lemma SelectedExactly(table: seq<Employee201>, cutoff: string, e: Employee201)
    ensures e in Selected(table, cutoff) <==> e in table && Expiring(e, cutoff)
    ensures Lists.IsSubsequence(Selected(table, cutoff), table)
  {
    Lists.FilterMembership(table, (x: Employee201) => Expiring(x, cutoff), e);
    Lists.FilterIsSubsequence(table, (x: Employee201) => Expiring(x, cutoff));
  }

  /** A later cutoff selects everything an earlier one does. */
  lemma LaterCutoffSelectsMore(table: seq<Employee201>, c1: string, c2: string, e: Employee201)
    requires LexLe(c1, c2)
    requires e in Selected(table, c1)
    ensures e in Selected(table, c2)
  {
    SelectedExactly(table, c1, e);
    LexLeTransitive(e.dateHired.value, c1, c2);
    SelectedExactly(table, c2, e);
  }

  /** Everything after the gate, for a given cutoff. */
  function Job(cutoff: string, clientFails: bool, table: Option<seq<Employee201>>): (r: (Response<Summary>, seq<Alert>))
    ensures r.0.status in {200, 500}
    ensures r.0.status == 200 ==> r.0.body.Data? && r.0.body.value.success && r.0.body.value.checked == |r.1|
    ensures r.0.status == 500 ==> r.1 == []
  {
    if clientFails then (Fail(500, "Cron job failed"), [])
    else if table.None? then (Ok(200, Summary(true, 0)), [])
    else
      var employees := Selected(table.value, cutoff);
      (Ok(200, Summary(true, |employees|)), Alerts(ContractExpiration, employees))
  }

  /** The route as written for a given cutoff: the template gate of line 7,
      then the job. */
  function Run(header: Option<string>, secret: Option<string>, cutoff: string, clientFails: bool, table: Option<seq<Employee201>>)
    : (r: (Response<Summary>, seq<Alert>))
    ensures r.0.status in {200, 401, 500}
    ensures r.0.status == 401 ==> r.1 == []
  {
    if !AuthorizedAsWritten(header, secret) then (Fail(401, "Unauthorized"), [])
    else Job(cutoff, clientFails, table)
  }

  /** The route with the intended gate. */
  function RunCorrected(header: Option<string>, secret: Option<string>, cutoff: string, clientFails: bool, table: Option<seq<Employee201>>)
    : (r: (Response<Summary>, seq<Alert>))
    ensures r.0.status != 401 ==> secret.Some? && secret.value != ""
  {
    if !Authorized(header, secret) then (Fail(401, "Unauthorized"), [])
    else Job(cutoff, clientFails, table)
  }

  /** A refused header answers 401 before any query and sends nothing; a
      failed client answers 500; otherwise the run answers 200 and `checked`
      is the number of alerts sent, one per selected employee, and 0 without
      data. */
  lemma CheckedCountsAlerts(header: Option<string>, secret: Option<string>, cutoff: string, clientFails: bool, table: Option<seq<Employee201>>)
    ensures var (r, alerts) := Run(header, secret, cutoff, clientFails, table);
      && (r.status == 401 <==> !AuthorizedAsWritten(header, secret))
      && (!AuthorizedAsWritten(header, secret) ==> r == Fail(401, "Unauthorized") && alerts == [])
      && (AuthorizedAsWritten(header, secret) && clientFails ==> r == Fail(500, "Cron job failed") && alerts == [])
      && (r.status == 200 <==> AuthorizedAsWritten(header, secret) && !clientFails)
      && (r.status == 200 ==> r.body.Data? && r.body.value.success && r.body.value.checked == |alerts|)
      && (r.status == 200 && table.Some? ==> alerts == Alerts(ContractExpiration, Selected(table.value, cutoff)))
      && (table.None? ==> alerts == [])
  {
  }

  /** As written, with the secret unset, the literal header "Bearer
      undefined" runs the whole job; the corrected route refuses it. */
  lemma UnsetSecretRunsTheJob(cutoff: string, table: seq<Employee201>)
    ensures Run(Some("Bearer undefined"), None, cutoff, false, Some(table)) ==
      (Ok(200, Summary(true, |Selected(table, cutoff)|)), Alerts(ContractExpiration, Selected(table, cutoff)))
    ensures RunCorrected(Some("Bearer undefined"), None, cutoff, false, Some(table)) == (Fail(401, "Unauthorized"), [])
  {
    UnsetSecretAcceptsLiteralUndefined();
  }

  /** The corrected route sends nothing while no non-empty secret is
      configured, and behaves exactly as written once one is. */
  lemma CorrectedRunRefusesUnsetSecret(header: Option<string>, secret: Option<string>, cutoff: string, clientFails: bool, table: Option<seq<Employee201>>)
    ensures secret.None? || secret == Some("") ==>
      RunCorrected(header, secret, cutoff, clientFails, table) == (Fail(401, "Unauthorized"), [])
    ensures secret.Some? && secret.value != "" ==>
      RunCorrected(header, secret, cutoff, clientFails, table) == Run(header, secret, cutoff, clientFails, table)
  {
    if secret.Some? && secret.value != "" {
      GatesAgreeWhenConfigured(header, secret);
    }
  }

  /** The handler once the cutoff is known, with the gate as written. */
  method RunWithCutoff(header: Option<string>, secret: Option<string>, cutoff: string, clientFails: bool, table: Option<seq<Employee201>>)
    returns (resp: Response<Summary>, alerts: seq<Alert>)
    ensures (resp, alerts) == Run(header, secret, cutoff, clientFails, table)
  {
    if !AuthorizedAsWritten(header, secret) {
      return Fail(401, "Unauthorized"), [];
    }
    if clientFails {
      return Fail(500, "Cron job failed"), [];
    }
    alerts := [];
    var checked := 0;
    if table.Some? {
      var employees := Selected(table.value, cutoff);
      alerts := AlertEach(ContractExpiration, employees);
      assert alerts == Alerts(ContractExpiration, employees);
      checked := |employees|;
    }
    resp := Ok(200, Summary(true, checked));
  }

  /** The handler: `now` is the time in milliseconds since the epoch. */
  method Get(header: Option<string>, secret: Option<string>, now: int, clientFails: bool, table: Option<seq<Employee201>>)
    returns (resp: Response<Summary>, alerts: seq<Alert>)
    ensures (resp, alerts) == Run(header, secret, Cutoff(now), clientFails, table)
  {
    var thirtyDaysFromNow := now + 30 * MsPerDay;
    resp, alerts := RunWithCutoff(header, secret, Today(thirtyDaysFromNow), clientFails, table);
  }
}
