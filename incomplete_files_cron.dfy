/** `GET /api/cron/check-incomplete-files`: alert HR about every active
    employee whose 201 file lacks government information, employment records
    or compensation. */
module IncompleteFilesCron {
  import opened Wrappers
  import opened Http
  import opened CronJobs
  import Lists

  /** `.eq("employment_status", "Active")`. */
  predicate Active(e: Employee201)
  {
    e.employmentStatus == Some("Active")
  }

  /** Line 28: one of the three embedded lists has no first entry. */
  predicate Incomplete(e: Employee201)
  {
    |e.governmentInfo| == 0 || |e.employmentRecords| == 0 || |e.compensation| == 0
  }

  /** The query's rows, then the route's own filter. */
  function Selected(table: seq<Employee201>): (r: seq<Employee201>)
    ensures |r| <= |table|
    ensures forall i :: 0 <= i < |r| ==> Active(r[i]) && Incomplete(r[i])
  {
    Lists.FilterTwiceKeepsFirstTest(table, Active, Incomplete);
    Lists.Filter(Lists.Filter(table, Active), Incomplete)
  }

  /** An employee is selected exactly when it is in the table, active and
      incomplete; the selection keeps the table's order. */
  lemma SelectedExactly(table: seq<Employee201>, e: Employee201)
    ensures e in Selected(table) <==> e in table && Active(e) && Incomplete(e)
    ensures Lists.IsSubsequence(Selected(table), table)
  {
    Lists.FilterMembership(table, Active, e);
    Lists.FilterMembership(Lists.Filter(table, Active), Incomplete, e);
    Lists.FilterIsSubsequence(table, Active);
    Lists.FilterIsSubsequence(Lists.Filter(table, Active), Incomplete);
    Lists.SubsequenceTransitive(Selected(table), Lists.Filter(table, Active), table);
  }

  /** Everything after the gate: the query (none when it returns no data),
      then one alert per selected employee. `clientFails` is a failure to
      create the database client, the only step in the `try` that can throw. */
  function Job(clientFails: bool, table: Option<seq<Employee201>>): (r: (Response<Summary>, seq<Alert>))
    ensures r.0.status in {200, 500}
    ensures r.0.status == 200 ==> r.0.body.Data? && r.0.body.value.success && r.0.body.value.checked == |r.1|
    ensures r.0.status == 500 ==> r.1 == []
  {
    if clientFails then (Fail(500, "Cron job failed"), [])
    else if table.None? then (Ok(200, Summary(true, 0)), [])
    else
      var selected := Selected(table.value);
      (Ok(200, Summary(true, |selected|)), Alerts(IncompleteFile, selected))
  }

  /** The route as written: the template gate of line 7, then the job. */
  function Run(header: Option<string>, secret: Option<string>, clientFails: bool, table: Option<seq<Employee201>>)
    : (r: (Response<Summary>, seq<Alert>))
    ensures r.0.status in {200, 401, 500}
    ensures r.0.status == 401 ==> r.1 == []
  {
    if !AuthorizedAsWritten(header, secret) then (Fail(401, "Unauthorized"), [])
    else Job(clientFails, table)
  }

  /** The route with the intended gate. */
  function RunCorrected(header: Option<string>, secret: Option<string>, clientFails: bool, table: Option<seq<Employee201>>)
    : (r: (Response<Summary>, seq<Alert>))
    ensures r.0.status != 401 ==> secret.Some? && secret.value != ""
  {
    if !Authorized(header, secret) then (Fail(401, "Unauthorized"), [])
    else Job(clientFails, table)
  }

  /** A request the gate refuses answers 401 and sends nothing; a failed
      client answers 500 and sends nothing; otherwise the run answers 200,
      sends one alert per selected employee in order and reports as `checked`
      exactly the number it sent, none when the query returned no data. */
  lemma CheckedCountsAlerts(header: Option<string>, secret: Option<string>, clientFails: bool, table: Option<seq<Employee201>>)
    ensures var (r, alerts) := Run(header, secret, clientFails, table);
      && (r.status == 401 <==> !AuthorizedAsWritten(header, secret))
      && (!AuthorizedAsWritten(header, secret) ==> r == Fail(401, "Unauthorized") && alerts == [])
      && (AuthorizedAsWritten(header, secret) && clientFails ==> r == Fail(500, "Cron job failed") && alerts == [])
      && (r.status == 200 <==> AuthorizedAsWritten(header, secret) && !clientFails)
      && (r.status == 200 ==> r.body.Data? && r.body.value.success && r.body.value.checked == |alerts|)
      && (r.status == 200 && table.Some? ==> alerts == Alerts(IncompleteFile, Selected(table.value)))
      && (table.None? ==> alerts == [])
  {
  }

  /** As written, with the secret unset, the literal header "Bearer
      undefined" runs the whole job; the corrected route refuses it. */
  lemma UnsetSecretRunsTheJob(table: seq<Employee201>)
    ensures Run(Some("Bearer undefined"), None, false, Some(table)) ==
      (Ok(200, Summary(true, |Selected(table)|)), Alerts(IncompleteFile, Selected(table)))
    ensures RunCorrected(Some("Bearer undefined"), None, false, Some(table)) == (Fail(401, "Unauthorized"), [])
  {
    UnsetSecretAcceptsLiteralUndefined();
  }

  /** The corrected route sends nothing while no non-empty secret is
      configured, and behaves exactly as written once one is. */
  lemma CorrectedRunRefusesUnsetSecret(header: Option<string>, secret: Option<string>, clientFails: bool, table: Option<seq<Employee201>>)
    ensures secret.None? || secret == Some("") ==>
      RunCorrected(header, secret, clientFails, table) == (Fail(401, "Unauthorized"), [])
    ensures secret.Some? && secret.value != "" ==>
      RunCorrected(header, secret, clientFails, table) == Run(header, secret, clientFails, table)
  {
    if secret.Some? && secret.value != "" {
      GatesAgreeWhenConfigured(header, secret);
    }
  }

  /** A complete file is never reported. */
  lemma CompleteFilesNotAlerted(header: Option<string>, secret: Option<string>, table: seq<Employee201>, e: Employee201)
    requires e in table && !Incomplete(e)
    ensures e !in Selected(table)
  {
    SelectedExactly(table, e);
  }

  /** The handler, with the gate as written. */
  method Get(header: Option<string>, secret: Option<string>, clientFails: bool, table: Option<seq<Employee201>>)
    returns (resp: Response<Summary>, alerts: seq<Alert>)
    ensures (resp, alerts) == Run(header, secret, clientFails, table)
  {
    if !AuthorizedAsWritten(header, secret) {
      return Fail(401, "Unauthorized"), [];
    }
    if clientFails {
      return Fail(500, "Cron job failed"), [];
    }
    alerts := [];
    var checked := 0;
    if table.Some? {
      var incompleteEmployees := Selected(table.value);
      alerts := AlertEach(IncompleteFile, incompleteEmployees);
      assert alerts == Alerts(IncompleteFile, incompleteEmployees);
      checked := |incompleteEmployees|;
    }
    resp := Ok(200, Summary(true, checked));
  }
}
