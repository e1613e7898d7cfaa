/**
 * `ReportGenerator`: the queries it runs over `job_applications` and what it makes
 * of their results.  A query result is the table's rows in rowid order; a failed
 * session is `None`, and every report then takes its `except` branch.
 */
module Reporter {
  import opened Options
  import opened Database

  /** The rows of `query(JobApplication).filter(p).all()`, in table order. */
  function Filter<T>(rows: seq<T>, p: T -> bool): (r: seq<T>)
    ensures |r| <= |rows|
  {
    if rows == [] then [] else (if p(rows[0]) then [rows[0]] else []) + Filter(rows[1..], p)
  }

  /** A filter keeps exactly the rows that satisfy its condition. */
  lemma {:induction false} FilterMembers<T>(rows: seq<T>, p: T -> bool)
    ensures forall a :: a in Filter(rows, p) <==> a in rows && p(a)
  {
    if rows != [] {
      FilterMembers(rows[1..], p);
      assert rows == [rows[0]] + rows[1..];
    }
  }

  /** A filter keeps the table's order: filtering two runs of rows one after the
    * other gives the two filtered runs one after the other. */
  lemma {:induction false} FilterAppend<T>(xs: seq<T>, ys: seq<T>, p: T -> bool)
    ensures Filter(xs + ys, p) == Filter(xs, p) + Filter(ys, p)
  {
    if xs == [] {
      assert xs + ys == ys;
    } else {
      var zs := xs + ys;
      assert zs[0] == xs[0] && zs[1..] == xs[1..] + ys;
      FilterAppend(xs[1..], ys, p);
      var head := if p(xs[0]) then [xs[0]] else [];
      assert Filter(zs, p) == head + Filter(zs[1..], p);
      assert head + (Filter(xs[1..], p) + Filter(ys, p)) == (head + Filter(xs[1..], p)) + Filter(ys, p);
    }
  }

  /** A rate as the report shows it: the literal `"0%"`, or `num / den * 100`
    * formatted with one decimal. */
  datatype Rate = ZeroPercent | Ratio(num: nat, den: nat)

  // ---------------------------------------------------------------- status summary

  /** `func.count(JobApplication.id)` filtered on `application_status == s`; the
    * primary key is never NULL, so every matching row counts. */
  function CountStatus(rows: seq<JobApplication>, s: string): nat {
    |Filter(rows, (a: JobApplication) => a.applicationStatus == Some(s))|
  }

  /** The dictionary `generate_status_summary` returns. */
  datatype StatusSummary = StatusSummary(
    total: nat, sent: nat, pending: nat, rejected: nat, accepted: nat, interview: nat,
    responseRate: Rate)

  /** The five status counts together never exceed the number of rows: a row has
    * one status, and the five are different strings. */
  lemma {:induction false} StatusCountsBounded(rows: seq<JobApplication>)
    ensures CountStatus(rows, "sent") + CountStatus(rows, "pending") + CountStatus(rows, "rejected")
          + CountStatus(rows, "accepted") + CountStatus(rows, "interview") <= |rows|
  {
    if rows != [] {
      StatusCountsBounded(rows[1..]);
    }
  }

  /** `generate_status_summary()`; `None` is the `{}` of the `except` branch. */
  function GenerateStatusSummary(table: Option<seq<JobApplication>>): (r: Option<StatusSummary>)
    ensures r.None? <==> table.None?
    ensures r.Some? ==> var m := r.value;
      && m.total == |table.value|
      && m.sent <= m.total && m.pending <= m.total && m.rejected <= m.total
      && m.accepted <= m.total && m.interview <= m.total
      && m.sent + m.pending + m.rejected + m.accepted + m.interview <= m.total
      && (m.responseRate == ZeroPercent <==> m.total == 0)
      && (m.responseRate.Ratio? ==>
            m.responseRate.num == m.rejected + m.accepted + m.interview &&
            m.responseRate.den == m.total && 0 < m.responseRate.den &&
            m.responseRate.num <= m.responseRate.den)
  {
    match table
    case None => None
    case Some(rows) =>
      StatusCountsBounded(rows);
      var total := |rows|;
      var rejected := CountStatus(rows, "rejected");
      var accepted := CountStatus(rows, "accepted");
      var interview := CountStatus(rows, "interview");
      Some(StatusSummary(
        total, CountStatus(rows, "sent"), CountStatus(rows, "pending"), rejected, accepted, interview,
        if total > 0 then Ratio(rejected + accepted + interview, total) else ZeroPercent))
  }

  // ---------------------------------------------------------------- weekly report

  /** `timedelta(days=7)` in microseconds. */
  const Week: int := 7 * 24 * 60 * 60 * 1000000

  /** A nullable timestamp column compared with `>=` in SQL: NULL never passes. */
  predicate AtOrAfter(t: Option<Timestamp>, since: Timestamp) {
    t.Some? && t.value >= since
  }

  /** The one-row frame of `generate_weekly_report`. */
  datatype WeeklyStats = WeeklyStats(
    weekStarting: Timestamp, applicationsSent: nat, responsesReceived: nat, responseRate: Rate,
    interviewsScheduled: nat, rejections: nat, offers: nat)

  /** Applications made since `since`. */
  function AppliedSince(rows: seq<JobApplication>, since: Timestamp): seq<JobApplication> {
    Filter(rows, (a: JobApplication) => AtOrAfter(a.dateApplied, since))
  }

  /** Applications whose company made contact since `since`. */
  function ContactedSince(rows: seq<JobApplication>, since: Timestamp): seq<JobApplication> {
    Filter(rows, (a: JobApplication) => AtOrAfter(a.dateContacted, since))
  }

  /** `generate_weekly_report()` at time `now`; `None` is the `except` branch.  The
    * interview, rejection and offer counts filter the week's responses, so none
    * exceeds them; the rate is `"0%"` exactly when nothing was applied for. */
  function GenerateWeeklyReport(table: Option<seq<JobApplication>>, now: Timestamp): (r: Option<WeeklyStats>)
    ensures r.None? <==> table.None?
    ensures r.Some? ==> var w := r.value;
      && w.weekStarting == now - Week
      && w.applicationsSent == |AppliedSince(table.value, now - Week)|
      && w.responsesReceived == |ContactedSince(table.value, now - Week)|
      && w.interviewsScheduled <= w.responsesReceived
      && w.rejections <= w.responsesReceived
      && w.offers <= w.responsesReceived
      && (w.responseRate == ZeroPercent <==> w.applicationsSent == 0)
      && (w.responseRate.Ratio? ==>
            w.responseRate.num == w.responsesReceived && w.responseRate.den == w.applicationsSent)
  {
    match table
    case None => None
    case Some(rows) =>
      var weekAgo := now - Week;
      var sent := AppliedSince(rows, weekAgo);
      var responses := ContactedSince(rows, weekAgo);
      Some(WeeklyStats(
        weekAgo, |sent|, |responses|,
        if sent != [] then Ratio(|responses|, |sent|) else ZeroPercent,
        |Filter(responses, (a: JobApplication) => a.interviewScheduled == Some(true))|,
        |Filter(responses, (a: JobApplication) => a.applicationStatus == Some("rejected"))|,
        |Filter(responses, (a: JobApplication) => a.applicationStatus == Some("accepted"))|))
  }

  /** A row with every column NULL but the ones given. */
  function Contacted(id: int, applied: Option<Timestamp>, contacted: Timestamp): JobApplication {
    NoColumns.(id := id, dateApplied := applied, dateContacted := Some(contacted))
  }

  /** The weekly response rate is not bounded by 100%: responses this week may
    * belong to applications made before it. */
  lemma WeeklyRateMayExceedFull(now: Timestamp)
    ensures GenerateWeeklyReport(Some([Contacted(1, Some(now), now), Contacted(2, None, now)]), now).value.responseRate
         == Ratio(2, 1)
  {
    var rows := [Contacted(1, Some(now), now), Contacted(2, None, now)];
    assert rows[1..] == [rows[1]] && rows[1..][1..] == [];
    assert !AtOrAfter(rows[1].dateApplied, now - Week);
    assert AppliedSince(rows[1..], now - Week) == [];
    assert AppliedSince(rows, now - Week) == [rows[0]];
    assert ContactedSince(rows[1..], now - Week) == [rows[1]];
    assert ContactedSince(rows, now - Week) == rows;
  }

  // ---------------------------------------------------------------- all applications

  /** One row of the all-applications report. */
  datatype ApplicationRow = ApplicationRow(
    companyName: Option<string>, jobTitle: Option<string>, location: Option<string>,
    jobBoard: Option<string>, postedDate: Option<Timestamp>, dateApplied: Option<Timestamp>,
    applicationStatus: Option<string>, dateContacted: Option<Timestamp>, responseType: Option<string>,
    interviewScheduled: Option<bool>, interviewDate: Option<Timestamp>, interviewType: Option<string>,
    companyEmail: Option<string>, companyPhone: Option<string>, notes: Option<string>)

  function ApplicationRowOf(a: JobApplication): ApplicationRow {
    ApplicationRow(
      a.companyName, a.jobTitle, a.location, a.jobBoard, a.postedDate, a.dateApplied,
      a.applicationStatus, a.dateContacted, a.responseType, a.interviewScheduled,
      a.interviewDate, a.interviewType, a.companyContactEmail, a.companyContactPhone, a.notes)
  }

  /** `generate_all_applications_report()`: one report row per stored row, in table
    * order; `None` when the query fails. */
  method GenerateAllApplicationsReport(table: Option<seq<JobApplication>>) returns (df: Option<seq<ApplicationRow>>)
    ensures df.None? <==> table.None?
    ensures df.Some? ==> (|df.value| == |table.value| &&
      forall i :: 0 <= i < |table.value| ==> df.value[i] == ApplicationRowOf(table.value[i]))
  {
    if table.None? {
      return None;
    }
    var applications := table.value;
    var data: seq<ApplicationRow> := [];
    for i := 0 to |applications|
      invariant |data| == i
      invariant forall j :: 0 <= j < i ==> data[j] == ApplicationRowOf(applications[j])
    {
      data := data + [ApplicationRowOf(applications[i])];
    }
    df := Some(data);
  }

  // ---------------------------------------------------------------- company contacts

  /** One row of the company-contact report. */
  datatype ContactRow = ContactRow(
    companyName: Option<string>, contactEmail: Option<string>, contactPhone: Option<string>,
    companyWebsite: Option<string>, contactPerson: Option<string>, contactTitle: Option<string>,
    lastUpdated: Option<Timestamp>)

  function ContactRowOf(a: JobApplication): ContactRow {
    ContactRow(
      a.companyName, a.companyContactEmail, a.companyContactPhone, a.companyWebsite,
      a.contactPersonName, a.contactPersonTitle, a.lastUpdated)
  }

  /** `filter(JobApplication.company_contact_email.isnot(None))`. */
  function WithContactEmail(rows: seq<JobApplication>): seq<JobApplication> {
    Filter(rows, HasContactEmail)
  }

  predicate HasContactEmail(a: JobApplication) {
    a.companyContactEmail.Some?
  }

  /** The contact query returns exactly the rows with a contact e-mail. */
  lemma WithContactEmailExactly(rows: seq<JobApplication>)
    ensures forall a :: a in WithContactEmail(rows) <==> a in rows && a.companyContactEmail.Some?
  {
    FilterMembers(rows, HasContactEmail);
  }

  /** `generate_company_contact_report()`: one report row per row with a contact
    * e-mail, in table order; every report row shows an e-mail. */
  method GenerateCompanyContactReport(table: Option<seq<JobApplication>>) returns (df: Option<seq<ContactRow>>)
    ensures df.None? <==> table.None?
    ensures df.Some? ==> var q := WithContactEmail(table.value);
      && |df.value| == |q|
      && (forall i :: 0 <= i < |q| ==> df.value[i] == ContactRowOf(q[i]))
      && (forall i :: 0 <= i < |q| ==> df.value[i].contactEmail.Some?)
  {
    if table.None? {
      return None;
    }
    var applications := WithContactEmail(table.value);
    WithContactEmailExactly(table.value);
    var data: seq<ContactRow> := [];
    for i := 0 to |applications|
      invariant |data| == i
      invariant forall j :: 0 <= j < i ==> data[j] == ContactRowOf(applications[j])
    {
      assert applications[i] in applications;
      data := data + [ContactRowOf(applications[i])];
    }
    df := Some(data);
  }

  // ---------------------------------------------------------------- interview schedule

  /** `interview_scheduled == True` and `interview_date >= now`. */
  predicate Upcoming(a: JobApplication, now: Timestamp) {
    a.interviewScheduled == Some(true) && AtOrAfter(a.interviewDate, now)
  }

  function UpcomingAt(now: Timestamp): JobApplication -> bool {
    a => Upcoming(a, now)
  }

  /** The sort key of `order_by(JobApplication.interview_date)`; every row the
    * schedule sorts has a date. */
  function DateKey(a: JobApplication): int {
    a.interviewDate.GetOr(0)
  }

  predicate SortedByDate(s: seq<JobApplication>) {
    forall i, j :: 0 <= i < j < |s| ==> DateKey(s[i]) <= DateKey(s[j])
  }

  /** Insert `a` before the first row of `s` with a later date. */
  function InsertByDate(a: JobApplication, s: seq<JobApplication>): (r: seq<JobApplication>)
    ensures multiset(r) == multiset(s) + multiset{a}
    ensures r[0] == a || (s != [] && r[0] == s[0])
  {
    if s == [] || DateKey(a) <= DateKey(s[0]) then [a] + s
    else
      assert s == [s[0]] + s[1..];
      [s[0]] + InsertByDate(a, s[1..])
  }

  lemma {:induction false} InsertByDateSorted(a: JobApplication, s: seq<JobApplication>)
    requires SortedByDate(s)
    ensures SortedByDate(InsertByDate(a, s))
  {
    if s != [] && DateKey(a) > DateKey(s[0]) {
      InsertByDateSorted(a, s[1..]);
      var t := InsertByDate(a, s[1..]);
      assert DateKey(s[0]) <= DateKey(t[0]) by {
        if t[0] != a {
          assert t[0] == s[1];
        }
      }
      assert forall k :: 0 <= k < |t| ==> DateKey(t[0]) <= DateKey(t[k]);
    }
  }

  /** `ORDER BY interview_date`.  SQL leaves the order of equal dates open; this
    * insertion sort keeps them in table order. */
  function SortByDate(s: seq<JobApplication>): (r: seq<JobApplication>)
    ensures multiset(r) == multiset(s)
  {
    if s == [] then []
    else
      assert s == [s[0]] + s[1..];
      InsertByDate(s[0], SortByDate(s[1..]))
  }

  lemma {:induction false} SortByDateSorted(s: seq<JobApplication>)
    ensures SortedByDate(SortByDate(s))
  {
    if s != [] {
      SortByDateSorted(s[1..]);
      InsertByDateSorted(s[0], SortByDate(s[1..]));
    }
  }

  /** The rows of the interview-schedule query. */
  function UpcomingInterviews(rows: seq<JobApplication>, now: Timestamp): seq<JobApplication> {
    SortByDate(Filter(rows, UpcomingAt(now)))
  }

  /** The schedule query holds the upcoming interviews, each as often as the table
    * holds it, earliest first. */
  lemma UpcomingInterviewsSpec(rows: seq<JobApplication>, now: Timestamp)
    ensures var r := UpcomingInterviews(rows, now);
      && multiset(r) == multiset(Filter(rows, UpcomingAt(now)))
      && SortedByDate(r)
      && (forall a :: a in r <==> a in rows && Upcoming(a, now))
  {
    var q := Filter(rows, UpcomingAt(now));
    FilterMembers(rows, UpcomingAt(now));
    SortByDateSorted(q);
    var r := SortByDate(q);
    forall a ensures a in r <==> a in q {
      assert a in r <==> a in multiset(r);
      assert a in q <==> a in multiset(q);
    }
  }

  /** One row of the interview schedule. */
  datatype InterviewRow = InterviewRow(
    companyName: Option<string>, jobTitle: Option<string>, interviewDate: Option<Timestamp>,
    interviewTime: Option<string>, interviewType: Option<string>, interviewLocation: Option<string>,
    contactEmail: Option<string>, contactPhone: Option<string>, notes: Option<string>)

  function InterviewRowOf(a: JobApplication): InterviewRow {
    InterviewRow(
      a.companyName, a.jobTitle, a.interviewDate, a.interviewTime, a.interviewType,
      a.interviewLocation, a.companyContactEmail, a.companyContactPhone, a.notes)
  }

  /** `generate_interview_schedule()` at time `now`: one report row per upcoming
    * interview, each dated no earlier than `now`, in date order. */
  method GenerateInterviewSchedule(table: Option<seq<JobApplication>>, now: Timestamp) returns (df: Option<seq<InterviewRow>>)
    ensures df.None? <==> table.None?
    ensures df.Some? ==> var q := UpcomingInterviews(table.value, now);
      && |df.value| == |q|
      && (forall i :: 0 <= i < |q| ==> df.value[i] == InterviewRowOf(q[i]))
      && (forall i :: 0 <= i < |q| ==> df.value[i].interviewDate.Some? && df.value[i].interviewDate.value >= now)
      && (forall i, j :: 0 <= i < j < |q| ==> df.value[i].interviewDate.value <= df.value[j].interviewDate.value)
  {
    if table.None? {
      return None;
    }
    var upcoming := UpcomingInterviews(table.value, now);
    UpcomingInterviewsSpec(table.value, now);
    var data: seq<InterviewRow> := [];
    for i := 0 to |upcoming|
      invariant |data| == i
      invariant forall j :: 0 <= j < i ==> data[j] == InterviewRowOf(upcoming[j])
      invariant forall j :: 0 <= j < i ==> Upcoming(upcoming[j], now)
    {
      assert upcoming[i] in upcoming;
      data := data + [InterviewRowOf(upcoming[i])];
    }
    df := Some(data);
  }

  // ---------------------------------------------------------------- lookup by company

  /** `filter(JobApplication.company_name == name).first()`; `None` also when the
    * query fails. */
  function ApplicationByCompany(table: Option<seq<JobApplication>>, name: string): (r: Option<JobApplication>)
    ensures table.None? ==> r.None?
    ensures table.Some? ==> var rows := table.value;
      && (r.Some? <==> exists i :: 0 <= i < |rows| && rows[i].companyName == Some(name))
      && (r.Some? ==> exists i :: 0 <= i < |rows| && rows[i] == r.value && rows[i].companyName == Some(name) &&
                        forall j :: 0 <= j < i ==> rows[j].companyName != Some(name))
  {
    match table
    case None => None
    case Some(rows) => FirstByCompany(rows, name)
  }

  function FirstByCompany(rows: seq<JobApplication>, name: string): (r: Option<JobApplication>)
    ensures r.Some? <==> exists i :: 0 <= i < |rows| && rows[i].companyName == Some(name)
    ensures r.Some? ==> exists i :: 0 <= i < |rows| && rows[i] == r.value && rows[i].companyName == Some(name) &&
                          forall j :: 0 <= j < i ==> rows[j].companyName != Some(name)
  {
    if rows == [] then None
    else if rows[0].companyName == Some(name) then Some(rows[0])
    else
      var r := FirstByCompany(rows[1..], name);
      assert forall i :: 1 <= i < |rows| ==> rows[i] == rows[1..][i - 1];
      assert r.Some? ==> exists i :: 1 <= i < |rows| && rows[i] == r.value && rows[i].companyName == Some(name) &&
                           forall j :: 0 <= j < i ==> rows[j].companyName != Some(name) by {
        if r.Some? {
          var i :| 0 <= i < |rows[1..]| && rows[1..][i] == r.value && rows[1..][i].companyName == Some(name) &&
                   forall j :: 0 <= j < i ==> rows[1..][j].companyName != Some(name);
          assert forall j :: 1 <= j < i + 1 ==> rows[j] == rows[1..][j - 1];
        }
      }
      r
  }
}
