/**
 * The `job_applications` table: one row per job posting applied to, its column
 * defaults, its two unique columns, and the session operation that inserts a row
 * and either commits it or rolls it back.
 */
module Database {
  import opened Options

  /** Timestamps (`datetime`) as microseconds since an epoch. */
  type Timestamp = int

  /** One row of `job_applications`.  Every column except the primary key is
    * nullable, as SQLAlchemy columns are unless declared otherwise. */
  datatype JobApplication = JobApplication(
    id: int,
    jobId: Option<string>,
    companyName: Option<string>,
    jobTitle: Option<string>,
    jobUrl: Option<string>,
    jobDescription: Option<string>,
    salaryMin: Option<real>,
    salaryMax: Option<real>,
    location: Option<string>,
    jobBoard: Option<string>,
    postedDate: Option<Timestamp>,
    // contact information
    companyContactEmail: Option<string>,
    companyContactPhone: Option<string>,
    companyWebsite: Option<string>,
    contactPersonName: Option<string>,
    contactPersonTitle: Option<string>,
    contactPersonEmail: Option<string>,
    // application tracking
    dateApplied: Option<Timestamp>,
    applicationMethod: Option<string>,
    applicationStatus: Option<string>,
    // response tracking
    dateContacted: Option<Timestamp>,
    responseType: Option<string>,
    responseContent: Option<string>,
    // interview details
    interviewScheduled: Option<bool>,
    interviewDate: Option<Timestamp>,
    interviewTime: Option<string>,
    interviewType: Option<string>,
    interviewLocation: Option<string>,
    // feedback and notes
    notes: Option<string>,
    feedback: Option<string>,
    rejectionReason: Option<string>,
    lastUpdated: Option<Timestamp>)

  /** The columns that carry a default, applied when the constructor does not set them. */
  datatype DefaultedColumn = PostedDate | ApplicationStatus | InterviewScheduled | LastUpdated

  /** A `JobApplication(...)` call with no keyword arguments: every column NULL. */
  const NoColumns := JobApplication(
    0, None, None, None, None, None, None, None, None, None, None,
    None, None, None, None, None, None,
    None, None, None,
    None, None, None,
    None, None, None, None, None,
    None, None, None,
    None)

  /** The row the database stores for `JobApplication(**given)` when the columns in
    * `explicit` were passed explicitly: the column defaults fill the others, and the
    * primary key is `id`. */
  function Create(given: JobApplication, explicit: set<DefaultedColumn>, id: int, now: Timestamp): (r: JobApplication)
  {
    given.(
      id := id,
      postedDate := if PostedDate in explicit then given.postedDate else Some(now),
      applicationStatus := if ApplicationStatus in explicit then given.applicationStatus else Some("pending"),
      interviewScheduled := if InterviewScheduled in explicit then given.interviewScheduled else Some(false),
      lastUpdated := if LastUpdated in explicit then given.lastUpdated else Some(now))
  }

  /** Column defaults: a new row is `pending`, has no interview scheduled, and is
    * stamped with the creation time, unless those columns were set explicitly;
    * every other column is what the constructor was given. */
  lemma CreateDefaults(given: JobApplication, explicit: set<DefaultedColumn>, id: int, now: Timestamp)
    ensures var r := Create(given, explicit, id, now);
      && (ApplicationStatus !in explicit ==> r.applicationStatus == Some("pending"))
      && (InterviewScheduled !in explicit ==> r.interviewScheduled == Some(false))
      && (LastUpdated !in explicit ==> r.lastUpdated == Some(now))
      && (PostedDate !in explicit ==> r.postedDate == Some(now))
      && (ApplicationStatus in explicit ==> r.applicationStatus == given.applicationStatus)
      && r.(id := given.id, postedDate := given.postedDate, applicationStatus := given.applicationStatus,
            interviewScheduled := given.interviewScheduled, lastUpdated := given.lastUpdated) == given
  {
  }

  /** Every contact, response and interview column is nullable: a row that sets none
    * of them is still a row of a consistent table. */
  lemma AllNullableColumnsMayBeNull(now: Timestamp)
    ensures var r := Create(NoColumns, {}, 1, now);
      && Consistent([r])
      && r.companyContactEmail == None && r.companyContactPhone == None && r.companyWebsite == None
      && r.contactPersonName == None && r.contactPersonTitle == None && r.contactPersonEmail == None
      && r.dateContacted == None && r.responseType == None && r.responseContent == None
      && r.interviewDate == None && r.interviewTime == None && r.interviewType == None
      && r.interviewLocation == None
  {
  }

  /** SQLite gives the n-th row (no row is ever deleted) the rowid n. */
  predicate RowidsInOrder(rows: seq<JobApplication>) {
    forall i :: 0 <= i < |rows| ==> rows[i].id == i + 1
  }

  /** `job_id` is a UNIQUE column: no two rows share a non-NULL value (SQL lets
    * NULLs repeat). */
  predicate UniqueJobIds(rows: seq<JobApplication>) {
    forall i, j :: 0 <= i < j < |rows| && rows[i].jobId.Some? ==> rows[i].jobId != rows[j].jobId
  }

  /** `job_url` is a UNIQUE column. */
  predicate UniqueJobUrls(rows: seq<JobApplication>) {
    forall i, j :: 0 <= i < j < |rows| && rows[i].jobUrl.Some? ==> rows[i].jobUrl != rows[j].jobUrl
  }

  /** The table invariant. */
  predicate Consistent(rows: seq<JobApplication>) {
    RowidsInOrder(rows) && UniqueJobIds(rows) && UniqueJobUrls(rows)
  }

  /** Inserting `row` would violate a UNIQUE constraint. */
  predicate Violates(rows: seq<JobApplication>, row: JobApplication) {
    exists i :: 0 <= i < |rows| &&
      ((row.jobId.Some? && rows[i].jobId == row.jobId) || (row.jobUrl.Some? && rows[i].jobUrl == row.jobUrl))
  }

  /** The table after `add(row); commit()`, with the `rollback()` on failure. */
  function InsertOrRollback(rows: seq<JobApplication>, row: JobApplication): seq<JobApplication> {
    if Violates(rows, row) then rows else rows + [row]
  }

  /** Appending a row with the next rowid keeps the table consistent exactly when it
    * violates no UNIQUE constraint; so the commit succeeds exactly then. */
  lemma {:induction false} AppendConsistentIff(rows: seq<JobApplication>, row: JobApplication)
    requires Consistent(rows) && row.id == |rows| + 1
    ensures Consistent(rows + [row]) <==> !Violates(rows, row)
  {
    var rows' := rows + [row];
    assert rows'[|rows|] == row;
    if Violates(rows, row) {
      var i :| 0 <= i < |rows| &&
        ((row.jobId.Some? && rows[i].jobId == row.jobId) || (row.jobUrl.Some? && rows[i].jobUrl == row.jobUrl));
      assert rows'[i] == rows[i];
      if row.jobId.Some? && rows[i].jobId == row.jobId {
        assert !UniqueJobIds(rows');
      } else {
        assert !UniqueJobUrls(rows');
      }
    } else {
      assert forall i :: 0 <= i < |rows| ==> rows'[i] == rows[i];
    }
  }

  /** Insert-or-rollback keeps the table consistent, and grows it by at most the one row. */
  lemma InsertKeepsConsistent(rows: seq<JobApplication>, row: JobApplication)
    requires Consistent(rows) && row.id == |rows| + 1
    ensures Consistent(InsertOrRollback(rows, row))
    ensures InsertOrRollback(rows, row) == rows || InsertOrRollback(rows, row) == rows + [row]
  {
    AppendConsistentIff(rows, row);
  }

  /** The database session, reduced to the table it writes. */
  class Store {
    var rows: seq<JobApplication>

    ghost predicate Valid()
      reads this
    {
      Consistent(rows)
    }

    constructor ()
      ensures Valid() && rows == []
    {
      rows := [];
    }

    /** `add(JobApplication(**given)); commit()`, and `rollback()` when the commit
      * fails on a UNIQUE constraint: either the new row is in the table with the
      * next rowid, or the table is as it was. */
    method Insert(given: JobApplication, explicit: set<DefaultedColumn>, now: Timestamp) returns (committed: bool)
      requires Valid()
      modifies this
      ensures Valid()
      ensures var row := Create(given, explicit, |old(rows)| + 1, now);
        && committed == !Violates(old(rows), row)
        && rows == InsertOrRollback(old(rows), row)
    {
      var row := Create(given, explicit, |rows| + 1, now);
      InsertKeepsConsistent(rows, row);
      committed := forall i | 0 <= i < |rows| ::
        !((row.jobId.Some? && rows[i].jobId == row.jobId) || (row.jobUrl.Some? && rows[i].jobUrl == row.jobUrl));
      rows := InsertOrRollback(rows, row);
    }
  }
}
