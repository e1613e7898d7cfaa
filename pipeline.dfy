/**
 * The middle of `main()`: enriching the first five postings with company contact
 * information, then applying by e-mail to the postings of a slice capped at the
 * daily maximum, stopping when the manager reports the limit reached.
 */
module Pipeline {
  import opened Options
  import opened Text
  import opened PyValues
  import opened Database
  import opened Scraper
  import opened ContactFinder
  import opened Applicator

  /** The postings' dictionaries as they are now. */
  function Snapshot(jobs: seq<JobData>): (r: seq<Fields>)
    reads set i | 0 <= i < |jobs| :: jobs[i]
    ensures |r| == |jobs| && forall i :: 0 <= i < |jobs| ==> r[i] == jobs[i].fields
  {
    if jobs == [] then [] else Snapshot(jobs[..|jobs| - 1]) + [jobs[|jobs| - 1].fields]
  }

  /** A posting in a list that enrichment went over is an enrichment of what it
    * was; any other posting is untouched. */
  twostate predicate EnrichedUpTo(jobs: seq<JobData>, k: nat, fetch: string -> Option<Page>)
    requires k <= |jobs|
    reads set i | 0 <= i < |jobs| :: jobs[i]
  {
    forall i :: 0 <= i < |jobs| ==>
      if jobs[i] in jobs[..k] then EnrichmentOf(old(jobs[i].fields), jobs[i].fields, fetch)
      else jobs[i].fields == old(jobs[i].fields)
  }

  /** `for job in jobs[:min(5, len(jobs))]: job = contact_finder.enrich_job_posting(job)`.
    * The loop variable is rebound, but each dictionary is updated in place, so the
    * list sees the enrichment.  A dictionary listed twice is enriched twice, which
    * gives what enriching it once can give. */
  method EnrichFirstJobs(jobs: seq<JobData>, fetch: string -> Option<Page>)
    modifies set i | 0 <= i < |jobs| :: jobs[i]
    ensures EnrichedUpTo(jobs, Min(5, |jobs|), fetch)
  {
    var slice := jobs[..Min(5, |jobs|)];
    for k := 0 to |slice|
      invariant EnrichedUpTo(jobs, k, fetch)
    {
      label before:
      var job := EnrichJobPosting(slice[k], fetch);
      forall i | 0 <= i < |jobs|
        ensures if jobs[i] in jobs[..k + 1] then EnrichmentOf(old(jobs[i].fields), jobs[i].fields, fetch)
                else jobs[i].fields == old(jobs[i].fields)
      {
        assert jobs[..k + 1] == jobs[..k] + [jobs[k]];
        if jobs[i] == jobs[k] && jobs[i] in jobs[..k] {
          EnrichmentIdempotent(old(jobs[i].fields), old@before(jobs[i].fields), jobs[i].fields, fetch);
        }
      }
    }
  }

  /** For postings that are not repeated in the list, exactly the first five are
    * enriched. */
  lemma EnrichedFirstFive(jobs: seq<JobData>, i: nat)
    requires forall a, b :: 0 <= a < b < |jobs| ==> jobs[a] != jobs[b]
    requires i < |jobs|
    ensures jobs[i] in jobs[..Min(5, |jobs|)] <==> i < 5
  {
    if jobs[i] in jobs[..Min(5, |jobs|)] {
      var a :| 0 <= a < Min(5, |jobs|) && jobs[..Min(5, |jobs|)][a] == jobs[i];
      assert jobs[a] == jobs[i];
    }
    if i < 5 {
      assert jobs[..Min(5, |jobs|)][i] == jobs[i];
    }
  }

  /** How many postings the apply loop tries: the slice `jobs[:min(cap, len(jobs))]`
    * when the cap is positive, and none otherwise, since a manager with no
    * applications yet is already at a cap of zero or less. */
  function Attempted(cap: int, n: nat): nat {
    if cap <= 0 then 0 else Min(cap, n)
  }

  /** The first `n` postings an e-mail application succeeds for, in order. */
  function Applied(jobs: seq<Fields>, n: nat): (r: seq<Fields>)
    requires n <= |jobs|
    ensures |r| <= n
  {
    if n == 0 then []
    else Applied(jobs, n - 1) + (if Succeeds(jobs[n - 1], "email") then [jobs[n - 1]] else [])
  }

  /** A posting is among those applied to exactly when it is one of the first `n`
    * and has a contact e-mail. */
  lemma {:induction false} AppliedMembers(jobs: seq<Fields>, n: nat)
    requires n <= |jobs|
    ensures forall f :: f in Applied(jobs, n) <==> f in jobs[..n] && Succeeds(f, "email")
    decreases n
  {
    if n > 0 {
      AppliedMembers(jobs, n - 1);
      assert jobs[..n] == jobs[..n - 1] + [jobs[n - 1]];
    }
  }

  /** The mails handed to SMTP while applying to the first `n` postings: one per
    * successful application, in order. */
  function SentMails(sender: string, t: Template, jobs: seq<Fields>, n: nat): (r: seq<Mail>)
    requires n <= |jobs|
    ensures |r| == |Applied(jobs, n)|
  {
    if n == 0 then []
    else SentMails(sender, t, jobs, n - 1) +
         (if Succeeds(jobs[n - 1], "email") then [ApplicationMail(sender, t, jobs[n - 1])] else [])
  }

  /** The table after recording the successful applications among the first `n`
    * postings in turn, each insert committed or rolled back. */
  function RecordedRows(rows: seq<JobApplication>, jobs: seq<Fields>, n: nat, now: Timestamp): seq<JobApplication>
    requires n <= |jobs|
  {
    if n == 0 then rows
    else
      var before := RecordedRows(rows, jobs, n - 1, now);
      if Succeeds(jobs[n - 1], "email")
      then InsertOrRollback(before, Create(RecordOf(jobs[n - 1], "email", now), {ApplicationStatus}, |before| + 1, now))
      else before
  }

  /** Recording keeps the table consistent. */
  lemma {:induction false} RecordedKeepsConsistent(rows: seq<JobApplication>, jobs: seq<Fields>, n: nat, now: Timestamp)
    requires n <= |jobs| && Consistent(rows)
    ensures Consistent(RecordedRows(rows, jobs, n, now))
    decreases n
  {
    if n > 0 {
      RecordedKeepsConsistent(rows, jobs, n - 1, now);
      var before := RecordedRows(rows, jobs, n - 1, now);
      if Succeeds(jobs[n - 1], "email") {
        InsertKeepsConsistent(before, Create(RecordOf(jobs[n - 1], "email", now), {ApplicationStatus}, |before| + 1, now));
      }
    }
  }

  /** Recording keeps every row the table had, and adds at most one row per
    * successful application. */
  lemma {:induction false} RecordedKeepsRows(rows: seq<JobApplication>, jobs: seq<Fields>, n: nat, now: Timestamp)
    requires n <= |jobs|
    ensures var r := RecordedRows(rows, jobs, n, now);
      |rows| <= |r| <= |rows| + |Applied(jobs, n)| && r[..|rows|] == rows
    decreases n
  {
    if n > 0 {
      RecordedKeepsRows(rows, jobs, n - 1, now);
      var before := RecordedRows(rows, jobs, n - 1, now);
      if Succeeds(jobs[n - 1], "email") {
        var row := Create(RecordOf(jobs[n - 1], "email", now), {ApplicationStatus}, |before| + 1, now);
        assert |Applied(jobs, n)| == |Applied(jobs, n - 1)| + 1;
        assert (before + [row])[..|rows|] == before[..|rows|];
      }
    }
  }

  /** What the apply loop leaves behind: the number of successes, the mails sent
    * and the table. */
  datatype Outcome = Outcome(applied: int, outbox: seq<Mail>, rows: seq<JobApplication>)

  /** The outcome of applying by e-mail to the first `n` postings, in order, on a
    * table that held `rows`. */
  function Ran(rows: seq<JobApplication>, sender: string, t: Template, jobs: seq<Fields>, n: nat, now: Timestamp): Outcome
    requires n <= |jobs|
  {
    Outcome(|Applied(jobs, n)|, SentMails(sender, t, jobs, n), RecordedRows(rows, jobs, n, now))
  }

  /** The apply loop of `main()` on a manager that has applied nowhere yet: one
    * e-mail application per posting of the slice capped at the manager's daily
    * maximum, in order, counting the successes.  The loop reads the postings and
    * changes none of them, so it is stated over their dictionaries.  The limit
    * check can only stop the loop before its first posting, when the cap is zero
    * or less: inside the slice fewer than `cap` successes precede every posting. */
  method ApplyLoop(manager: ApplicationManager, jobs: seq<Fields>, now: Timestamp) returns (appliedCount: int)
    requires manager.Valid() && manager.applicationsToday == 0 && manager.outbox == []
    modifies manager, manager.db
    ensures manager.Valid() && appliedCount == manager.applicationsToday
    ensures Outcome(appliedCount, manager.outbox, manager.db.rows)
         == Ran(old(manager.db.rows), manager.sender, manager.template, jobs, Attempted(manager.maxPerDay, |jobs|), now)
  {
    appliedCount := 0;
    var cap := manager.maxPerDay;
    var slice := jobs[..SliceLength(Min(cap, |jobs|), |jobs|)];
    var k := 0;
    while k < |slice|
      invariant 0 <= k <= |slice| && k <= |jobs|
      invariant manager.Valid()
      invariant 0 < k ==> 0 < cap
      invariant appliedCount == manager.applicationsToday
      invariant Outcome(appliedCount, manager.outbox, manager.db.rows)
             == Ran(old(manager.db.rows), manager.sender, manager.template, jobs, k, now)
    {
      if manager.CheckDailyLimit() {
        break;
      }
      var job := slice[k];
      var success := manager.ApplyToJob(job, "email", now);
      if success {
        appliedCount := appliedCount + 1;
      }
      k := k + 1;
    }
    assert k == Attempted(cap, |jobs|);
  }

  /** `app_manager = ApplicationManager(db)` followed by the apply loop over the
    * postings, whose dictionaries it leaves as they are. */
  method ApplyJobs(jobs: seq<JobData>, store: Store, sender: string, cap: int, now: Timestamp)
    returns (appliedCount: int, manager: ApplicationManager)
    requires store.Valid()
    modifies store
    ensures Snapshot(jobs) == old(Snapshot(jobs))
    ensures fresh(manager) && manager.db == store && manager.Valid()
    ensures manager.template == LetterTemplate
    ensures appliedCount == manager.applicationsToday
    ensures 0 <= appliedCount <= |jobs| && (cap <= 0 ==> appliedCount == 0) && (0 < cap ==> appliedCount <= cap)
    ensures Outcome(appliedCount, manager.outbox, store.rows) == Ran(old(store.rows), sender, manager.template, Snapshot(jobs), Attempted(cap, |jobs|), now)
  {
    var postings := Snapshot(jobs);
    manager := new ApplicationManager(store, sender, cap);
    appliedCount := ApplyLoop(manager, postings, now);
  }

  /** A posting without a contact e-mail is never applied to. */
  lemma {:induction false} NoEmailNoApplications(jobs: seq<Fields>, n: nat)
    requires n <= |jobs|
    requires forall i :: 0 <= i < n ==> Get(jobs[i], "company_contact_email") == Null
    ensures Applied(jobs, n) == []
    decreases n
  {
    if n > 0 {
      NoEmailNoApplications(jobs, n - 1);
    }
  }

  /** Postings as the scrapers build them, enriched or not, are never applied to:
    * they have no website to find a contact e-mail on. */
  lemma ScrapedPostingsNotApplied(before: seq<Fields>, after: seq<Fields>, n: nat, fetch: string -> Option<Page>)
    requires |before| == |after| && n <= |after|
    requires forall i :: 0 <= i < |before| ==> before[i].Keys == PostingKeys
    requires forall i :: 0 <= i < |before| ==> after[i] == before[i] || EnrichmentOf(before[i], after[i], fetch)
    ensures Applied(after, n) == []
  {
    forall i | 0 <= i < n ensures Get(after[i], "company_contact_email") == Null {
      if after[i] != before[i] {
        ScrapedPostingGetsNoContact(before[i], after[i], fetch);
      }
    }
    NoEmailNoApplications(after, n);
  }

  /** `main()`, lines 35-56: enrichment of the first postings, then the apply loop
    * over the postings as enrichment left them. */
  method EnrichAndApply(jobs: seq<JobData>, fetch: string -> Option<Page>, store: Store,
                        sender: string, cap: int, now: Timestamp)
    returns (appliedCount: int, manager: ApplicationManager)
    requires store.Valid()
    modifies store, set i | 0 <= i < |jobs| :: jobs[i]
    ensures EnrichedUpTo(jobs, Min(5, |jobs|), fetch)
    ensures fresh(manager) && manager.db == store && manager.Valid()
    ensures appliedCount == manager.applicationsToday
    ensures Outcome(appliedCount, manager.outbox, store.rows) == Ran(old(store.rows), sender, manager.template, Snapshot(jobs), Attempted(cap, |jobs|), now)
  {
    EnrichFirstJobs(jobs, fetch);
    ghost var enriched := Snapshot(jobs);
    appliedCount, manager := ApplyJobs(jobs, store, sender, cap, now);
    assert forall i :: 0 <= i < |jobs| ==> jobs[i].fields == enriched[i];
  }
}
