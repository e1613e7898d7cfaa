/**
 * The application manager: it dispatches an application on its channel, writes
 * the pinned-down e-mail, records a successful application in the store and
 * counts the applications of the day against the daily cap.
 */
module Applicator {
  import opened Options
  import opened Text
  import opened PyValues
  import opened Database

  /** A message handed to the SMTP server, whether or not it was then delivered. */
  datatype Mail = Mail(sender: string, recipient: string, subject: string, body: string)

  /** The fixed text of the cover letter around its three blanks (the title appears
    * twice, so does the company). */
  datatype Template = Template(opening: string, afterTitle: string, afterCompany: string,
                               afterPosition: string, afterCompanyLine: string, closing: string)

  /** The cover letter template; its opening starts after the newline that opens the
    * f-string and its closing ends before the indentation that closes it.  The text
    * is spelled word by word: the verifier's reasoning about a string literal grows
    * with the square of its length, and about a sum of short ones only linearly. */
  const LetterTemplate: Template := Template(
    "Dear" + " Hiring" + " Manager," +
      "\n\nI" + " am" + " writing" + " to" + " express" + " my" + " strong" + " interest" +
      " in" + " the" + " ",
    " position" + " at" + " ",
    "." +
      "\n\nWith" + " my" + " relevant" + " experience" + " and" + " skills," + " I" + " am" +
      " confident" + " I" + " can" + " make" + " a" + " significant" + " contribution" + " to" +
      " your" + " team." +
      "\n\nJob" + " Details:" +
      "\n-" + " Position:" + " ",
    "\n-" + " Company:" + " ",
    "\n-" + " Location:" + " ",
    "\n\nI" + " believe" + " this" + " role" + " aligns" + " perfectly" + " with" + " my" +
      " career" + " goals" + " and" + " expertise." +
      "\n\nThank" + " you" + " for" + " considering" + " my" + " application." + " I" + " look" +
      " forward" + " to" + " the" + " opportunity" + " to" + " discuss" + " how" + " I" +
      " can" + " contribute" + " to" + " your" + " organization." +
      "\n\nBest" + " regards," +
      "\n[Your" + " Name]" +
      "\nContact:" + " [Your" + " Email]" +
      "\nPhone:" + " [Your" + " Phone]")

  /** A template with its blanks filled in: the title and the company appear twice. */
  function Fill(t: Template, title: string, company: string, location: string): string {
    t.opening + title + t.afterTitle + company + t.afterCompany + title +
    t.afterPosition + company + t.afterCompanyLine + location + t.closing
  }

  /** A template that opens with the salutation and closes with the bracket of the
    * signature block. */
  predicate Salutes(t: Template) {
    StartsWith(t.opening, "Dear Hiring Manager,") && t.closing != [] && t.closing[|t.closing| - 1] == ']'
  }

  /** The cover letter template starts with the salutation and ends with the
    * signature block. */
  lemma TemplateEnds()
    ensures Salutes(LetterTemplate)
  {
    var salutation := "Dear Hiring Manager,";
    assert LetterTemplate.opening[..|salutation|] == salutation;
  }

  /** Filling in the blanks keeps the first and the last characters. */
  lemma FillEnds(t: Template, title: string, company: string, location: string)
    requires Salutes(t)
    ensures var b := Fill(t, title, company, location);
      b != [] && Trimmed(b) && StartsWith(b, "Dear Hiring Manager,")
  {
    var b := Fill(t, title, company, location);
    var middle := b[|t.opening|..|b| - |t.closing|];
    assert b == t.opening + middle + t.closing;
    assert b[..|"Dear Hiring Manager,"|] == t.opening[..|"Dear Hiring Manager,"|];
    assert b[|b| - 1] == t.closing[|t.closing| - 1];
  }

  /** `ApplicationManager._generate_cover_letter(job_data)`: the f-string over the
    * manager's template, stripped. */
  function CoverLetter(t: Template, job: Fields): string {
    Strip("\n" + Fill(t, Render(Get(job, "job_title")), Render(Get(job, "company_name")), Render(Get(job, "location"))) + "\n        ")
  }

  /** The stripped f-string is the letter with the posting's title, company and
    * location, and nothing else of the posting: the strip removes exactly the
    * newline before it and the indentation after it. */
  lemma CoverLetterIsLetter(t: Template, job: Fields)
    requires Salutes(t)
    ensures var r := CoverLetter(t, job);
      && r == Fill(t, Render(Get(job, "job_title")), Render(Get(job, "company_name")), Render(Get(job, "location")))
      && StartsWith(r, "Dear Hiring Manager,") && Trimmed(r)
  {
    var body := Fill(t, Render(Get(job, "job_title")), Render(Get(job, "company_name")), Render(Get(job, "location")));
    FillEnds(t, Render(Get(job, "job_title")), Render(Get(job, "company_name")), Render(Get(job, "location")));
    StripLetter(body);
  }

  /** The letter of the cover letter template, for any posting. */
  lemma CoverLetterSalutes(job: Fields)
    ensures var r := CoverLetter(LetterTemplate, job);
      && r == Fill(LetterTemplate, Render(Get(job, "job_title")), Render(Get(job, "company_name")), Render(Get(job, "location")))
      && StartsWith(r, "Dear Hiring Manager,") && Trimmed(r)
  {
    TemplateEnds();
    CoverLetterIsLetter(LetterTemplate, job);
  }

  /** The f-string puts a newline before the letter and an indentation after it,
    * and `strip()` removes exactly those. */
  lemma StripLetter(body: string)
    requires body != [] && Trimmed(body)
    ensures Strip("\n" + body + "\n        ") == body
  {
    StripAround("\n", body, "\n        ");
  }

  /** Two postings that agree on title, company and location get the same letter. */
  lemma CoverLetterDependsOnThreeFields(t: Template, a: Fields, b: Fields)
    requires Get(a, "job_title") == Get(b, "job_title")
    requires Get(a, "company_name") == Get(b, "company_name")
    requires Get(a, "location") == Get(b, "location")
    ensures CoverLetter(t, a) == CoverLetter(t, b)
  {
  }

  /** The subject line `f"Application for {job_title} Position"`. */
  function Subject(job: Fields): (r: string)
    ensures |r| == |"Application for "| + |Render(Get(job, "job_title"))| + |" Position"|
    ensures StartsWith(r, "Application for ")
    ensures r[|"Application for "|..|r| - |" Position"|] == Render(Get(job, "job_title"))
    ensures r[|r| - |" Position"|..] == " Position"
  {
    var r := "Application for " + Render(Get(job, "job_title")) + " Position";
    assert r[..|"Application for "|] == "Application for ";
    r
  }

  /** The mail `_apply_via_email` hands to `_send_email` for a posting. */
  function ApplicationMail(sender: string, t: Template, job: Fields): Mail {
    Mail(sender, Render(Get(job, "company_contact_email")), Subject(job), CoverLetter(t, job))
  }

  /** The `JobApplication(...)` that `_record_application` builds: the posting's
    * identity and description columns, `str(job_id)`, the channel, status `sent`
    * and the time of application; the contact columns stay NULL. */
  function RecordOf(job: Fields, channel: string, now: Timestamp): JobApplication {
    NoColumns.(
      jobId := Some(Render(Get(job, "job_id"))),
      companyName := AsColumn(Get(job, "company_name")),
      jobTitle := AsColumn(Get(job, "job_title")),
      jobUrl := AsColumn(Get(job, "job_url")),
      jobDescription := AsColumn(Get(job, "job_description")),
      location := AsColumn(Get(job, "location")),
      jobBoard := AsColumn(Get(job, "job_board")),
      dateApplied := Some(now),
      applicationMethod := Some(channel),
      applicationStatus := Some("sent"))
  }

  /** The row a recorded application adds: status `sent` (it is set explicitly, so
    * the `pending` default does not apply), the channel, `str(job_id)`, and no
    * interview scheduled. */
  lemma RecordedRow(job: Fields, channel: string, id: int, now: Timestamp)
    ensures var r := Create(RecordOf(job, channel, now), {ApplicationStatus}, id, now);
      && r.applicationStatus == Some("sent")
      && r.applicationMethod == Some(channel)
      && r.jobId == Some(Render(Get(job, "job_id")))
      && r.interviewScheduled == Some(false)
      && r.dateApplied == Some(now) && r.lastUpdated == Some(now)
      && r.companyContactEmail == None
  {
  }

  /** `str(None)` is `"None"`: two postings without a `job_id` are recorded under the
    * same key, so the second insert fails on the UNIQUE constraint. */
  lemma MissingJobIdsCollide(a: Fields, b: Fields, channel: string, rows: seq<JobApplication>, now: Timestamp)
    requires "job_id" !in a && "job_id" !in b
    requires InsertOrRollback(rows, Create(RecordOf(a, channel, now), {ApplicationStatus}, |rows| + 1, now)) != rows
    ensures var rows' := InsertOrRollback(rows, Create(RecordOf(a, channel, now), {ApplicationStatus}, |rows| + 1, now));
      Violates(rows', Create(RecordOf(b, channel, now), {ApplicationStatus}, |rows'| + 1, now))
  {
    var ra := Create(RecordOf(a, channel, now), {ApplicationStatus}, |rows| + 1, now);
    var rows' := rows + [ra];
    var rb := Create(RecordOf(b, channel, now), {ApplicationStatus}, |rows'| + 1, now);
    assert ra.jobId == Some("None") == rb.jobId;
    assert rows'[|rows|] == ra;
  }

  /** The outcome of `apply_to_job`: only the e-mail channel can succeed, and it does
    * exactly when the posting has a contact e-mail. */
  predicate Succeeds(job: Fields, channel: string) {
    channel == "email" && Truthy(Get(job, "company_contact_email"))
  }

  /** Channels other than the e-mail one never succeed, the CLI's `form` among them. */
  lemma OnlyEmailSucceeds(job: Fields, channel: string)
    ensures Succeeds(job, channel) ==> channel == "email"
    ensures !Succeeds(job, "online_form") && !Succeeds(job, "linkedin") && !Succeeds(job, "form")
    ensures Get(job, "company_contact_email") == Null ==> !Succeeds(job, channel)
    ensures Get(job, "company_contact_email").Str? ==>
      (Succeeds(job, "email") <==> Get(job, "company_contact_email").s != "")
  {
  }

  /** `ApplicationManager`: the session it records into, the sender address, the
    * daily cap, the letter template of `_generate_cover_letter`, the count of
    * applications made today, and the mails handed to SMTP. */
  class ApplicationManager {
    const db: Store
    const sender: string
    const maxPerDay: int
    const template: Template
    var applicationsToday: nat
    var outbox: seq<Mail>

    ghost predicate Valid()
      reads this, db
    {
      db.Valid()
    }

    /** `ApplicationManager()`: a session on the store and a zero count. */
    constructor (store: Store, sender: string, maxPerDay: int)
      requires store.Valid()
      ensures Valid()
      ensures db == store && this.sender == sender && this.maxPerDay == maxPerDay
      ensures applicationsToday == 0 && outbox == [] && template == LetterTemplate
    {
      db := store;
      this.sender := sender;
      this.maxPerDay := maxPerDay;
      applicationsToday := 0;
      outbox := [];
      template := LetterTemplate;
    }

    /** `check_daily_limit()`: the count has reached the cap. */
    function CheckDailyLimit(): (r: bool)
      reads this
      ensures r <==> !(applicationsToday < maxPerDay)
    {
      applicationsToday >= maxPerDay
    }

    /** `_apply_via_email(job_data)`: without a contact e-mail nothing is sent and the
      * channel fails; otherwise the mail is handed to SMTP and, since send errors
      * are swallowed, the channel succeeds whatever the delivery. */
    method ApplyViaEmail(job: Fields) returns (success: bool)
      modifies this
      ensures success <==> Truthy(Get(job, "company_contact_email"))
      ensures outbox == old(outbox) + (if success then [ApplicationMail(sender, template, job)] else [])
      ensures applicationsToday == old(applicationsToday)
    {
      var companyEmail := Get(job, "company_contact_email");
      if !Truthy(companyEmail) {
        return false;
      }
      var coverLetter := CoverLetter(template, job);
      outbox := outbox + [Mail(sender, Render(companyEmail), Subject(job), coverLetter)];
      return true;
    }

    /** `_apply_via_form(job_data)`: not automated, always fails. */
    method ApplyViaForm(job: Fields) returns (success: bool)
      ensures !success
    {
      return false;
    }

    /** `_apply_via_linkedin(job_data)`: not automated, always fails. */
    method ApplyViaLinkedIn(job: Fields) returns (success: bool)
      ensures !success
    {
      return false;
    }

    /** `_record_application(job_data, method)`: add the row and commit, or roll
      * back when the commit fails. */
    method RecordApplication(job: Fields, channel: string, now: Timestamp)
      requires Valid()
      modifies db
      ensures Valid()
      ensures db.rows == InsertOrRollback(old(db.rows), Create(RecordOf(job, channel, now), {ApplicationStatus}, |old(db.rows)| + 1, now))
    {
      var _ := db.Insert(RecordOf(job, channel, now), {ApplicationStatus}, now);
    }

    /** `apply_to_job(job_data, method)`: on success one application is recorded
      * (or rolled back) and the count grows by one; on failure nothing changes. */
    method ApplyToJob(job: Fields, channel: string, now: Timestamp) returns (success: bool)
      requires Valid()
      modifies this, db
      ensures Valid()
      ensures success <==> Succeeds(job, channel)
      ensures applicationsToday == old(applicationsToday) + (if success then 1 else 0)
      ensures success ==> outbox == old(outbox) + [ApplicationMail(sender, template, job)]
      ensures success ==> db.rows == InsertOrRollback(old(db.rows), Create(RecordOf(job, channel, now), {ApplicationStatus}, |old(db.rows)| + 1, now))
      ensures !success ==> outbox == old(outbox) && db.rows == old(db.rows)
    {
      if channel == "email" {
        success := ApplyViaEmail(job);
      } else if channel == "online_form" {
        success := ApplyViaForm(job);
      } else if channel == "linkedin" {
        success := ApplyViaLinkedIn(job);
      } else {
        return false;
      }
      if success {
        RecordApplication(job, channel, now);
        applicationsToday := applicationsToday + 1;
        return true;
      }
      return false;
    }
  }

  /** The daily-limit test: a fresh manager with a cap of five is under the limit,
    * and five applications later it has reached it. */
  method DailyLimitTest(store: Store) returns (atStart: bool, atFive: bool)
    requires store.Valid()
    ensures !atStart && atFive
  {
    var manager := new ApplicationManager(store, "", 5);
    atStart := manager.CheckDailyLimit();
    manager.applicationsToday := 5;
    atFive := manager.CheckDailyLimit();
  }
}
