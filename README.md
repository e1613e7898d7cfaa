# Job search automation, modelled in Dafny

This project models the application pipeline of the job-search automation tool.
The pipeline has six parts:

- the `job_applications` table and its constraints;
- the Indeed scraper, which turns result pages into posting dictionaries;
- the contact finder, which mines a company web page for an e-mail address, a phone number and a contact page, and enriches postings with them;
- the application manager, which applies by e-mail under a daily cap and records each success;
- the middle of `main()`, which enriches the first five postings and then runs the capped apply loop;
- the report generator, which counts, filters and sorts the stored applications.

There is one module per source file:

| Module | File |
|---|---|
| `Database` | `database.dfy` |
| `Scraper` | `scraper.dfy` |
| `ContactFinder` | `contact_finder.dfy` |
| `Applicator` | `applicator.dfy` |
| `Pipeline` | `pipeline.dfy` (`main.py`, lines 35-56) |
| `Reporter` | `reporter.dfy` |

They rest on three helper modules:

- `Options` holds `Option`.
- `Text` holds the Python string operations the code relies on: `strip`, `rstrip(c)`, `lower`, `in`, `startswith`, `str(int)`.
- `PyValues` holds the values a posting dictionary stores, and the `JobData` class.

A posting dictionary is a `JobData` object whose `fields` map is updated in place. Enrichment mutates the dictionaries that the posting list shares, and `main()` relies on that.

The table is a `seq<JobApplication>` in rowid order. It sits inside a `Store` whose invariant is:

- row ids run 1, 2, 3, …;
- `job_id` and `job_url` are unique among non-NULL values, as SQL UNIQUE columns are.

Insertion is insert-or-rollback: either the row goes in with the next rowid, or the table stays as it was.

The `ApplicationManager` class has four pieces of state:

- the store;
- the sender, and the daily cap (`MAX_APPLICATIONS_PER_DAY`, passed in as a parameter);
- the counter `applicationsToday`;
- an `outbox` of the mails handed to SMTP.

The manager's `template` field is the fixed cover-letter text around its blanks. The constructor sets it to the letter of `_generate_cover_letter`. The letter lemmas are stated for any template with the salutation. `CoverLetterSalutes` applies them to the real one.

Everything outside the program is a function parameter:

- the web (`fetch` for result pages and for company pages);
- Python's `hash`;
- `urljoin`, which answers `None` where it would raise `ValueError`;
- the clock (`now`, in microseconds since an epoch).

A report's query runs on an `Option` of the table. `None` stands for a failed session, and the report then takes its `except` branch.

The two regular expressions of the contact finder are modelled by scanners. Each scanner reproduces what `re.findall` returns for that pattern: the leftmost match, the pattern's backtracking worked out for that pattern, and the scan continuing after each match. `list(set(xs))[:k]` is a method that may list the distinct elements in any order. Its contract states only:

- no element repeats;
- every element is drawn from the input;
- how many elements there are;
- that all of them are listed when they fit.

Two facts about the code shape the model:

- **Status:** the code writes only `sent` and the default `pending`. No code path changes a status after insertion, so the model has no status updates.
- **`job_id`:** it is `hash(job_url) % 10**8`. Python's string hash is seeded per process, so the same URL can get different ids in different runs; the model fixes one `hash` per run.

## Model

| member | source | states |
|---|---|---|
| Text.LStripIsSuffix | src/scraper.py:67 | `lstrip()` cuts only leading whitespace: the result is a suffix whose first character is not whitespace |
| Text.RStripIsPrefix | src/scraper.py:67 | `rstrip()` cuts only trailing whitespace: the result is a prefix whose last character is not whitespace |
| Text.RStripKeepsFirst | src/applicator.py:124 | `rstrip()` keeps a non-space first character |
| Text.StripTrimmed | src/applicator.py:124 | `strip()` leaves no whitespace at either end and never lengthens the text |
| Text.StripAround | src/applicator.py:103-124 | stripping whitespace wrapped round a trimmed core gives back exactly the core |
| Text.LStripSpaces | src/applicator.py:124 | `lstrip()` of whitespace followed by a non-space gives what follows |
| Text.RStripSpaces | src/applicator.py:124 | `rstrip()` of a core ending in a non-space, followed by whitespace, gives the core |
| Text.RStripCharSpec | src/contact_finder.py:95 | `base_url.rstrip('/')` is `base_url` with exactly its run of trailing slashes removed |
| Text.LowerSpec | src/contact_finder.py:89-91 | `lower()` keeps the length, leaves no capital, turns each capital into a lower-case letter and keeps every other character in place |
| Text.LowerIdempotent | src/contact_finder.py:74 | lower-casing twice is lower-casing once |
| Text.LowerOfLowercase | src/contact_finder.py:74 | `lower()` does not change text without capitals |
| Text.NotContainsWithout | src/contact_finder.py:74 | `x in e` fails when `e` lacks a character of `x` |
| Text.NatToString | src/scraper.py:37 | `str(n)` is a non-empty string of digits, with a leading `0` only for zero |
| PyValues.JobData.constructor | src/scraper.py:89-100 | a new posting dictionary holds the given entries |
| Database.CreateDefaults | src/database.py:26-59 | a new row gets status `pending`, `interview_scheduled` False and `posted_date`/`last_updated` now, unless set explicitly; every other column is as given |
| Database.AllNullableColumnsMayBeNull | src/database.py:29-51 | a row with every contact, response and interview column NULL is a row of a consistent table |
| Database.AppendConsistentIff | src/database.py:17-20 | appending a row keeps `job_id` and `job_url` unique exactly when no stored row shares a non-NULL key with it |
| Database.InsertKeepsConsistent | src/database.py:17-20 | insert-or-rollback keeps the table consistent and adds either the row or nothing |
| Database.Store.constructor | src/database.py:69-72 | a new table is empty and consistent |
| Database.Store.Insert | src/applicator.py:164-170 | `add` + `commit`, or `rollback` on a UNIQUE violation: the commit succeeds exactly when no key collides, and the table then gains the row with the next rowid |
| Scraper.GetText | src/scraper.py:67 | `get_text(strip=True)` has no surrounding whitespace |
| Scraper.StrippedJoin | src/scraper.py:67 | joining stripped text nodes gives trimmed text |
| Scraper.TrimmedConcat | src/scraper.py:67 | concatenating trimmed texts gives trimmed text |
| Scraper.ExtractJobInfo | src/scraper.py:62-103 | `_extract_job_info` returns `None` exactly when the card has a title link that has no `href` (`KeyError`) or whose `href` `urljoin` rejects (`ValueError`) |
| Scraper.ExtractJobInfoShape | src/scraper.py:86-100 | an extracted posting has exactly the ten posting keys, `0 <= job_id < 10**8`, `job_board` "Indeed", the search-page URL as `source_url`, trimmed text fields, and a salary that is `None` exactly when the card has none and otherwise the stripped text |
| Scraper.MissingElementsReadNA | src/scraper.py:66-83 | for a card whose link, if any, resolves: each absent title, company, link, location or snippet element yields "N/A" |
| Scraper.SameUrlSameJobId | src/scraper.py:90 | within one run, postings with equal `job_url` get equal `job_id` |
| Scraper.LinklessCardsCollide | src/scraper.py:74-75 | two cards without a title link both get `job_url` "N/A" and the same `job_id` |
| Scraper.SearchUrls | src/scraper.py:34-37 | one URL per requested page |
| Scraper.SearchUrlsAt | src/scraper.py:34-37 | the p-th URL requested is the one of page p, with start offset `p * 10` |
| Scraper.SearchOffsetsDistinct | src/scraper.py:37 | distinct pages request distinct URLs |
| Scraper.NatToStringInjective | src/scraper.py:37 | `str(m) != str(n)` for distinct naturals |
| Scraper.PageJobsFromCards | src/scraper.py:44-51 | a page yields at most one posting per card, and each is a successful extraction of one of its cards |
| Scraper.ConcatGrows | src/scraper.py:34-58 | pages are appended in order: earlier parts form a prefix of later ones |
| Scraper.CollectedGrowsByPages | src/scraper.py:34-58 | the postings of the first m pages are a prefix of those of the first n |
| Scraper.CollectedFromFetchedPages | src/scraper.py:34-58 | every collected posting has the posting keys and comes from a page that was fetched successfully, whose URL it carries |
| Scraper.CollectPage | src/scraper.py:44-51 | the card loop yields fresh, distinct dictionaries holding the extractions of the cards, in card order, skipping the `None`s |
| Scraper.AppendHolding | src/scraper.py:48 | appending new distinct dictionaries to the list keeps the list in step with its contents |
| Scraper.CollectedStep | src/scraper.py:34-58 | one more page appends exactly that page's postings |
| Scraper.ScrapePage | src/scraper.py:35-58 | one page iteration appends that page's postings, or nothing when the request fails, and keeps the earlier ones |
| Scraper.SearchJobs | src/scraper.py:20-60 | requests pages `0 .. pages-1` in order and returns new dictionaries holding their postings page after page; a failed page adds nothing and later pages still run |
| Scraper.LinkedInSearchJobs | src/scraper.py:131-157 | the LinkedIn search always returns an empty list |
| Scraper.GlassdoorSearchJobs | src/scraper.py:169-189 | the Glassdoor search always returns an empty list |
| ContactFinder.RunEnd | src/contact_finder.py:71 | a greedy character-class repetition ends at the first character outside the class |
| ContactFinder.RunEndIs | src/contact_finder.py:71 | a run is determined by where it stops |
| ContactFinder.LastTldDot | src/contact_finder.py:71 | the domain part backtracks to the last dot that two letters follow |
| ContactFinder.MatchEmail | src/contact_finder.py:71 | a match at the front of the text is a non-empty `local@domain.tld` with a top-level domain of two or more letters |
| ContactFinder.EmailMatchShape | src/contact_finder.py:71 | the pieces the scanner finds make up an address of that shape |
| ContactFinder.OccursInSuffix | src/contact_finder.py:72 | what `findall` finds after a match still occurs in the whole text |
| ContactFinder.EmailMatchesSound | src/contact_finder.py:71-72 | every e-mail match has the address shape and occurs in the text |
| ContactFinder.NoAtNoEmails | src/contact_finder.py:71-72 | text without `@` yields no addresses |
| ContactFinder.SkipWithoutAt | src/contact_finder.py:72 | text without `@` ending in a separator contributes no match |
| ContactFinder.MatchAtLayout | src/contact_finder.py:71 | an address followed by a non-domain character is matched up to its end |
| ContactFinder.MatchWholeAddress | src/contact_finder.py:71 | `local@domain.tld` followed by a separator is matched whole |
| ContactFinder.Clean | src/contact_finder.py:74 | the noise filter never lengthens the list |
| ContactFinder.CleanMembers | src/contact_finder.py:74 | the filter keeps exactly the addresses whose lower-case form contains none of "noreply", "notification", "bot" |
| ContactFinder.TakeUnique | src/contact_finder.py:75 | `list(set(xs))[:k]`: no repeats, drawn from `xs`, as many elements as the slice keeps of the distinct ones (min(k, count) for k >= 0), all of them when they fit, and for a positive k empty exactly when `xs` is |
| ContactFinder.MatchPhone | src/contact_finder.py:80 | a phone match is `0` and nine digits, or optional `+`, `33`, optional whitespace and nine digits |
| ContactFinder.PhoneMatchShape | src/contact_finder.py:80 | the prefix the scanner takes has the phone shape |
| ContactFinder.PhoneMatchesSound | src/contact_finder.py:80-81 | every phone match has the phone shape and occurs in the text |
| ContactFinder.PhoneShapeMatches | src/contact_finder.py:80 | text that starts with a phone-shaped piece has a match at its start |
| ContactFinder.PhoneFoundIfPresent | src/contact_finder.py:80-81 | text containing a phone-shaped piece yields at least one number |
| ContactFinder.ExtractEmails | src/contact_finder.py:68-75 | at most five distinct genuine addresses, each a pattern match occurring in the text; all of them when there are at most five; none exactly when nothing survives the filter |
| ContactFinder.ExtractPhoneNumbers | src/contact_finder.py:77-82 | at most three distinct numbers, each a phone match of the text; all when there are at most three; none exactly when nothing matches |
| ContactFinder.AddressAfter | src/contact_finder.py:72 | an address after `@`-free text ending in a separator is the next match, and the scan resumes right after it |
| ContactFinder.OneAddressFound | src/contact_finder.py:72 | such text with one address yields exactly that address |
| ContactFinder.TwoAddressesFound | src/contact_finder.py:72 | two such addresses are found in order, and nothing else is |
| ContactFinder.CleanKeepsGenuine | src/contact_finder.py:74 | the filter keeps a list without noise as it is |
| ContactFinder.GenuineWithout | src/contact_finder.py:74 | a lower-case address lacking a letter of each noise word is not noise |
| ContactFinder.FirstTestAddressGenuine | tests/test_automation.py:25-30 | the first test address is not noise |
| ContactFinder.SecondTestAddressGenuine | tests/test_automation.py:25-30 | the second test address is not noise |
| ContactFinder.ExtractEmailsTestText | tests/test_automation.py:25-30 | the test text's filtered matches are exactly its two addresses, so `_extract_emails` returns both |
| ContactFinder.ExtractEmailTestText | tests/test_automation.py:60-63 | "Email: test@example.com" yields exactly that address |
| ContactFinder.ExtractPhoneNumbersTestText | tests/test_automation.py:32-36 | the test text containing `0123456789` yields at least one number |
| ContactFinder.Resolve | src/contact_finder.py:92-95 | a resolved contact link is never empty |
| ContactFinder.ResolveRules | src/contact_finder.py:92-95 | an `http` link is kept verbatim; a `/` link follows `base_url` with all trailing slashes removed; any other link resolves to nothing |
| ContactFinder.ContactPage | src/contact_finder.py:87-97 | `None` exactly when no anchor both mentions "contact" (text or href, ignoring case) and resolves; otherwise the resolution of the first such anchor |
| ContactFinder.ContactPageFrom | src/contact_finder.py:87-97 | the search at an anchor either stops there or goes on with the next one |
| ContactFinder.FindContactPage | src/contact_finder.py:84-97 | the early-return loop over the anchors computes that first match |
| ContactFinder.FirstEmail | src/contact_finder.py:49-58 | `emails[0] if emails else None` is `None` exactly when no genuine address was found, otherwise one of them |
| ContactFinder.FirstPhone | src/contact_finder.py:52-59 | `phones[0] if phones else None` is `None` exactly when no number was found, otherwise one of them |
| ContactFinder.ScrapeCompanyWebsite | src/contact_finder.py:41-66 | `{}` when fetching fails; otherwise exactly the four keys: e-mail, phone, the contact page URL and whether there is one |
| ContactFinder.FindCompanyInfo | src/contact_finder.py:14-39 | name and website as given; e-mail and phone `None` unless a non-empty website was fetched, in which case the scrape's entries are added |
| ContactFinder.EnrichJobPosting | src/contact_finder.py:99-123 | updates the same dictionary and returns it: the three contact keys are set from the company info, every other key is unchanged |
| ContactFinder.EnrichmentIdempotent | src/contact_finder.py:110-117 | enriching an enriched posting again gives what enriching the original can give |
| ContactFinder.ScrapedPostingGetsNoContact | src/contact_finder.py:110-117 | a posting as the scraper builds it has no `company_website`, so enrichment sets e-mail, phone and website to `None` |
| Applicator.TemplateEnds | src/applicator.py:103-123 | the letter template opens with "Dear Hiring Manager," and ends with the signature bracket |
| Applicator.FillEnds | src/applicator.py:103-123 | filling in the blanks keeps that salutation and leaves the letter without surrounding whitespace |
| Applicator.CoverLetterIsLetter | src/applicator.py:101-124 | the stripped f-string is the filled template exactly, starts with the salutation and is trimmed |
| Applicator.CoverLetterSalutes | src/applicator.py:101-124 | the same for the program's own letter text, for any posting |
| Applicator.StripLetter | src/applicator.py:103-124 | `strip()` removes exactly the f-string's leading newline and trailing indentation |
| Applicator.CoverLetterDependsOnThreeFields | src/applicator.py:106-113 | postings agreeing on title, company and location get the same letter |
| Applicator.Subject | src/applicator.py:65 | the subject is "Application for ", then `str(job_title)`, then " Position" |
| Applicator.RecordedRow | src/applicator.py:151-162 | a recorded row has status `sent`, the channel, `str(job_id)`, the application time, no interview scheduled and no contact e-mail |
| Applicator.MissingJobIdsCollide | src/applicator.py:152 | `str(None)` is "None": after one posting without `job_id` is recorded, a second one violates UNIQUE |
| Applicator.OnlyEmailSucceeds | src/applicator.py:31-45 | only the e-mail channel can succeed, never "online_form", "linkedin" or the CLI's "form"; with a string e-mail it succeeds exactly when the string is non-empty |
| Applicator.ApplicationManager.constructor | src/applicator.py:13-17 | a new manager has zero applications today and an empty outbox |
| Applicator.ApplicationManager.CheckDailyLimit | src/applicator.py:172-174 | true exactly when the count has reached the cap |
| Applicator.ApplicationManager.ApplyViaEmail | src/applicator.py:51-76 | succeeds exactly when the posting has a truthy contact e-mail, and then adds the subject-and-letter mail to that address to the outbox, whatever the delivery |
| Applicator.ApplicationManager.ApplyViaForm | src/applicator.py:78-88 | always fails |
| Applicator.ApplicationManager.ApplyViaLinkedIn | src/applicator.py:90-99 | always fails |
| Applicator.ApplicationManager.RecordApplication | src/applicator.py:148-170 | the table gains the recorded row, or is rolled back unchanged on a UNIQUE violation |
| Applicator.ApplicationManager.ApplyToJob | src/applicator.py:19-49 | succeeds exactly when the channel is e-mail and the posting has a contact e-mail; then one mail is sent, the row is inserted or rolled back and the count grows by one either way; otherwise nothing changes |
| Applicator.DailyLimitTest | tests/test_automation.py:45-51 | a manager with cap five is not at the limit at zero and is at it at five |
| Text.SliceLength | src/main.py:36 | `len(xs[:k])` is at most `len(xs)`, `min(k, len(xs))` for `k >= 0`, counted from the end for negative `k` |
| Pipeline.Snapshot | src/main.py:36-51 | the postings' current dictionaries, one for one |
| Pipeline.EnrichFirstJobs | src/main.py:35-39 | the postings among the first `min(5, len(jobs))` are enriched in place, every other posting is untouched |
| Pipeline.EnrichedFirstFive | src/main.py:36 | with no posting repeated, a posting is enriched exactly when it is among the first five |
| Pipeline.Applied | src/main.py:46-53 | at most one success per posting tried |
| Pipeline.AppliedMembers | src/main.py:46-53 | a posting is applied to exactly when it is among those tried and has a contact e-mail |
| Pipeline.SentMails | src/main.py:46-51 | one mail per success |
| Pipeline.RecordedKeepsConsistent | src/main.py:46-51 | recording the successes keeps `job_id` and `job_url` unique |
| Pipeline.RecordedKeepsRows | src/main.py:46-51 | recording keeps every earlier row and adds at most one row per success |
| Pipeline.ApplyLoop | src/main.py:44-55 | tries the postings of the capped slice once each, in order; the limit check fires only before the first when the cap is at most zero; `applied_count` equals the manager's count, and the mails and table are those of applying in order |
| Pipeline.ApplyJobs | src/main.py:43-55 | a fresh manager runs the loop; the postings are unchanged; `applied_count` equals the manager's count, lies between 0 and `min(cap, len(jobs))`, and is 0 when the cap is at most zero |
| Pipeline.NoEmailNoApplications | src/main.py:46-53 | postings without a contact e-mail are never applied to |
| Pipeline.ScrapedPostingsNotApplied | src/main.py:36-53 | scraped postings, enriched or not, have no contact e-mail, so none is applied to |
| Pipeline.EnrichAndApply | src/main.py:35-56 | enrichment of the first five, then the apply loop over the enriched postings, with the outcome of applying in order |
| Reporter.Filter | src/reporter.py:74-76 | a filter query returns no more rows than the table has |
| Reporter.FilterMembers | src/reporter.py:74-76 | a filter query returns exactly the rows that satisfy its condition |
| Reporter.FilterAppend | src/reporter.py:74-76 | filtering keeps table order |
| Reporter.StatusCountsBounded | src/reporter.py:50-55 | the five status counts sum to at most the number of rows |
| Reporter.GenerateStatusSummary | src/reporter.py:47-69 | `{}` exactly on failure; otherwise the total is the row count, each status count is at most the total and so is their sum; the rate is "0%" exactly when the total is 0, and otherwise (rejected + accepted + interview) over the total |
| Reporter.GenerateWeeklyReport | src/reporter.py:130-160 | `None` exactly on failure; otherwise the week starts seven days before now; the counts are those applied and contacted since then; interviews, rejections and offers are each at most the responses; the rate is "0%" exactly when nothing was applied for, and otherwise responses over applications |
| Reporter.WeeklyRateMayExceedFull | src/reporter.py:139-147 | a table where the weekly rate is 200%: responses may belong to older applications |
| Reporter.GenerateAllApplicationsReport | src/reporter.py:13-45 | `None` exactly on failure; otherwise one report row per stored row, in table order, with its fifteen columns |
| Reporter.WithContactEmailExactly | src/reporter.py:74-76 | the contact query returns exactly the rows with a non-null contact e-mail |
| Reporter.GenerateCompanyContactReport | src/reporter.py:71-97 | `None` exactly on failure; otherwise one report row per row with a contact e-mail, in table order, each showing that e-mail |
| Reporter.InsertByDate | src/reporter.py:105 | inserting into the sorted list keeps the rows as a multiset |
| Reporter.InsertByDateSorted | src/reporter.py:105 | inserting into a date-sorted list keeps it sorted |
| Reporter.SortByDate | src/reporter.py:105 | `ORDER BY interview_date` is a permutation of its input |
| Reporter.SortByDateSorted | src/reporter.py:105 | and its result is in ascending date order |
| Reporter.UpcomingInterviewsSpec | src/reporter.py:102-105 | the schedule query holds each scheduled interview dated now or later as often as the table does, and nothing else, earliest first |
| Reporter.GenerateInterviewSchedule | src/reporter.py:99-128 | `None` exactly on failure; otherwise one report row per upcoming interview, each dated no earlier than now, in ascending date order |
| Reporter.ApplicationByCompany | src/reporter.py:162-170 | `None` on failure or when no row has that company name; otherwise the first such row |
| Reporter.FirstByCompany | src/reporter.py:165-167 | `.first()` finds a row exactly when one matches, and returns the first match |

## Left out

- HTTP (`requests`), HTML parsing (BeautifulSoup), `urljoin` and Python's `hash`: these are function parameters. A card is the six lookups `_extract_job_info` makes. A company page is its text and its anchors.
- SMTP delivery, login and MIME assembly: the model records the mail handed over. `_send_email` swallows every error, so delivery cannot affect the outcome.
- `print`, `time.sleep`, and the `APPLICATION_DELAY_SECONDS` pause: they have no effect on state.
- `datetime.utcnow()`: it is passed as `now`. One run uses one instant, although the source reads the clock at each call.
- `IndeedScraper.get_job_details`: it is a single fetch and lookup that the pipeline never calls.
- FindCompanyInfo: the empty `social_media` entry is not modelled. Nothing reads it.
- `last_updated` refreshed on every update (`onupdate`): the code never updates a row, so only the value at creation is modelled.
- `salary_min` and `salary_max` are part of the row, but nothing writes them.
- ApplicationManager.ApplyToJob: the `except` branch is not modelled. Nothing in its body raises once the e-mail send and the record step swallow their own errors.
- Pipeline.EnrichAndApply: it does not restate the consequence about scraped postings. `ScrapedPostingsNotApplied` states it.
- Pipeline.EnrichAndApply: it does not restate that the manager's template is the program's letter. `ApplyJobs` states that.
- Text.Lower: it lower-cases ASCII letters only. This is exact for the e-mail addresses, which the pattern restricts to ASCII, but not for non-ASCII link text on a contact page.
- The French phone test (`"+33 1 23 45 67 89"`): the phone pattern cannot match it, because it has no nine consecutive digits. It is not stated as a property.
- The order in which `list(set(...))` lists its elements: only membership, uniqueness and size are specified.
- SortByDate: SQL leaves the order of rows with equal interview dates open. The model keeps them in table order.
- Reporter.ApplicationByCompany: `.first()` without `ORDER BY` is taken to return the first row in rowid order.
- Response rates: rates are an exact ratio or `"0%"`. The float percentage formatting is left out.
- GenerateWeeklyReport: the week start is the timestamp, not the `strftime('%Y-%m-%d')` string.
- pandas DataFrames and the Excel files: a report is its list of rows.
- GenerateAllApplicationsReport, GenerateCompanyContactReport, GenerateInterviewSchedule, GenerateWeeklyReport: a failure of `to_excel`, which also yields `None`, is not modelled. Only a failed query is.
- Not modelled, because they only set up or tear down sessions, print, or drive the program:
  - the `close` methods;
  - `get_db` and `init_db`'s engine mechanics;
  - `print_status_summary`;
  - `cli.py`, `setup.py`, `config/config.py`;
  - the rest of `main()`.
