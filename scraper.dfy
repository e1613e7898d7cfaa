/**
 * Posting discovery.  The Indeed scraper requests result pages `start = 0, 10, 20, ...`
 * and turns every job card on a page into a posting dictionary; the LinkedIn and
 * Glassdoor scrapers are stubs that find nothing.
 *
 * HTML is abstracted: a card is the set of element lookups the normaliser performs,
 * each `None` when the element is absent; an element is the list of its text nodes.
 * HTTP fetching and parsing, Python's `hash` and `urljoin` are function parameters;
 * `urljoin` answers `None` where it would raise.
 */
module Scraper {
  import opened Options
  import opened Text
  import opened PyValues

  const IndeedBaseUrl := "https://www.indeed.com"

  /** A parsed HTML element, as the text nodes it contains in document order. */
  datatype Element = Element(strings: seq<string>)

  /** `job_link`: the `a.jcs-JobTitle` anchor, with its `href` attribute if it has one. */
  datatype Link = Link(href: Option<string>)

  /** A `div.job_seen_beacon` card, as the six lookups made on it. */
  datatype Card = Card(
    title: Option<Element>,     // h2.jobTitle
    company: Option<Element>,   // span.companyName
    link: Option<Link>,         // a.jcs-JobTitle
    location: Option<Element>,  // div.companyLocation
    snippet: Option<Element>,   // div.job-snippet
    salary: Option<Element>)    // span.salary-snippet

  /** BeautifulSoup's `get_text(strip=True)`: every text node stripped, the empty
    * ones dropped, the rest joined with no separator. */
  function GetText(e: Element): (r: string)
    ensures Trimmed(r)
  {
    StrippedJoin(e.strings)
  }

  function StrippedJoin(ss: seq<string>): (r: string)
    ensures Trimmed(r)
    decreases |ss|
  {
    if ss == [] then ""
    else
      var head := Strip(ss[0]);
      StripTrimmed(ss[0]);
      TrimmedConcat(head, StrippedJoin(ss[1..]));
      head + StrippedJoin(ss[1..])
  }

  lemma TrimmedConcat(a: string, b: string)
    requires Trimmed(a) && Trimmed(b)
    ensures Trimmed(a + b)
  {
    if a != [] && b != [] {
      assert (a + b)[0] == a[0] && (a + b)[|a + b| - 1] == b[|b| - 1];
    } else if a == [] {
      assert a + b == b;
    } else {
      assert a + b == a;
    }
  }

  /** The keys of a posting dictionary built by `_extract_job_info`. */
  const PostingKeys: set<string> := {"job_id", "company_name", "job_title", "job_url", "job_description",
                                     "location", "salary", "job_board", "posted_date", "source_url"}

  const JobIdModulus := 100000000    // 10**8

  /** `elem.get_text(strip=True) if elem else "N/A"` */
  function TextOrNA(e: Option<Element>): string {
    if e.Some? then GetText(e.value) else "N/A"
  }

  /** The link of a card can be followed: it has an `href`, and `urljoin` resolves
    * that against the base URL without raising. */
  predicate Resolvable(link: Link, urljoin: string -> Option<string>) {
    link.href.Some? && urljoin(link.href.value).Some?
  }

  /** The job URL of a card: the link's `href` resolved against the base URL, or
    * "N/A" without a link.  (Only called when a present link resolves.) */
  function JobUrl(card: Card, urljoin: string -> Option<string>): string
    requires card.link.Some? ==> Resolvable(card.link.value, urljoin)
  {
    if card.link.Some? then urljoin(card.link.value.href.value).value else "N/A"
  }

  /** `IndeedScraper._extract_job_info(job_card, source_url)`.  Its body can raise in
    * two places, both on the title link: the `KeyError` of `job_link['href']` when
    * the link has no `href`, and the `ValueError` of `urljoin` on an `href` it cannot
    * parse (`urljoin` answers `None` then).  The `except` turns either into `None`. */
  function ExtractJobInfo(card: Card, sourceUrl: string, now: int, hash: string -> int, urljoin: string -> Option<string>)
    : (r: Option<Fields>)
    ensures r.None? <==> card.link.Some? && !Resolvable(card.link.value, urljoin)
  {
    if card.link.Some? && !Resolvable(card.link.value, urljoin) then None
    else
      var jobUrl := JobUrl(card, urljoin);
      Some(map[
        "job_id" := Int(hash(jobUrl) % JobIdModulus),
        "company_name" := Str(TextOrNA(card.company)),
        "job_title" := Str(TextOrNA(card.title)),
        "job_url" := Str(jobUrl),
        "job_description" := Str(TextOrNA(card.snippet)),
        "location" := Str(TextOrNA(card.location)),
        "salary" := if card.salary.Some? then Str(GetText(card.salary.value)) else Null,
        "job_board" := Str("Indeed"),
        "posted_date" := Time(now),
        "source_url" := Str(sourceUrl)])
  }

  /** What every extracted posting looks like: exactly the posting keys, an id in
    * `[0, 10**8)`, board "Indeed", the search page (not the job page) as
    * `source_url`, text fields without surrounding whitespace, and a salary that is
    * `None` exactly when the card shows none. */
  lemma ExtractJobInfoShape(card: Card, sourceUrl: string, now: int, hash: string -> int, urljoin: string -> Option<string>)
    requires ExtractJobInfo(card, sourceUrl, now, hash, urljoin).Some?
    ensures var x := ExtractJobInfo(card, sourceUrl, now, hash, urljoin).value;
      && x.Keys == PostingKeys
      && x["job_id"].Int? && 0 <= x["job_id"].i < JobIdModulus
      && x["job_board"] == Str("Indeed")
      && x["source_url"] == Str(sourceUrl)
      && x["posted_date"] == Time(now)
      && (forall k :: k in {"company_name", "job_title", "job_description", "location"} ==>
            x[k].Str? && Trimmed(x[k].s))
      && (x["salary"] == Null <==> card.salary.None?)
      && (card.salary.Some? ==> x["salary"] == Str(GetText(card.salary.value)) && Trimmed(x["salary"].s))
  {
  }

  /** Each missing title, company, link, location or snippet element reads "N/A". */
  lemma MissingElementsReadNA(card: Card, sourceUrl: string, now: int, hash: string -> int, urljoin: string -> Option<string>)
    requires card.link.Some? ==> Resolvable(card.link.value, urljoin)
    ensures var r := ExtractJobInfo(card, sourceUrl, now, hash, urljoin);
      && r.Some?
      && (card.title.None? ==> r.value["job_title"] == Str("N/A"))
      && (card.company.None? ==> r.value["company_name"] == Str("N/A"))
      && (card.link.None? ==> r.value["job_url"] == Str("N/A"))
      && (card.location.None? ==> r.value["location"] == Str("N/A"))
      && (card.snippet.None? ==> r.value["job_description"] == Str("N/A"))
  {
    var x := ExtractJobInfo(card, sourceUrl, now, hash, urljoin).value;
    assert x["job_title"] == Str(TextOrNA(card.title));
    assert x["company_name"] == Str(TextOrNA(card.company));
    assert x["job_url"] == Str(JobUrl(card, urljoin));
    assert x["location"] == Str(TextOrNA(card.location));
    assert x["job_description"] == Str(TextOrNA(card.snippet));
  }

  /** `job_id` is a function of `job_url` within one run (one `hash`): postings with the
    * same URL get the same id. */
  lemma SameUrlSameJobId(a: Card, b: Card, urlA: string, urlB: string, now: int, hash: string -> int, urljoin: string -> Option<string>)
    requires ExtractJobInfo(a, urlA, now, hash, urljoin).Some? && ExtractJobInfo(b, urlB, now, hash, urljoin).Some?
    requires ExtractJobInfo(a, urlA, now, hash, urljoin).value["job_url"] == ExtractJobInfo(b, urlB, now, hash, urljoin).value["job_url"]
    ensures ExtractJobInfo(a, urlA, now, hash, urljoin).value["job_id"] == ExtractJobInfo(b, urlB, now, hash, urljoin).value["job_id"]
  {
  }

  /** Two cards without a title link both get `job_url` "N/A" and hence the same
    * `job_id`; the `UNIQUE` columns make the second of them unrecordable. */
  lemma LinklessCardsCollide(a: Card, b: Card, urlA: string, urlB: string, now: int, hash: string -> int, urljoin: string -> Option<string>)
    requires a.link.None? && b.link.None?
    ensures var ra := ExtractJobInfo(a, urlA, now, hash, urljoin);
            var rb := ExtractJobInfo(b, urlB, now, hash, urljoin);
      ra.Some? && rb.Some? && ra.value["job_url"] == rb.value["job_url"] == Str("N/A") &&
      ra.value["job_id"] == rb.value["job_id"]
  {
  }

  /** The search URL of result page `page`: it starts at offset `page * 10`. */
  function SearchUrl(keywords: string, location: string, page: nat): string {
    IndeedBaseUrl + "/jobs?q=" + keywords + "&l=" + location + "&start=" + NatToString(page * 10)
  }

  /** The URLs of result pages `0 .. n-1`, in request order. */
  function SearchUrls(keywords: string, location: string, n: nat): (r: seq<string>)
    ensures |r| == n
  {
    if n == 0 then [] else SearchUrls(keywords, location, n - 1) + [SearchUrl(keywords, location, n - 1)]
  }

  /** The `p`-th requested URL is the one of page `p`. */
  lemma {:induction false} SearchUrlsAt(keywords: string, location: string, n: nat, p: nat)
    requires p < n
    ensures SearchUrls(keywords, location, n)[p] == SearchUrl(keywords, location, p)
    decreases n
  {
    if p < n - 1 {
      SearchUrlsAt(keywords, location, n - 1, p);
    }
  }

  /** The offset written into a search URL is exactly ten times the page number:
    * distinct pages request distinct offsets. */
  lemma {:induction false} SearchOffsetsDistinct(keywords: string, location: string, p: nat, q: nat)
    requires p != q
    ensures SearchUrl(keywords, location, p) != SearchUrl(keywords, location, q)
  {
    var prefix := IndeedBaseUrl + "/jobs?q=" + keywords + "&l=" + location + "&start=";
    assert SearchUrl(keywords, location, p) == prefix + NatToString(p * 10);
    assert SearchUrl(keywords, location, q) == prefix + NatToString(q * 10);
    NatToStringInjective(p * 10, q * 10);
    assert (prefix + NatToString(p * 10))[|prefix|..] == NatToString(p * 10);
    assert (prefix + NatToString(q * 10))[|prefix|..] == NatToString(q * 10);
  }

  lemma {:induction false} NatToStringInjective(m: nat, n: nat)
    requires m != n
    ensures NatToString(m) != NatToString(n)
    decreases m + n
  {
    var sm, sn := NatToString(m), NatToString(n);
    if m < 10 && n < 10 {
      assert sm[0] != sn[0];
    } else if m < 10 {
      assert |sn| >= 2;
    } else if n < 10 {
      assert |sm| >= 2;
    } else if m / 10 != n / 10 {
      NatToStringInjective(m / 10, n / 10);
      assert NatToString(m / 10) == sm[..|sm| - 1];
      assert NatToString(n / 10) == sn[..|sn| - 1];
    } else {
      assert m % 10 != n % 10;
      assert sm[|sm| - 1] == DigitChar(m % 10) && sn[|sn| - 1] == DigitChar(n % 10);
    }
  }

  /** A present value becomes a one-element list, `None` none (`if job_data: jobs.append(job_data)`). */
  function Present<T>(o: Option<T>): seq<T> {
    if o.Some? then [o.value] else []
  }

  /** The postings a page's cards yield, in card order. */
  function PageJobs(cards: seq<Card>, url: string, now: int, hash: string -> int, urljoin: string -> Option<string>): seq<Fields>
    decreases |cards|
  {
    if cards == [] then []
    else PageJobs(cards[..|cards| - 1], url, now, hash, urljoin) + Present(ExtractJobInfo(cards[|cards| - 1], url, now, hash, urljoin))
  }

  /** The postings page `page` contributes: none when its request or parse failed
    * (`fetch` answers `None`). */
  function PageResult(keywords: string, location: string, page: nat, fetch: string -> Option<seq<Card>>,
                      now: int, hash: string -> int, urljoin: string -> Option<string>): seq<Fields>
  {
    var url := SearchUrl(keywords, location, page);
    var response := fetch(url);
    if response.Some? then PageJobs(response.value, url, now, hash, urljoin) else []
  }

  /** The postings each result page contributes, as a function of the page number. */
  function Pages(keywords: string, location: string, fetch: string -> Option<seq<Card>>,
                 now: int, hash: string -> int, urljoin: string -> Option<string>): nat -> seq<Fields>
  {
    (p: nat) => PageResult(keywords, location, p, fetch, now, hash, urljoin)
  }

  /** The parts `0 .. n-1` of `part`, one after another. */
  function Concat<T>(part: nat -> seq<T>, n: nat): seq<T> {
    if n == 0 then [] else Concat(part, n - 1) + part(n - 1)
  }

  /** The postings of pages `0 .. n-1`, page after page; a failed page adds nothing
    * and the later pages still run. */
  function Collected(keywords: string, location: string, n: nat, fetch: string -> Option<seq<Card>>,
                     now: int, hash: string -> int, urljoin: string -> Option<string>): seq<Fields>
  {
    Concat(Pages(keywords, location, fetch, now, hash, urljoin), n)
  }

  /** Every posting of a page is a successful extraction of one of its cards, built
    * with that page's URL as `source_url`. */
  lemma {:induction false} PageJobsFromCards(cards: seq<Card>, url: string, now: int, hash: string -> int, urljoin: string -> Option<string>)
    ensures |PageJobs(cards, url, now, hash, urljoin)| <= |cards|
    ensures forall x :: x in PageJobs(cards, url, now, hash, urljoin) ==>
      exists c :: c in cards && ExtractJobInfo(c, url, now, hash, urljoin) == Some(x)
    decreases |cards|
  {
    if cards != [] {
      var init := cards[..|cards| - 1];
      PageJobsFromCards(init, url, now, hash, urljoin);
      forall x | x in PageJobs(cards, url, now, hash, urljoin)
        ensures exists c :: c in cards && ExtractJobInfo(c, url, now, hash, urljoin) == Some(x)
      {
        if x in PageJobs(init, url, now, hash, urljoin) {
          var c :| c in init && ExtractJobInfo(c, url, now, hash, urljoin) == Some(x);
          assert c in cards;
        } else {
          assert cards[|cards| - 1] in cards;
        }
      }
    }
  }

  /** Parts are concatenated in order: the first `m` parts are a prefix of the first `n`. */
  lemma {:induction false} ConcatGrows<T>(part: nat -> seq<T>, m: nat, n: nat)
    requires m <= n
    ensures Concat(part, m) <= Concat(part, n)
    decreases n
  {
    if m < n {
      ConcatGrows(part, m, n - 1);
      assert Concat(part, n)[..|Concat(part, n - 1)|] == Concat(part, n - 1);
    }
  }

  /** Pages are collected in order: the postings of the first `m` pages are a
    * prefix of those of the first `n`. */
  lemma CollectedGrowsByPages(keywords: string, location: string, m: nat, n: nat,
                              fetch: string -> Option<seq<Card>>,
                              now: int, hash: string -> int, urljoin: string -> Option<string>)
    requires m <= n
    ensures Collected(keywords, location, m, fetch, now, hash, urljoin) <= Collected(keywords, location, n, fetch, now, hash, urljoin)
  {
    ConcatGrows(Pages(keywords, location, fetch, now, hash, urljoin), m, n);
  }

  /** Every collected posting comes from a page that was fetched successfully,
    * carries that page's URL as `source_url`, and has exactly the posting keys. */
  lemma {:induction false} CollectedFromFetchedPages(keywords: string, location: string, n: nat,
                                                     fetch: string -> Option<seq<Card>>,
                                                     now: int, hash: string -> int, urljoin: string -> Option<string>)
    ensures forall x :: x in Collected(keywords, location, n, fetch, now, hash, urljoin) ==>
      && x.Keys == PostingKeys
      && (exists p :: 0 <= p < n && fetch(SearchUrl(keywords, location, p)).Some? &&
            x["source_url"] == Str(SearchUrl(keywords, location, p)))
  {
    if n > 0 {
      var earlier := Collected(keywords, location, n - 1, fetch, now, hash, urljoin);
      CollectedFromFetchedPages(keywords, location, n - 1, fetch, now, hash, urljoin);
      var url := SearchUrl(keywords, location, n - 1);
      var page := fetch(url);
      forall x | x in Collected(keywords, location, n, fetch, now, hash, urljoin)
        ensures x.Keys == PostingKeys
        ensures exists p :: 0 <= p < n && fetch(SearchUrl(keywords, location, p)).Some? &&
                            x["source_url"] == Str(SearchUrl(keywords, location, p))
      {
        if x !in earlier {
          PageJobsFromCards(page.value, url, now, hash, urljoin);
          var c :| c in page.value && ExtractJobInfo(c, url, now, hash, urljoin) == Some(x);
          ExtractJobInfoShape(c, url, now, hash, urljoin);
        } else {
          var p :| 0 <= p < n - 1 && fetch(SearchUrl(keywords, location, p)).Some? &&
            x["source_url"] == Str(SearchUrl(keywords, location, p));
        }
      }
    }
  }

  /** The dictionaries `jobs` are distinct objects and hold `contents`, one for one. */
  predicate Holding(jobs: seq<JobData>, contents: seq<Fields>)
    reads set i | 0 <= i < |jobs| :: jobs[i]
  {
    && |jobs| == |contents|
    && (forall i :: 0 <= i < |jobs| ==> jobs[i].fields == contents[i])
    && (forall i, j :: 0 <= i < j < |jobs| ==> jobs[i] != jobs[j])
  }

  /** The inner loop of `search_jobs`: one fresh posting dictionary per card that
    * extracts, in card order. */
  method CollectPage(cards: seq<Card>, url: string, now: int, hash: string -> int, urljoin: string -> Option<string>)
    returns (found: seq<JobData>)
    ensures Holding(found, PageJobs(cards, url, now, hash, urljoin))
    ensures forall i :: 0 <= i < |found| ==> fresh(found[i])
  {
    found := [];
    var c := 0;
    while c < |cards|
      invariant 0 <= c <= |cards|
      invariant Holding(found, PageJobs(cards[..c], url, now, hash, urljoin))
      invariant forall i :: 0 <= i < |found| ==> fresh(found[i])
    {
      assert cards[..c + 1][..c] == cards[..c];
      var jobData := ExtractJobInfo(cards[c], url, now, hash, urljoin);
      if jobData.Some? {
        var d := new JobData(jobData.value);
        found := found + [d];
      }
      c := c + 1;
    }
    assert cards[..|cards|] == cards;
  }

  /** Appending distinct dictionaries that hold `added` to distinct others that
    * hold `done` gives dictionaries that hold `done + added`. */
  lemma AppendHolding(jobs: seq<JobData>, found: seq<JobData>, done: seq<Fields>, added: seq<Fields>)
    requires Holding(jobs, done) && Holding(found, added)
    requires forall i, j :: 0 <= i < |jobs| && 0 <= j < |found| ==> jobs[i] != found[j]
    ensures Holding(jobs + found, done + added)
  {
    forall i, j | 0 <= i < j < |jobs + found|
      ensures (jobs + found)[i] != (jobs + found)[j]
    {
      if j < |jobs| {
      } else if i >= |jobs| {
        assert (jobs + found)[i] == found[i - |jobs|] && (jobs + found)[j] == found[j - |jobs|];
      } else {
        assert (jobs + found)[i] == jobs[i] && (jobs + found)[j] == found[j - |jobs|];
      }
    }
  }

  /** The pages collected so far, then one more. */
  lemma CollectedStep(keywords: string, location: string, n: nat, fetch: string -> Option<seq<Card>>,
                      now: int, hash: string -> int, urljoin: string -> Option<string>)
    ensures Collected(keywords, location, n + 1, fetch, now, hash, urljoin)
         == Collected(keywords, location, n, fetch, now, hash, urljoin) + PageResult(keywords, location, n, fetch, now, hash, urljoin)
  {
  }

  /** One iteration of the page loop of `search_jobs`: request page `page`, and on
    * success append one new dictionary per card that extracts; a failed page adds
    * nothing. */
  method ScrapePage(jobs: seq<JobData>, keywords: string, location: string, page: nat,
                    fetch: string -> Option<seq<Card>>, now: int, hash: string -> int, urljoin: string -> Option<string>)
    returns (jobs': seq<JobData>)
    requires Holding(jobs, Collected(keywords, location, page, fetch, now, hash, urljoin))
    ensures Holding(jobs', Collected(keywords, location, page + 1, fetch, now, hash, urljoin))
    ensures |jobs| <= |jobs'| && forall i :: 0 <= i < |jobs| ==> jobs'[i] == jobs[i]
    ensures forall i :: |jobs| <= i < |jobs'| ==> fresh(jobs'[i])
  {
    var url := SearchUrl(keywords, location, page);
    var response := fetch(url);
    var found := [];
    if response.Some? {
      found := CollectPage(response.value, url, now, hash, urljoin);
    }
    CollectedStep(keywords, location, page, fetch, now, hash, urljoin);
    AppendHolding(jobs, found, Collected(keywords, location, page, fetch, now, hash, urljoin),
                  PageResult(keywords, location, page, fetch, now, hash, urljoin));
    jobs' := jobs + found;
  }

  /** `IndeedScraper.search_jobs(keywords, location, pages)`.  `requested` lists the
    * page URLs in the order they were requested; `fetch` answers for each URL either
    * the parsed job cards or `None` when the request, the HTTP status or the parse
    * failed.  The postings are new dictionaries holding the postings of the
    * requested pages, page after page. */
  method SearchJobs(keywords: string, location: string, pages: int,
                    fetch: string -> Option<seq<Card>>, now: int, hash: string -> int, urljoin: string -> Option<string>)
    returns (jobs: seq<JobData>, requested: seq<string>)
    ensures var n := if pages < 0 then 0 else pages;
      && requested == SearchUrls(keywords, location, n)
      && Holding(jobs, Collected(keywords, location, n, fetch, now, hash, urljoin))
    ensures forall i :: 0 <= i < |jobs| ==> fresh(jobs[i])
  {
    jobs, requested := [], [];
    var n := if pages < 0 then 0 else pages;
    for page := 0 to n
      invariant requested == SearchUrls(keywords, location, page)
      invariant Holding(jobs, Collected(keywords, location, page, fetch, now, hash, urljoin))
      invariant forall i :: 0 <= i < |jobs| ==> fresh(jobs[i])
    {
      requested := requested + [SearchUrl(keywords, location, page)];
      jobs := ScrapePage(jobs, keywords, location, page, fetch, now, hash, urljoin);
    }
  }

  /** `LinkedInScraper.search_jobs`: a stub that finds nothing. */
  method LinkedInSearchJobs(keywords: string, location: string, pages: int) returns (jobs: seq<JobData>)
    ensures jobs == []
  {
    jobs := [];
  }

  /** `GlassdoorScraper.search_jobs`: a stub that finds nothing. */
  method GlassdoorSearchJobs(keywords: string, location: string, pages: int) returns (jobs: seq<JobData>)
    ensures jobs == []
  {
    jobs := [];
  }
}
