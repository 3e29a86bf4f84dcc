// The job-posting page reader (linkedin_scraper/scrapers/job.py).
//
// Every getter walks the texts of some page elements in document order and
// returns the first one that passes a text test, or None. Here the element
// texts are inputs, each getter is a first-match search over them, and the
// link clean-up shared with the job search is `AbsoluteLink`.

module JobPage {
  import opened Wrappers
  import opened Text
  import opened Models

  const LinkedInOrigin := "https://www.linkedin.com"

  /**
   * An href made into a result URL: everything from the first '?' on is cut
   * off, and a result that does not start with "http" gets the site origin
   * in front.
   */
  function AbsoluteLink(href: string): (r: string)
    ensures Lacks(r, '?')
    ensures StartsWith(r, "http")
    ensures EndsWith(r, Before(href, "?"))
  {
    var path := Before(href, "?");
    LacksBeforeFind(href, '?');
    if StartsWith(path, "http") then path else LinkedInOrigin + path
  }

  /** A link without a query is kept as it is when absolute, and prefixed when relative. */
  lemma AbsoluteLinkOfPath(path: string)
    requires Lacks(path, '?')
    ensures StartsWith(path, "http") ==> AbsoluteLink(path) == path
    ensures !StartsWith(path, "http") ==> AbsoluteLink(path) == LinkedInOrigin + path
  {
    NotFoundWithout(path, "?", 0);
  }

  /** The query string plays no part in the result. */
  lemma AbsoluteLinkDropsQuery(path: string, query: string)
    requires Lacks(path, '?')
    ensures AbsoluteLink(path + "?" + query) == AbsoluteLink(path)
  {
    FindCharAfter(path, '?', query);
    var w := path + "?" + query;
    assert w[..|path|] == path;
    assert Before(w, "?") == path;
    AbsoluteLinkOfPath(path);
  }

  /** Cleaning a cleaned link changes nothing. */
  lemma AbsoluteLinkIdempotent(href: string)
    ensures AbsoluteLink(AbsoluteLink(href)) == AbsoluteLink(href)
  {
    AbsoluteLinkOfPath(AbsoluteLink(href));
  }

  /** No text before index `k` passes `accept`. */
  predicate NoneBefore(texts: seq<string>, k: int, accept: string -> bool) {
    forall j :: 0 <= j < k && j < |texts| ==> !accept(texts[j])
  }

  /** The index of the first text `accept` holds for: the early `return` inside each getter's loop. */
  function FirstAccepted(texts: seq<string>, accept: string -> bool): (r: Option<nat>)
    ensures r.Some? ==> r.value < |texts| && accept(texts[r.value])
    ensures r.Some? ==> NoneBefore(texts, r.value, accept)
    ensures r.None? ==> forall k :: 0 <= k < |texts| ==> !accept(texts[k])
  {
    if |texts| == 0 then None
    else if accept(texts[0]) then Some(0)
    else
      match FirstAccepted(texts[1..], accept)
      case None => None
      case Some(k) => Some(k + 1)
  }

  // ---- Where stripping cannot lose a marker ----

  /** The same for a marker looked up in the lowered text. */
  lemma StripKeepsLoweredMarker(t: string, p: string)
    requires |p| > 0 && !IsSpace(p[0]) && !IsSpace(p[|p| - 1])
    ensures Contains(Lower(t), p) <==> Contains(Lower(Strip(t)), p)
  {
    var a := StripSlice(t);
    var v := Strip(t);
    var l := Lower(t);
    var lv := Lower(v);
    forall k | 0 <= k < |lv| ensures lv[k] == l[a + k] {
      assert v[k] == t[a + k];
    }
    MiddleKeepsOccurrence(l, lv, p, a);
  }

  // ---- Company name (lines 116-121) ----

  /** The stripped link text is longer than one character and is not a logo caption. */
  predicate IsCompanyText(t: string) {
    var s := Strip(t);
    s != [] && |s| > 1 && !StartsWith(s, "logo")
  }

  /** `_get_company`: the first company-link text that passes, stripped. */
  function Company(texts: seq<string>): (r: Option<string>)
    ensures r.Some? <==> exists k :: 0 <= k < |texts| && IsCompanyText(texts[k])
    ensures r.Some? ==> |r.value| > 1 && Trimmed(r.value) && !StartsWith(r.value, "logo")
    ensures r.Some? ==> exists k :: 0 <= k < |texts| && r.value == Strip(texts[k]) && NoneBefore(texts, k, IsCompanyText)
  {
    match FirstAccepted(texts, IsCompanyText)
    case None => None
    case Some(k) => Some(Strip(texts[k]))
  }

  // ---- Company URL (lines 129-137) ----

  /**
   * `_get_company_url`: only the first company link is looked at; a missing or
   * empty href gives None.
   */
  function CompanyUrl(hrefs: seq<Option<string>>): (r: Option<string>)
    ensures r.Some? <==> |hrefs| > 0 && hrefs[0].Some? && hrefs[0].value != []
    ensures r.Some? ==> Lacks(r.value, '?') && StartsWith(r.value, "http")
    ensures r.Some? ==> EndsWith(r.value, Before(hrefs[0].value, "?"))
  {
    if |hrefs| == 0 then None
    else match hrefs[0]
      case None => None
      case Some(href) => if href == [] then None else Some(AbsoluteLink(href))
  }

  // ---- Location (lines 148-153) ----

  predicate HasLocationMarker(t: string) {
    Contains(t, ",") || Contains(t, "Remote") || Contains(t, "United States")
  }

  /** The marker test is made on the raw text, the length and '$' tests on the stripped one. */
  predicate IsLocationText(t: string) {
    t != [] && HasLocationMarker(t) && 3 < |Strip(t)| < 100 && !StartsWith(Strip(t), "$")
  }

  /** Testing the markers before or after stripping gives the same answer. */
  lemma LocationMarkerSurvivesStrip(t: string)
    ensures HasLocationMarker(t) <==> HasLocationMarker(Strip(t))
  {
    StripKeepsMarker(t, ",");
    StripKeepsMarker(t, "Remote");
    StripKeepsMarker(t, "United States");
  }

  /** `_get_location`: the first panel text that passes, stripped. */
  function Location(texts: seq<string>): (r: Option<string>)
    ensures r.Some? <==> exists k :: 0 <= k < |texts| && IsLocationText(texts[k])
    ensures r.Some? ==> 3 < |r.value| < 100 && Trimmed(r.value) && !StartsWith(r.value, "$")
    ensures r.Some? ==> HasLocationMarker(r.value)
    ensures r.Some? ==> exists k :: 0 <= k < |texts| && r.value == Strip(texts[k]) && NoneBefore(texts, k, IsLocationText)
  {
    match FirstAccepted(texts, IsLocationText)
    case None => None
    case Some(k) =>
      LocationMarkerSurvivesStrip(texts[k]);
      Some(Strip(texts[k]))
  }

  // ---- Posted date (lines 162-167) ----

  predicate MentionsAge(t: string) {
    AgeWords(Lower(t))
  }

  /** One of the age words occurs in the lower-cased text `l`. */
  predicate AgeWords(l: string) {
    Contains(l, "ago") || Contains(l, "day") || Contains(l, "week") || Contains(l, "hour")
  }

  predicate IsPostedText(t: string) {
    t != [] && MentionsAge(t) && |Strip(t)| < 50
  }

  lemma AgeSurvivesStrip(t: string)
    ensures MentionsAge(t) <==> MentionsAge(Strip(t))
  {
    var l, m := Lower(t), Lower(Strip(t));
    assert AgeWords(l) <==> AgeWords(m) by {
      StripKeepsLoweredMarker(t, "ago");
      StripKeepsLoweredMarker(t, "day");
      StripKeepsLoweredMarker(t, "week");
      StripKeepsLoweredMarker(t, "hour");
    }
  }

  /** `_get_posted_date`: the first page text that passes, stripped. */
  function PostedDate(texts: seq<string>): (r: Option<string>)
    ensures r.Some? <==> exists k :: 0 <= k < |texts| && IsPostedText(texts[k])
    ensures r.Some? ==> |r.value| < 50 && Trimmed(r.value) && MentionsAge(r.value)
    ensures r.Some? ==> exists k :: 0 <= k < |texts| && r.value == Strip(texts[k]) && NoneBefore(texts, k, IsPostedText)
  {
    match FirstAccepted(texts, IsPostedText)
    case None => None
    case Some(k) =>
      AgeSurvivesStrip(texts[k]);
      Some(Strip(texts[k]))
  }

  // ---- Applicant count (lines 178-184) ----

  predicate CountsApplicants(s: string) {
    var l := Lower(s);
    Contains(l, "applicant") || Contains(l, "people clicked") || Contains(l, "applied")
  }

  /** Here every test is made on the stripped text. */
  predicate IsApplicantText(t: string) {
    var s := Strip(t);
    s != [] && |s| < 50 && CountsApplicants(s)
  }

  /** `_get_applicant_count`: the first text under `main` that passes, stripped. */
  function ApplicantCount(texts: seq<string>): (r: Option<string>)
    ensures r.Some? <==> exists k :: 0 <= k < |texts| && IsApplicantText(texts[k])
    ensures r.Some? ==> |r.value| < 50 && Trimmed(r.value) && CountsApplicants(r.value)
    ensures r.Some? ==> exists k :: 0 <= k < |texts| && r.value == Strip(texts[k]) && NoneBefore(texts, k, IsApplicantText)
  {
    match FirstAccepted(texts, IsApplicantText)
    case None => None
    case Some(k) => Some(Strip(texts[k]))
  }

  // ---- The whole page (lines 63-94) ----

  /** A link matching `a[href*="/company/"]`: its inner text and its href attribute. */
  datatype Link = Link(text: string, href: Option<string>)

  /**
   * What the getters read. A region that is absent (no job panel, no `main`)
   * is an empty list of texts; `about` is the article around the "About the
   * job" heading and `article` the first article of the page.
   */
  datatype JobView = JobView(
    title: Option<string>,
    companyLinks: seq<Link>,
    panelTexts: seq<string>,
    pageTexts: seq<string>,
    mainTexts: seq<string>,
    about: Option<string>,
    article: Option<string>)

  function LinkTexts(links: seq<Link>): (r: seq<string>)
    ensures |r| == |links| && forall k :: 0 <= k < |links| ==> r[k] == links[k].text
  {
    seq(|links|, k requires 0 <= k < |links| => links[k].text)
  }

  function LinkHrefs(links: seq<Link>): (r: seq<Option<string>>)
    ensures |r| == |links| && forall k :: 0 <= k < |links| ==> r[k] == links[k].href
  {
    seq(|links|, k requires 0 <= k < |links| => links[k].href)
  }

  /** `_get_description` (lines 189-205): the "About the job" article, else the first article, stripped. */
  function Description(about: Option<string>, article: Option<string>): (r: Option<string>)
    ensures r.None? <==> about.None? && article.None?
    ensures about.Some? ==> r == Some(Strip(about.value))
    ensures about.None? && article.Some? ==> r == Some(Strip(article.value))
    ensures r.Some? ==> Strip(r.value) == r.value
  {
    match about
    case Some(a) => StripIdempotent(a); Some(Strip(a))
    case None =>
      match article
      case Some(a) => StripIdempotent(a); Some(Strip(a))
      case None => None
  }

  /**
   * `JobScraper.scrape`: the record holds the input URL unchanged and what
   * each getter found; `benefits` is never filled. Construction fails exactly
   * when the URL is not a job URL.
   */
  function ScrapeJob(url: string, page: JobView): (r: Checked<Job>)
    ensures r.Accepted? <==> Contains(url, JobMarker)
    ensures r.Accepted? ==> r.value.linkedin_url == url && r.value.benefits.None?
    ensures r.Accepted? ==> r.value.company == Company(LinkTexts(page.companyLinks))
    ensures r.Accepted? ==> r.value.company_linkedin_url == CompanyUrl(LinkHrefs(page.companyLinks))
    ensures r.Accepted? ==> r.value.location == Location(page.panelTexts)
    ensures r.Accepted? ==> r.value.posted_date == PostedDate(page.pageTexts)
    ensures r.Accepted? ==> r.value.applicant_count == ApplicantCount(page.mainTexts)
    ensures r.Accepted? ==> (r.value.job_title.None? <==> page.title.None?)
    ensures r.Accepted? && page.title.Some? ==> r.value.job_title == Some(Strip(page.title.value))
    ensures r.Accepted? ==> r.value.job_description == Description(page.about, page.article)
  {
    var title := match page.title
      case None => None
      case Some(t) => Some(Strip(t));
    NewJob(Job(
      url,
      title,
      Company(LinkTexts(page.companyLinks)),
      CompanyUrl(LinkHrefs(page.companyLinks)),
      Location(page.panelTexts),
      PostedDate(page.pageTexts),
      ApplicantCount(page.mainTexts),
      Description(page.about, page.article),
      None))
  }
}
