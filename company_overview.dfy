/**
 * The deterministic part of linkedin_scraper/scrapers/company.py: the URL
 * normalisation of `scrape`, and `_get_overview` with its three passes over
 * text read from the page (the definition list, the top-card items and the
 * website links). Every page read is an input value; the `overview` dict the
 * passes share is the `Overview` value each pass takes and gives back.
 */
module CompanyScraper {
  import opened Wrappers
  import opened Text

  // ---------------------------------------------------------------------
  // URL normalisation
  // ---------------------------------------------------------------------

  const AboutPath := "/about"

  /** The record's URL (`base_url`) and the page first visited (`about_url`). */
  datatype CompanyUrls = CompanyUrls(canonical: string, about: string)

  /** `scrape` lines 56-61: trailing slashes go; an "/about" URL is visited as is and its canonical form drops every "/about". */
  function NormaliseUrl(u: string): (r: CompanyUrls)
    ensures Contains(r.about, AboutPath)
    ensures !Contains(RStripChar(u, '/'), AboutPath) ==>
      r.canonical == RStripChar(u, '/') && r.about == r.canonical + "/about/"
    ensures Contains(RStripChar(u, '/'), AboutPath) ==>
      r.about == RStripChar(u, '/') && r.canonical == Replace(r.about, AboutPath, "")
  {
    var base := RStripChar(u, '/');
    if Contains(base, AboutPath) then CompanyUrls(Replace(base, AboutPath, ""), base)
    else
      assert OccursAt(base + "/about/", AboutPath, |base|);
      ContainsAt(base + "/about/", AboutPath, |base|);
      CompanyUrls(base, base + "/about/")
  }

  /** A pattern whose only '/' is its first character cannot start inside a text that lacks it and run into the text's end. */
  lemma SlashLedOnlyAtEnd(b: string, p: string)
    requires |p| > 0 && p[0] == '/' && forall i :: 1 <= i < |p| ==> p[i] != '/'
    requires !Contains(b, p)
    ensures Find(b + p, p) == Some(|b|)
  {
    var s := b + p;
    forall k | 0 <= k < |b| ensures !OccursAt(s, p, k) {
      if k + |p| <= |b| {
        assert s[k..k + |p|] == b[k..k + |p|];
        if OccursAt(s, p, k) {
          assert OccursAt(b, p, k);
          ContainsAt(b, p, k);
        }
      } else if k + |p| <= |s| {
        assert s[|b|] == '/';
        assert s[k..k + |p|][|b| - k] == s[|b|];
      }
    }
    assert s[|b|..|b| + |p|] == p;
    FindAt(s, p, |b|);
  }

  /** Removing a pattern found only at the very end leaves the text before it. */
  lemma ReplaceAtEnd(b: string, p: string)
    requires |p| > 0 && Find(b + p, p) == Some(|b|)
    ensures Replace(b + p, p, "") == b
  {
    var s := b + p;
    assert s[..|b|] == b;
    assert s[|b| + |p|..] == [];
    assert Split(s, p) == [b, []];
    assert Join([b, []], "") == b + "" + Join([[]], "");
  }

  /** The about page's trailing slash goes, and nothing more. */
  lemma AboutPageStripped(b: string)
    ensures RStripChar(b + "/about/", '/') == b + AboutPath
  {
    assert b + "/about/" == (b + AboutPath) + "/";
    assert (b + AboutPath)[|b + AboutPath| - 1] == 't';
  }

  /** The about page of a URL without "/about" normalises back to that URL. */
  lemma NormaliseAboutPage(b: string)
    requires !Contains(b, AboutPath)
    ensures NormaliseUrl(b + "/about/") == CompanyUrls(b, b + AboutPath)
  {
    SlashLedOnlyAtEnd(b, AboutPath);
    AboutPageStripped(b);
    ReplaceAtEnd(b, AboutPath);
  }

  /** Visiting the about page of a company URL and normalising that page's URL gives back the same canonical URL. */
  lemma AboutUrlKeepsCanonical(u: string)
    requires !Contains(RStripChar(u, '/'), AboutPath)
    ensures NormaliseUrl(NormaliseUrl(u).about).canonical == NormaliseUrl(u).canonical
    ensures NormaliseUrl(NormaliseUrl(u).about).about == NormaliseUrl(u).canonical + AboutPath
  {
    var b := RStripChar(u, '/');
    assert NormaliseUrl(u) == CompanyUrls(b, b + "/about/");
    NormaliseAboutPage(b);
  }

  // ---------------------------------------------------------------------
  // The overview record
  // ---------------------------------------------------------------------

  /** The eight keys of the `overview` dict. */
  datatype Overview = Overview(
    website: Option<string>,
    phone: Option<string>,
    headquarters: Option<string>,
    founded: Option<string>,
    industry: Option<string>,
    company_type: Option<string>,
    company_size: Option<string>,
    specialties: Option<string>)

  datatype Field = Website | Phone | Headquarters | Founded | Industry | CompanyType | CompanySize | Specialties

  /** The dict as `_get_overview` creates it, lines 144-153. */
  function EmptyOverview(): (o: Overview)
    ensures forall f :: Get(o, f).None?
  {
    Overview(None, None, None, None, None, None, None, None)
  }

  function Get(o: Overview, f: Field): Option<string> {
    match f
    case Website => o.website
    case Phone => o.phone
    case Headquarters => o.headquarters
    case Founded => o.founded
    case Industry => o.industry
    case CompanyType => o.company_type
    case CompanySize => o.company_size
    case Specialties => o.specialties
  }

  function Set(o: Overview, f: Field, v: string): (r: Overview)
    ensures Get(r, f) == Some(v)
    ensures forall g :: g != f ==> Get(r, g) == Get(o, g)
  {
    match f
    case Website => o.(website := Some(v))
    case Phone => o.(phone := Some(v))
    case Headquarters => o.(headquarters := Some(v))
    case Founded => o.(founded := Some(v))
    case Industry => o.(industry := Some(v))
    case CompanyType => o.(company_type := Some(v))
    case CompanySize => o.(company_size := Some(v))
    case Specialties => o.(specialties := Some(v))
  }

  /** Python's `not overview[key]`: None and "" are both falsy. */
  predicate Unset(v: Option<string>) {
    v.None? || v.value == ""
  }

  const WebsitePatterns := ["http", "www.", ".com", ".io", ".org"]
  const SizePatterns := ["employee", "\U{C9C1}\U{C6D0}", "\U{BA85}", "k+", ",000"]
  const Places := ["Washington", "California", "New York", "Texas", "London", "Tokyo", "Singapore",
                   "San Francisco", "Seattle", "Boston", "Austin", "Berlin", "Paris"]
  const PhoneMarks := ["+", "-", "(", ")"]
  const IndustryLabels := ["industry", "industries", "\U{C5C5}\U{ACC4}", "\U{C0B0}\U{C5C5}",
                           "\U{696D}\U{754C}", "industrie", "branche"]
  const TypeLabels := ["type", "\U{C720}\U{D615}", "\U{30BF}\U{30A4}\U{30D7}", "typ"]
  const SpecialtyLabels := ["special", "\U{C804}\U{BB38}", "\U{5C02}\U{9580}", "sp\U{00E9}cial"]

  predicate FoundedLike(v: string) {
    IsAllDigits(v) && |v| == 4
  }

  predicate PhoneLike(v: string) {
    DigitCount(v) > 0 && MentionsAny(v, PhoneMarks)
  }

  /** A phone number the definition list accepts: 7 to 15 digits. */
  predicate PhoneDigits(v: string) {
    7 <= DigitCount(v) <= 15
  }

  /**
   * The branch of the `if`/`elif` chain of lines 198-249 a stripped value
   * and its lower-cased `dt` term fall into; None when no branch applies.
   */
  function Category(v: string, term: string): Option<Field> {
    if MentionsAny(Lower(v), WebsitePatterns) then Some(Website)
    else if MentionsAny(Lower(v), SizePatterns) then Some(CompanySize)
    else if FoundedLike(v) then Some(Founded)
    else if (Contains(v, ",") && |v| < 100) || MentionsAny(v, Places) then Some(Headquarters)
    else if PhoneLike(v) then Some(Phone)
    else if MentionsAny(term, IndustryLabels) then Some(Industry)
    else if MentionsAny(term, TypeLabels) then Some(CompanyType)
    else if MentionsAny(term, SpecialtyLabels) then Some(Specialties)
    else None
  }

  // ---------------------------------------------------------------------
  // Pass 1: the definition list
  // ---------------------------------------------------------------------

  /**
   * One `dt` of the definition list as read from the page: `NoValue` when it
   * has no following `dd`, else the `dd` text, the `dt` text, and the first
   * link in the `dd` (None when there is none; its `href` may be missing).
   */
  datatype DefinitionRow =
    | NoValue
    | Row(value: string, term: string, link: Option<Option<string>>)

  /** Lines 202-207: a link's `href`, falling back on the value when the href is falsy. */
  function WebsiteText(v: string, link: Option<Option<string>>): string {
    match link
    case Some(Some(href)) => if href != "" then href else v
    case _ => v
  }

  /** What a branch stores: the size keeps its first line (lines 213-214), the others the value or link. */
  function Stored(f: Field, v: string, link: Option<Option<string>>): string {
    match f
    case Website => WebsiteText(v, link)
    case CompanySize => Strip(Before(v, "\n"))
    case _ => v
  }

  /** One iteration of the loop of lines 180-253. */
  function ClassifyRow(o: Overview, row: DefinitionRow): Overview {
    match row
    case NoValue => o
    case Row(raw, rawTerm, link) =>
      var v := Strip(raw);
      if v == "" then o
      else
        match Category(v, Lower(Strip(rawTerm)))
        case None => o
        case Some(f) => Apply(o, f, v, link)
  }

  /** The body of a branch: a first-wins write, guarded by the digit count for a phone. */
  function Apply(o: Overview, f: Field, v: string, link: Option<Option<string>>): Overview {
    if f == Phone && !PhoneDigits(v) then o
    else if Unset(Get(o, f)) then Set(o, f, Stored(f, v, link))
    else o
  }

  /** The loop over all rows, in page order. */
  function ClassifyRows(o: Overview, rows: seq<DefinitionRow>): Overview
    decreases |rows|
  {
    if |rows| == 0 then o else ClassifyRow(ClassifyRows(o, rows[..|rows| - 1]), rows[|rows| - 1])
  }

  lemma ClassifyRowsStep(o: Overview, rows: seq<DefinitionRow>, i: nat)
    requires i < |rows|
    ensures ClassifyRows(o, rows[..i + 1]) == ClassifyRow(ClassifyRows(o, rows[..i]), rows[i])
  {
    assert rows[..i + 1][..i] == rows[..i];
  }

  /** `_parse_definition_list`: the rows in order, each at most one write to `overview`. */
  method ParseDefinitionList(o: Overview, rows: seq<DefinitionRow>) returns (r: Overview)
    ensures r == ClassifyRows(o, rows)
  {
    r := o;
    var i := 0;
    while i < |rows|
      invariant 0 <= i <= |rows|
      invariant r == ClassifyRows(o, rows[..i])
    {
      ClassifyRowsStep(o, rows, i);
      var row := rows[i];
      ghost var before := r;
      match row {
        case NoValue =>
        case Row(raw, rawTerm, link) =>
          var value := Strip(raw);
          if value != "" {
            var term := Lower(Strip(rawTerm));
            var category := Category(value, term);
            if category.Some? {
              var f := category.value;
              if f == Phone && !PhoneDigits(value) {
              } else if Unset(Get(r, f)) {
                r := Set(r, f, Stored(f, value, link));
              }
            }
          }
      }
      assert r == ClassifyRow(before, row);
      i := i + 1;
    }
    assert rows[..i] == rows;
  }

  /**
   * A row is weighed for one field only: every other field keeps its value,
   * a blank value or a missing `dd` changes nothing, and a row whose field is
   * already set is dropped rather than passed down the chain.
   */
  lemma ClassifyRowTouchesOneField(o: Overview, row: DefinitionRow)
    ensures row.NoValue? ==> ClassifyRow(o, row) == o
    ensures row.Row? && Strip(row.value) == "" ==> ClassifyRow(o, row) == o
    ensures row.Row? ==>
      var c := Category(Strip(row.value), Lower(Strip(row.term)));
      (c.None? ==> ClassifyRow(o, row) == o) &&
      (c.Some? ==> forall g :: g != c.value ==> Get(ClassifyRow(o, row), g) == Get(o, g)) &&
      (c.Some? && !Unset(Get(o, c.value)) ==> ClassifyRow(o, row) == o)
  {
  }

  /** First wins: a field set before the list is parsed keeps its value to the end. */
  lemma {:induction false} FirstWins(o: Overview, rows: seq<DefinitionRow>, f: Field)
    requires !Unset(Get(o, f))
    ensures Get(ClassifyRows(o, rows), f) == Get(o, f)
    decreases |rows|
  {
    if |rows| > 0 {
      FirstWins(o, rows[..|rows| - 1], f);
    }
  }

  /** Values that the definition list can store respect the branch rules. */
  predicate ValueRules(o: Overview) {
    (o.founded.Some? ==> FoundedLike(o.founded.value)) &&
    (o.phone.Some? ==> PhoneLike(o.phone.value) && PhoneDigits(o.phone.value)) &&
    (o.company_size.Some? ==> !Contains(o.company_size.value, "\n"))
  }

  /** Founded is four digits, a phone has a mark and 7 to 15 digits, a size one line, whatever the row. */
  lemma ClassifyRowKeepsValueRules(o: Overview, row: DefinitionRow)
    requires ValueRules(o)
    ensures ValueRules(ClassifyRow(o, row))
  {
    if row.Row? && Strip(row.value) != "" {
      var v := Strip(row.value);
      var c := Category(v, Lower(Strip(row.term)));
      if c.Some? {
        ApplyKeepsValueRules(o, c.value, v, Lower(Strip(row.term)), row.link);
      }
    }
  }

  lemma ApplyKeepsValueRules(o: Overview, f: Field, v: string, term: string, link: Option<Option<string>>)
    requires ValueRules(o) && v != "" && Category(v, term) == Some(f)
    ensures ValueRules(Apply(o, f, v, link))
  {
    if f == CompanySize {
      BeforeHasNoSep(v, "\n");
      StripKeepsAbsence(Before(v, "\n"), '\n');
    }
  }

  /** The value rules hold after any sequence of rows. */
  lemma {:induction false} ClassifyRowsKeepsValueRules(o: Overview, rows: seq<DefinitionRow>)
    requires ValueRules(o)
    ensures ValueRules(ClassifyRows(o, rows))
    decreases |rows|
  {
    if |rows| > 0 {
      ClassifyRowsKeepsValueRules(o, rows[..|rows| - 1]);
      ClassifyRowKeepsValueRules(ClassifyRows(o, rows[..|rows| - 1]), rows[|rows| - 1]);
    }
  }

  /** Every stored field is a value from some row (or the link of its row), never invented. */
  lemma {:induction false} ClassifyRowsProvenance(o: Overview, rows: seq<DefinitionRow>, f: Field)
    requires Get(ClassifyRows(o, rows), f) != Get(o, f)
    ensures exists k :: (0 <= k < |rows| && rows[k].Row? &&
      Get(ClassifyRows(o, rows), f) == Some(Stored(f, Strip(rows[k].value), rows[k].link)))
    decreases |rows|
  {
    var n := |rows|;
    var p := ClassifyRows(o, rows[..n - 1]);
    var r := ClassifyRows(o, rows);
    if Get(r, f) == Get(p, f) {
      ClassifyRowsProvenance(o, rows[..n - 1], f);
      var k :| 0 <= k < n - 1 && rows[..n - 1][k].Row? &&
        Get(p, f) == Some(Stored(f, Strip(rows[..n - 1][k].value), rows[..n - 1][k].link));
      assert rows[..n - 1][k] == rows[k];
    } else {
      assert rows[n - 1].Row?;
    }
  }

  // ---------------------------------------------------------------------
  // Pass 2: the top-card items
  // ---------------------------------------------------------------------

  const FollowerWords := ["\U{D314}\U{B85C}\U{C6CC}", "\U{30D5}\U{30A9}\U{30ED}\U{30EF}\U{30FC}"]

  predicate IsFollowerText(text: string) {
    Contains(Lower(text), "follower") || MentionsAny(text, FollowerWords)
  }

  /** One iteration of the loop of lines 263-281. */
  function TopCardItem(o: Overview, raw: string): Overview {
    var text := Strip(raw);
    if IsFollowerText(text) then o
    else if MentionsAny(Lower(text), SizePatterns) then
      if Unset(o.company_size) then o.(company_size := Some(text)) else o
    else if Unset(o.industry) && |text| < 100 then
      if |text| > 3 && !IsAllDigits(text) then o.(industry := Some(text)) else o
    else o
  }

  function TopCardItems(o: Overview, items: seq<string>): Overview
    decreases |items|
  {
    if |items| == 0 then o else TopCardItem(TopCardItems(o, items[..|items| - 1]), items[|items| - 1])
  }

  /** `_parse_top_card_info`. */
  method ParseTopCardInfo(o: Overview, items: seq<string>) returns (r: Overview)
    ensures r == TopCardItems(o, items)
  {
    r := o;
    for i := 0 to |items|
      invariant r == TopCardItems(o, items[..i])
    {
      assert items[..i + 1][..i] == items[..i];
      var text := Strip(items[i]);
      if IsFollowerText(text) {
        continue;
      }
      if MentionsAny(Lower(text), SizePatterns) {
        if Unset(r.company_size) {
          r := r.(company_size := Some(text));
        }
      } else if Unset(r.industry) && |text| < 100 {
        if |text| > 3 && !IsAllDigits(text) {
          r := r.(industry := Some(text));
        }
      }
    }
    assert items[..|items|] == items;
  }

  /**
   * The top card writes only the size and the industry, each at most once
   * it is set, and an industry it writes is a stripped item of 4 to 99
   * characters, not all digits and not a follower count.
   */
  predicate IndustryFromCard(v: string) {
    3 < |v| < 100 && !IsAllDigits(v) && !IsFollowerText(v) && !MentionsAny(Lower(v), SizePatterns)
  }

  lemma {:induction false} TopCardItemsWrites(o: Overview, items: seq<string>)
    ensures var r := TopCardItems(o, items);
      r == o.(company_size := r.company_size, industry := r.industry)
    ensures !Unset(o.company_size) ==> TopCardItems(o, items).company_size == o.company_size
    ensures !Unset(o.industry) ==> TopCardItems(o, items).industry == o.industry
    ensures TopCardItems(o, items).industry != o.industry ==>
      TopCardItems(o, items).industry.Some? && IndustryFromCard(TopCardItems(o, items).industry.value)
    decreases |items|
  {
    if |items| > 0 {
      TopCardItemsWrites(o, items[..|items| - 1]);
    }
  }

  // ---------------------------------------------------------------------
  // Pass 3: the website links
  // ---------------------------------------------------------------------

  /** A link the selector `a[href*="http"]` matches and the loop accepts: not a LinkedIn page. */
  predicate ExternalLink(href: string) {
    Contains(href, "http") && !Contains(Lower(href), "linkedin")
  }

  /** The first external link of a list of `href`s. */
  function FirstExternal(hrefs: seq<string>): (r: Option<nat>)
    ensures r.Some? ==> r.value < |hrefs| && ExternalLink(hrefs[r.value])
    ensures r.Some? ==> forall k :: 0 <= k < r.value ==> !ExternalLink(hrefs[k])
    ensures r.None? ==> forall k :: 0 <= k < |hrefs| ==> !ExternalLink(hrefs[k])
  {
    if |hrefs| == 0 then None
    else if ExternalLink(hrefs[0]) then Some(0)
    else
      match FirstExternal(hrefs[1..])
      case None => None
      case Some(k) => Some(k + 1)
  }

  /** The website lines 290-303 find: definition-list links first, then about-section links. */
  function WebsiteLink(listLinks: seq<string>, aboutLinks: seq<string>): Option<string> {
    match FirstExternal(listLinks)
    case Some(k) => Some(listLinks[k])
    case None =>
      match FirstExternal(aboutLinks)
      case Some(k) => Some(aboutLinks[k])
      case None => None
  }

  /** The first external link is the one no earlier external link precedes. */
  lemma FirstExternalAt(hrefs: seq<string>, i: nat)
    requires i < |hrefs| && ExternalLink(hrefs[i])
    requires forall k :: 0 <= k < i ==> !ExternalLink(hrefs[k])
    ensures FirstExternal(hrefs) == Some(i)
  {
  }

  /** A link the selector matched is never empty, so the `href` test adds nothing. */
  lemma MatchedLinkNonEmpty(href: string)
    requires Contains(href, "http")
    ensures href != ""
  {
    assert OccursAt(href, "http", Find(href, "http").value);
  }

  /** `_find_website_link`: the first accepted link is written and the search returns at once. */
  method FindWebsiteLink(o: Overview, listLinks: seq<string>, aboutLinks: seq<string>) returns (r: Overview)
    ensures WebsiteLink(listLinks, aboutLinks).None? ==> r == o
    ensures WebsiteLink(listLinks, aboutLinks).Some? ==> r == o.(website := WebsiteLink(listLinks, aboutLinks))
  {
    for i := 0 to |listLinks|
      invariant forall k :: 0 <= k < i ==> !ExternalLink(listLinks[k])
    {
      var href := listLinks[i];
      if Contains(href, "http") {
        MatchedLinkNonEmpty(href);
      }
      if Contains(href, "http") && href != "" && !Contains(Lower(href), "linkedin") {
        FirstExternalAt(listLinks, i);
        r := o.(website := Some(href));
        return;
      }
    }
    assert FirstExternal(listLinks) == None;
    for i := 0 to |aboutLinks|
      invariant forall k :: 0 <= k < i ==> !ExternalLink(aboutLinks[k])
    {
      var href := aboutLinks[i];
      if Contains(href, "http") {
        MatchedLinkNonEmpty(href);
      }
      if Contains(href, "http") && href != "" && !Contains(Lower(href), "linkedin") {
        FirstExternalAt(aboutLinks, i);
        r := o.(website := Some(href));
        return;
      }
    }
    assert FirstExternal(aboutLinks) == None;
    r := o;
  }

  // ---------------------------------------------------------------------
  // The three passes together
  // ---------------------------------------------------------------------

  /** What `_get_overview` reads from the page. */
  datatype OverviewPage = OverviewPage(
    rows: seq<DefinitionRow>,
    topCard: seq<string>,
    listLinks: seq<string>,
    aboutLinks: seq<string>)

  /** Lines 159-167: the definition list, then the top card only when neither industry nor size was found, then the website links only when no website was found. */
  function OverviewOf(page: OverviewPage): Overview {
    var listed := ClassifyRows(EmptyOverview(), page.rows);
    var carded := if Unset(listed.industry) && Unset(listed.company_size) then TopCardItems(listed, page.topCard) else listed;
    if Unset(carded.website) then
      match WebsiteLink(page.listLinks, page.aboutLinks)
      case Some(w) => carded.(website := Some(w))
      case None => carded
    else carded
  }

  /** `_get_overview`. */
  method GetOverview(page: OverviewPage) returns (r: Overview)
    ensures r == OverviewOf(page)
  {
    r := ParseDefinitionList(EmptyOverview(), page.rows);
    if !(!Unset(r.industry) || !Unset(r.company_size)) {
      r := ParseTopCardInfo(r, page.topCard);
    }
    if Unset(r.website) {
      r := FindWebsiteLink(r, page.listLinks, page.aboutLinks);
    }
  }

  /** The top card is not read once the definition list gave an industry or a size. */
  lemma TopCardGated(page: OverviewPage, items: seq<string>)
    requires var listed := ClassifyRows(EmptyOverview(), page.rows);
      !Unset(listed.industry) || !Unset(listed.company_size)
    ensures OverviewOf(page.(topCard := items)) == OverviewOf(page)
  {
  }

  /** A website found in the definition list is final: the link search cannot replace it. */
  lemma WebsiteFromListIsFinal(page: OverviewPage)
    requires !Unset(ClassifyRows(EmptyOverview(), page.rows).website)
    ensures OverviewOf(page).website == ClassifyRows(EmptyOverview(), page.rows).website
  {
    var listed := ClassifyRows(EmptyOverview(), page.rows);
    TopCardItemsWrites(listed, page.topCard);
  }

  /** Without a definition-list website, the result's website is the first external link, when any. */
  lemma WebsiteFallback(page: OverviewPage)
    requires ClassifyRows(EmptyOverview(), page.rows).website.None?
    ensures WebsiteLink(page.listLinks, page.aboutLinks).Some? ==>
      OverviewOf(page).website == WebsiteLink(page.listLinks, page.aboutLinks) &&
      ExternalLink(OverviewOf(page).website.value)
    ensures WebsiteLink(page.listLinks, page.aboutLinks).None? ==> OverviewOf(page).website.None?
  {
    var listed := ClassifyRows(EmptyOverview(), page.rows);
    TopCardItemsWrites(listed, page.topCard);
  }

  /** The definition list's value rules hold of the final overview's founded, phone and size fields. */
  lemma OverviewValueRules(page: OverviewPage)
    ensures OverviewOf(page).founded.Some? ==> FoundedLike(OverviewOf(page).founded.value)
    ensures OverviewOf(page).phone.Some? ==> PhoneDigits(OverviewOf(page).phone.value)
  {
    var listed := ClassifyRows(EmptyOverview(), page.rows);
    ClassifyRowsKeepsValueRules(EmptyOverview(), page.rows);
    TopCardItemsWrites(listed, page.topCard);
  }
}
