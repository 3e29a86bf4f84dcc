# linkedin_scraper: the deterministic core, in Dafny

`linkedin_scraper` drives a browser over LinkedIn pages and turns what it reads into typed records
(`Person`, `Company`, `Job`, `Post`). Between "text read from the page" and "typed record" sits a layer
of plain sequential logic, and this project models that layer and proves its properties. Every
page read is an input value here: a string, a sequence of strings, or a sequence of observations such as
scroll heights or the outcome of each call.

The layer covers:

- date-range splitting. The profile scraper's `_parse_work_times` and `_parse_education_times`, the legacy
  `time_divide`, the positional span-to-field mapping of profile entries, and the expansion of several roles
  at one employer into several `Experience` records (`person_parsing.dfy`, `legacy_time.dfy`);
- field classification. The first-wins company-overview classifier (`company_overview.dfy`), the legacy
  `dt`/`dd` mapping with its `x_off` shift (`legacy_company.dfy`), and the first-match getters of the job
  scraper (`job_page.dfy`);
- URL and count normalisation, deduplication and bounded accumulation. This covers the posts and search URLs,
  `_parse_count`, `_extract_time_from_text`, `_scrape_posts` and `_extract_job_urls` (`company_posts.dfy`,
  `job_search.dfy`);
- bounded control loops and small state machines. This covers `retry_async`, `detect_rate_limit`,
  `scroll_to_bottom` and `click_see_more_buttons` (`scrape_utils.dfy`), the `BrowserManager` /
  `PersistentBrowserManager` lifecycle (`browser.dfy`), and the callbacks (`callbacks.dfy`);
- record plumbing. This covers the recursive `to_dict` (`conversion.dfy`) and the Pydantic records with their
  URL validators, defaults and derived properties (`models.dfy`).

`text.dfy` holds the Python string operations the code uses: `strip`, `find`, `split`, `join`,
`replace`, `lower`, `isdigit`, and `int()` of a digit string. `wrappers.dfy` holds `Option`.

The experience parsers take the work-time separator as a parameter. The source as written is the
instance `AsWrittenSeparator` (U+8DEF); `MiddleDot` (U+00B7) is the corrected instance of the finding below.

Two modelling conventions run through the project:

- A Python dict that a method fills in place (`overview`) is a datatype value that each pass takes
  and returns.
- An object whose fields the source assigns step by step (`BrowserManager`, `JSONLogCallback`, the
  legacy `Company`) is a class with those fields and `modifies` clauses.

## Model

| member | source | states |
|---|---|---|
| PersonParsing.ParseWorkTimesWith | linkedin_scraper/scrapers/person.py:379-409 | Empty input gives (None, None, None). Otherwise from and to are present and the duration is present iff the separator occurs. The duration is the stripped text between the first and the second separator. From and to follow the date-range rule on the stripped text before the separator: split on the first " - " with the rest dropped, or the whole text and "". |
| PersonParsing.ParseWorkTimesAsWritten | linkedin_scraper/scrapers/person.py:379-409 | `_parse_work_times` as written, splitting on U+8DEF. It has no contract of its own: the docstring examples and WorkTimesAsWrittenMissesMiddleDot state what it returns. |
| PersonParsing.WorkTimesOfFullRange | linkedin_scraper/scrapers/person.py:388-404 | For any trimmed dates a, b and duration d, "a - b <sep> d" parses to (a, b, d). |
| PersonParsing.WorkTimesOfRange | linkedin_scraper/scrapers/person.py:388-404 | "a - b" without a separator parses to (a, b, None). |
| PersonParsing.RangeOfTrimmed | linkedin_scraper/scrapers/person.py:398-402 | For "a - b" with a, b trimmed and dash-free, the range rule holds for exactly the pair (a, b). |
| PersonParsing.WorkTimesExampleOpenEnded | linkedin_scraper/scrapers/person.py:384-386 | The parser as written turns the first docstring example, character for character "2000 - Present 路 26 yrs 1 mo" (U+8DEF), into ("2000", "Present", "26 yrs 1 mo"). |
| PersonParsing.WorkTimesExampleClosed | linkedin_scraper/scrapers/person.py:384-386 | The parser as written turns the second docstring example, "Jan 2020 - Dec 2022 路 2 yrs" (U+8DEF), into ("Jan 2020", "Dec 2022", "2 yrs"). |
| PersonParsing.WorkTimesExampleNoDuration | linkedin_scraper/scrapers/person.py:384-386 | The parser as written turns "2015 - Present" into ("2015", "Present", None). |
| PersonParsing.WorkTimesAsWrittenMissesMiddleDot | linkedin_scraper/scrapers/person.py:393-395 | With the separator as written (U+8DEF), a real "·" is not split: the duration is None and the to-date carries the whole "Dec 2022 · 2 yrs 11 mos". |
| PersonParsing.WorkTimesSplitsMiddleDot | linkedin_scraper/scrapers/person.py:393-395 | With U+00B7 the same text splits into ("Jan 2020", "Dec 2022", "2 yrs 11 mos"). |
| PersonParsing.ParseEducationTimes | linkedin_scraper/scrapers/person.py:546-572 | Empty input gives (None, None). Input with " - " gives its first two pieces, stripped. Other input gives the stripped input twice. |
| PersonParsing.EducationTimesShapes | linkedin_scraper/scrapers/person.py:551-567 | For trimmed, dash-free a and b: "a - b" gives (a, b), and "a" gives (a, a). |
| PersonParsing.EducationTimesExampleRange | linkedin_scraper/scrapers/person.py:551-567 | "1973 - 1977" gives ("1973", "1977"). |
| PersonParsing.EducationTimesExampleSingleYear | linkedin_scraper/scrapers/person.py:551-567 | "2015" gives ("2015", "2015"). |
| PersonParsing.Span | linkedin_scraper/scrapers/person.py:254-262 | A missing span reads as "". |
| PersonParsing.StrippedOrNone | linkedin_scraper/scrapers/person.py:277 | The result is None exactly for empty text; otherwise it is a trimmed string no longer than the text. |
| PersonParsing.SingleRole | linkedin_scraper/scrapers/person.py:250-285 | Spans 0, 1 and 3 are the stripped title, company and location. The work times are those of span 2, split on the given separator (U+8DEF as written). The URL is the logo link. The description is the stripped description text, None iff that text is empty. |
| PersonParsing.MissingSpansLeaveEmpty | linkedin_scraper/scrapers/person.py:254-262 | With fewer than four spans the location is ""; with fewer than three there is no from-date; with fewer than two the company is "". |
| PersonParsing.SingleRoleSeparators | linkedin_scraper/scrapers/person.py:266-285 | Through the single-role parser, a real LinkedIn work-time text keeps its duration glued to the to-date as written (duration None), and is split into to-date and duration with U+00B7. |
| PersonParsing.NestedRole | linkedin_scraper/scrapers/person.py:321-368 | A nested item yields a record iff its link has children and its first child has rows. Span 0 of that row is the stripped title, span 1 the work times (split on the given separator), span 2 the stripped location, and the second link child's text the description (stripped, None when empty). The company is the outer name, stripped, and the URL the logo link. |
| PersonParsing.NestedRoles | linkedin_scraper/scrapers/person.py:309-368 | There are no more records than nested items, and every record shares the outer company and URL. |
| PersonParsing.NestedRoleSource | linkedin_scraper/scrapers/person.py:318-368 | Record k is the role that some item j ≥ k yields, so every record comes from an item and items are never reordered before their records. |
| PersonParsing.NestedRolesCount | linkedin_scraper/scrapers/person.py:318-334 | When every item has link children and rows, there is exactly one record per item, and record k is the role of item k. |
| PersonParsing.ParseNestedExperience | linkedin_scraper/scrapers/person.py:291-377 | The loop gives [] when the summary has no rows. Otherwise it gives the nested roles in item order, named after the summary's first span. |
| PersonParsing.ParseExperienceItem | linkedin_scraper/scrapers/person.py:191-289 | Nothing iff there are fewer than two children, no details, or neither a nested list nor a first row. A nested list in the second detail child gives the nested roles of the summary's first span (none without a summary row). Otherwise the record is the single role of the first row, described by the second detail child's text. Every record carries the entity's logo URL. |
| PersonParsing.CollectExperiencesAppend | linkedin_scraper/scrapers/person.py:173-181 | Flattening distributes over concatenation, so item order is kept. |
| PersonParsing.CollectExperiences | linkedin_scraper/scrapers/person.py:141-189 | The list `get_experiences` builds: each item's records in order. It has no contract of its own: CollectExperiencesAppend and GetExperiences state it. |
| PersonParsing.GetExperiences | linkedin_scraper/scrapers/person.py:141-189 | The loop's list equals each item's records in order: lists spliced in, single records appended, empty results skipped. |
| PersonParsing.ProfileCompanyIsFirstRole | linkedin_scraper/models/person.py:88-110 | When the first item is a single role, the profile's `company` and `job_title` are that role's stripped spans 1 and 0. |
| PersonParsing.ParseEducationItem | linkedin_scraper/scrapers/person.py:457-544 | A record exists iff there are at least two children and a first row. It carries the logo URL, span 0 stripped as the school name, and the second detail child's text, stripped, as the description (None when empty). |
| PersonParsing.EducationSpanCount | linkedin_scraper/scrapers/person.py:510-523 | Three spans give the degree (span 1) and the dates (span 2). Two spans give the dates only. Any other count gives neither. |
| PersonParsing.CollectEducations | linkedin_scraper/scrapers/person.py:433-447 | There are no more educations than items. |
| PersonParsing.GetEducations | linkedin_scraper/scrapers/person.py:411-455 | The loop appends each item's record in order and skips items that yield none. |
| LegacyTime.FirstGroup | linkedin_scraper/functions.py:4 | The leftmost non-greedy "(...)" match of `\((.*?)\)`. No line break is inside it, and no match starts earlier. None means no match anywhere. |
| LegacyTime.DividePair | linkedin_scraper/functions.py:13-14 | Defined iff the text has an en dash. The two dates are the stripped pieces before the first dash and between the first and second dash. |
| LegacyTime.TimeDivide | linkedin_scraper/functions.py:3-14 | Without a parenthesised group the result always exists, its duration is "", and its dates are those of the text split on its own en dashes: the stripped pieces before the first and between the first and second dash, or (stripped text, "") without a dash. With a group, a result that exists has the group's inner text as its duration. |
| LegacyTime.DivideMatched | linkedin_scraper/functions.py:6-8 | With a group, the result exists iff the text left after removing the group has an en dash. |
| LegacyTime.DividePadded | linkedin_scraper/functions.py:9-14 | The "––()" padding always gives a result with an empty duration. A text with an en dash gives the stripped pieces before its first dash and between its first and second dash; a text without one gives (stripped text, "", ""). |
| LegacyTime.PaddedSplitWithDash | linkedin_scraper/functions.py:9-14 | When the text has an en dash, the padding does not change the pieces before the first dash and between the first and second. |
| LegacyTime.FirstCharKept | linkedin_scraper/functions.py:13 | Appending text does not move the first occurrence of a one-character separator already present. |
| LegacyTime.TimeDivideWithGroup | linkedin_scraper/functions.py:6-14 | With a group, the dates are the en-dash split of what remains after every occurrence of the group is removed and the text stripped. |
| LegacyTime.TimeDivideWithoutDuration | linkedin_scraper/functions.py:10-14 | Text with no "(" and no en dash gives (stripped text, "", ""). |
| LegacyTime.TimeDivideYear | linkedin_scraper/functions.py:10-14 | A year such as "2015" gives ("2015", "", ""). |
| LegacyTime.TrailingGroup | linkedin_scraper/functions.py:4-14 | A trailing "(d)" is the duration, and the dates come from the stripped text before it. |
| LegacyTime.RangeWithDuration | linkedin_scraper/functions.py:3-14 | "from – to (d)" gives (from, to, d) for trimmed dates without dashes or parentheses. |
| LegacyTime.TimeDivideRange | linkedin_scraper/functions.py:3-14 | "Jan 2015 – Present (3 yrs)" gives ("Jan 2015", "Present", "3 yrs"). |
| LegacyTime.TimeDivideFailsWithoutDash | linkedin_scraper/functions.py:6-14 | "2015 (1 yr)" has no en dash left after the group is removed, so `times[1]` raises (None here). |
| CompanyScraper.NormaliseUrl | linkedin_scraper/scrapers/company.py:56-61 | The visited URL always contains "/about". Without "/about", canonical = the slash-stripped URL and about = canonical + "/about/". With it, the stripped URL is visited and canonical removes every "/about". |
| CompanyScraper.NormaliseAboutPage | linkedin_scraper/scrapers/company.py:56-61 | Normalising "b/about/" for a b without "/about" gives canonical b and visits "b/about". |
| CompanyScraper.AboutUrlKeepsCanonical | linkedin_scraper/scrapers/company.py:56-83 | Normalising the about page of a company URL gives back the same canonical URL, and the about page visited is that URL followed by "/about". |
| CompanyScraper.EmptyOverview | linkedin_scraper/scrapers/company.py:144-153 | All eight overview keys start as None. |
| CompanyScraper.ClassifyRow | linkedin_scraper/scrapers/company.py:180-250 | One `dt`/`dd` row through the branch chain. It has no contract of its own: ClassifyRowTouchesOneField, FirstWins and ClassifyRowKeepsValueRules state it. |
| CompanyScraper.ClassifyRows | linkedin_scraper/scrapers/company.py:174-256 | The rows classified one at a time, in page order. It has no contract of its own: ClassifyRowsKeepsValueRules, ClassifyRowsProvenance and ParseDefinitionList state it. |
| CompanyScraper.OverviewOf | linkedin_scraper/scrapers/company.py:137-172 | The overview `_get_overview` returns. It has no contract of its own: GetOverview, TopCardGated, WebsiteFromListIsFinal, WebsiteFallback and OverviewValueRules state it. |
| CompanyScraper.ParseDefinitionList | linkedin_scraper/scrapers/company.py:174-256 | The loop's overview equals the rows classified one at a time, in page order. |
| CompanyScraper.ClassifyRowTouchesOneField | linkedin_scraper/scrapers/company.py:180-250 | A missing `dd` or a blank value changes nothing. A row changes at most the one field of the first matching branch. A row whose branch field is already set is dropped, not passed down the chain. |
| CompanyScraper.FirstWins | linkedin_scraper/scrapers/company.py:198-249 | A field that is set keeps its value through any rows. |
| CompanyScraper.ClassifyRowKeepsValueRules | linkedin_scraper/scrapers/company.py:209-233 | After any row, founded is four digits, a phone has one of + - ( ) and 7 to 15 digits, and the size is a single line. |
| CompanyScraper.ApplyKeepsValueRules | linkedin_scraper/scrapers/company.py:212-233 | A branch's write keeps these value rules. |
| CompanyScraper.ClassifyRowsKeepsValueRules | linkedin_scraper/scrapers/company.py:180-250 | The value rules hold after every sequence of rows. |
| CompanyScraper.ClassifyRowsProvenance | linkedin_scraper/scrapers/company.py:198-249 | A field the list changed holds the stored form (value, link or first line) of some row, never an invented value. |
| CompanyScraper.ParseTopCardInfo | linkedin_scraper/scrapers/company.py:258-284 | The loop equals the top-card items applied in order. |
| CompanyScraper.TopCardItemsWrites | linkedin_scraper/scrapers/company.py:263-281 | Only size and industry change, and a set one never changes. A written industry has 4 to 99 characters, is not all digits, is not a follower count and mentions no size. |
| CompanyScraper.FirstExternal | linkedin_scraper/scrapers/company.py:291-303 | The first href that contains "http" and, lower-cased, no "linkedin"; None iff no href qualifies. |
| CompanyScraper.FirstExternalAt | linkedin_scraper/scrapers/company.py:291-295 | The accepted link is the first qualifying one. |
| CompanyScraper.MatchedLinkNonEmpty | linkedin_scraper/scrapers/company.py:290-293 | A link the `http` selector matched is never empty, so the `href` test decides nothing more. |
| CompanyScraper.FindWebsiteLink | linkedin_scraper/scrapers/company.py:286-306 | The website becomes the first external definition-list link, else the first external about-section link. Nothing else changes, and nothing changes when there is none. |
| CompanyScraper.GetOverview | linkedin_scraper/scrapers/company.py:137-172 | The three passes: the definition list, then the top card, then the website links. |
| CompanyScraper.TopCardGated | linkedin_scraper/scrapers/company.py:161-163 | Once the list gave an industry or a size, the top card does not affect the result. |
| CompanyScraper.WebsiteFromListIsFinal | linkedin_scraper/scrapers/company.py:165-167 | A website from the definition list is the final website. |
| CompanyScraper.WebsiteFallback | linkedin_scraper/scrapers/company.py:165-167 | Without a list website, the website is the first external link, or None. |
| CompanyScraper.OverviewValueRules | linkedin_scraper/scrapers/company.py:155-167 | In the final overview, founded is four digits and a phone has 7 to 15 digits. |
| LegacyCompany.TextUnderSubtitle | linkedin_scraper/company.py:78-79 | The text after the first line break, "" for single-line text. |
| LegacyCompany.SectionIndex | linkedin_scraper/company.py:190-193 | 4 iff section 1 mentions "Cookie Policy" or has an ad-banner class, else 3. |
| LegacyCompany.AboutGrid | linkedin_scraper/company.py:190-194 | The chosen section, or None exactly where indexing the sections raises. |
| LegacyCompany.CompanySummary.Repr | linkedin_scraper/company.py:27-31 | " name " without followers, " name followers " with them (each piece at its position, spaces included); the name is shown as "None" when absent. |
| LegacyCompany.SpecialtiesRoundTrip | linkedin_scraper/company.py:219-220 | Replacing the newlines back by ", " gives the stripped single-line value. |
| LegacyCompany.Attributes | linkedin_scraper/company.py:201 | min(len(labels), len(values)). |
| LegacyCompany.Terms | linkedin_scraper/company.py:204 | One stripped term per label. |
| LegacyCompany.Offset | linkedin_scraper/company.py:202-212 | `x_off` is 0 or 1, and 1 only when there are more values than labels. |
| LegacyCompany.OffsetMeaning | linkedin_scraper/company.py:202-212 | `x_off` before row i is 1 iff an earlier row was "Company size" and there are more values than labels. |
| LegacyCompany.OffsetInBounds | linkedin_scraper/company.py:201-220 | Every `values[i + x_off]` the loop reads is in bounds. |
| LegacyCompany.GridWrites | linkedin_scraper/company.py:203-220 | Row i writes the field its term names, with the value at i + `x_off`. |
| LegacyCompany.WrittenAll | linkedin_scraper/company.py:204-220 | The fields after a sequence of writes. It has no contract of its own: WrittenAllUntouched and WrittenAllLastWins state it. |
| LegacyCompany.GridFields | linkedin_scraper/company.py:199-220 | The fields after the first n grid rows. It has no contract of its own: GridUntouched, GridLastWins and ReadGrid state it. |
| LegacyCompany.WrittenAllUntouched | linkedin_scraper/company.py:204-220 | A field no row names keeps its value. |
| LegacyCompany.WrittenAllLastWins | linkedin_scraper/company.py:204-220 | A field holds the value of the last row that names it. |
| LegacyCompany.GridUntouched | linkedin_scraper/company.py:203-220 | An unknown or absent label leaves its field unchanged. |
| LegacyCompany.GridLastWins | linkedin_scraper/company.py:203-220 | A repeated label overwrites the earlier value: the last row naming a field wins. |
| LegacyCompany.Company.constructor | linkedin_scraper/company.py:46-58 | A new company holds its URL and None in every other field. |
| LegacyCompany.Company.ReadDescription | linkedin_scraper/company.py:195-197 | The first paragraph, stripped, becomes the description; with no paragraph nothing changes. |
| LegacyCompany.Company.Assign | linkedin_scraper/company.py:204-220 | One row: a recognised term overwrites its field. |
| LegacyCompany.Company.ReadGrid | linkedin_scraper/company.py:199-220 | The `dt`/`dd` loop with `x_off` leaves the fields as the rows' writes in order. |
| LegacyCompany.IsLoaded | linkedin_scraper/company.py:127-136 | True iff one of the first six counts read differs from the previous count, after one sleep per unchanged read before it. False after 6 sleeps. |
| CompanyPosts.BuildPostsUrl | linkedin_scraper/scrapers/company_posts.py:38-42 | Trailing slashes go and "/posts/" is appended iff "/posts" is absent, so the result always contains "/posts". |
| CompanyPosts.BuildPostsUrlTwice | linkedin_scraper/scrapers/company_posts.py:38-42 | Building from a built URL only strips its trailing slash, and building once more changes nothing. |
| CompanyPosts.FirstNumber | linkedin_scraper/scrapers/company_posts.py:334 | None iff the text has no digit. Otherwise the result is a non-empty run of digits that starts at the first digit of the text and is maximal: the text ends after it or a non-digit follows. |
| CompanyPosts.ParseCount | linkedin_scraper/scrapers/company_posts.py:330-339 | Empty input gives None, and a result exists iff the text has a digit. |
| CompanyPosts.ParseCountIgnoresCommas | linkedin_scraper/scrapers/company_posts.py:334 | Removing commas first changes nothing. |
| CompanyPosts.ParseCountCommaFree | linkedin_scraper/scrapers/company_posts.py:334-336 | The count is the integer of the first digit run. |
| CompanyPosts.ParseCountOfNumber | linkedin_scraper/scrapers/company_posts.py:330-339 | A number's decimal text followed by a comma-free, non-digit rest gives that number back. |
| CompanyPosts.LeadingDigitsOf | linkedin_scraper/scrapers/company_posts.py:334 | The digit run of "digits + rest" is exactly the digits. |
| CompanyPosts.FirstToken | linkedin_scraper/scrapers/company_posts.py:225 | The leftmost position where the relative-time pattern matches, with the end of that match. |
| CompanyPosts.ExtractTime | linkedin_scraper/scrapers/company_posts.py:222-231 | None exactly for empty input; non-empty input always gives a string, possibly "". |
| CompanyPosts.ExtractTimeToken | linkedin_scraper/scrapers/company_posts.py:225-227 | When the pattern matches, the result is the earliest match. |
| CompanyPosts.ExtractTimeFallback | linkedin_scraper/scrapers/company_posts.py:228-230 | Without a match, the result is the text before the first '•', stripped. |
| CompanyPosts.ExtractTimeWithoutDigits | linkedin_scraper/scrapers/company_posts.py:225-230 | Text without digits always takes the '•' fallback. |
| CompanyPosts.ExtractShortToken | linkedin_scraper/scrapers/company_posts.py:225 | A digit run followed by h, d, w, m or y in any case, after digit-free text, is the result ("3d"). |
| CompanyPosts.ShortTokenFirst | linkedin_scraper/scrapers/company_posts.py:225-227 | The first digit run ending in a short unit is the result. |
| CompanyPosts.TokenFirst | linkedin_scraper/scrapers/company_posts.py:225-227 | A match at the first digit is the result. |
| CompanyPosts.PhraseToken | linkedin_scraper/scrapers/company_posts.py:225 | "N <unit>s ago" is matched through "ago" ("2 hours ago"). |
| CompanyPosts.PostUrlOfActivity | linkedin_scraper/scrapers/company_posts.py:207-209 | For an activity urn the post URL is the feed-update prefix + the urn + "/". |
| CompanyPosts.PostOf | linkedin_scraper/scrapers/company_posts.py:206-218 | A post holds the urn, the text and the images as given. Its URL is built from the urn, its date comes from `_extract_time_from_text`, and its three counts from `_parse_count`. |
| CompanyPosts.PostUrl | linkedin_scraper/scrapers/company_posts.py:207-209 | The post URL starts with the feed-update prefix and the activity prefix and ends with "/". PostUrlOfActivity gives it exactly for an activity urn. |
| CompanyPosts.Take | linkedin_scraper/scrapers/company_posts.py:100 | `posts[:limit]`: a prefix of length min(len, limit), and [] for limit ≤ 0. |
| CompanyPosts.FirstSeen | linkedin_scraper/scrapers/company_posts.py:90-94 | The posts kept by the urn check, first occurrence first. It has no contract of its own: FirstSeenDistinct, FirstSeenExtends, FirstSeenAppend, FirstSeenFrom and FirstSeenComplete state it. |
| CompanyPosts.Collected | linkedin_scraper/scrapers/company_posts.py:82-100 | The list `scrape` returns. It has no contract of its own: ScrapePosts, CollectedWellFormed and CollectedComplete state it. |
| CompanyPosts.FirstSeenDistinct | linkedin_scraper/scrapers/company_posts.py:90-94 | Keeping the first post of each non-empty urn keeps the urns pairwise distinct. |
| CompanyPosts.FirstSeenExtends | linkedin_scraper/scrapers/company_posts.py:90-92 | Posts already kept stay, in order, at the front. |
| CompanyPosts.FirstSeenAppend | linkedin_scraper/scrapers/company_posts.py:87-94 | Keeping across two batches is keeping batch by batch. |
| CompanyPosts.FirstSeenFrom | linkedin_scraper/scrapers/company_posts.py:90-92 | A kept post was kept before or extracted. |
| CompanyPosts.FirstSeenComplete | linkedin_scraper/scrapers/company_posts.py:90-92 | Every extracted post with a non-empty urn has its urn kept. |
| CompanyPosts.AddBatch | linkedin_scraper/scrapers/company_posts.py:90-94 | The inner loop keeps the first-seen posts of the batch and stops as soon as `limit` are kept. |
| CompanyPosts.ScrapePosts | linkedin_scraper/scrapers/company_posts.py:82-100 | At most `limit` posts, and [] with no round when limit ≤ 0. There are at most limit // 3 + 2 extraction rounds, and all of them run when fewer than `limit` posts are found. |
| CompanyPosts.CollectedWellFormed | linkedin_scraper/scrapers/company_posts.py:87-100 | The result is within the limit, has pairwise distinct urns, and holds only extracted posts. |
| CompanyPosts.CollectedComplete | linkedin_scraper/scrapers/company_posts.py:87-100 | When fewer than `limit` posts come back, every extracted urn is among them. |
| JobSearch.SearchParams | linkedin_scraper/scrapers/job_search.py:94-98 | Only truthy parameters are kept, keywords before location, and no value is empty. |
| JobSearch.SearchUrl | linkedin_scraper/scrapers/job_search.py:86-102 | The URL is exactly the base iff neither parameter is given, else base + "?" + the encoded parameters. |
| JobSearch.Candidates | linkedin_scraper/scrapers/job_search.py:121-133 | There are no more candidates than hrefs. |
| JobSearch.CandidatesFromJobHrefs | linkedin_scraper/scrapers/job_search.py:126-133 | A URL is a candidate iff it is the cleaned, absolute form of a non-empty href containing "/jobs/view/". |
| JobSearch.CandidatesPrefix | linkedin_scraper/scrapers/job_search.py:121-133 | The candidates of a prefix of the hrefs are a prefix of all the candidates. |
| JobSearch.Distinct | linkedin_scraper/scrapers/job_search.py:136-138 | Pairwise distinct, with the same members as the input. |
| JobSearch.DistinctPrefix | linkedin_scraper/scrapers/job_search.py:136-138 | Deduplication preserves prefixes, so first-occurrence order is kept. |
| JobSearch.Take | linkedin_scraper/scrapers/job_search.py:122-123 | A prefix of length min(len, limit). |
| JobSearch.JobUrls | linkedin_scraper/scrapers/job_search.py:104-146 | The URL list `_extract_job_urls` returns. It has no contract of its own: JobUrlsSound and ExtractJobUrls state it. |
| JobSearch.JobUrlsSound | linkedin_scraper/scrapers/job_search.py:104-146 | At most `limit` URLs, pairwise distinct. Each has no '?', starts with "http" and comes from a job href. Below the limit, every job href's URL is present. |
| JobSearch.FirstJobHref | linkedin_scraper/scrapers/job_search.py:121-138 | A first job href is the first URL. |
| JobSearch.RelativeHrefPrefixed | linkedin_scraper/scrapers/job_search.py:129-133 | A relative "/jobs/view/…?q" becomes "https://www.linkedin.com/jobs/view/…". |
| JobSearch.CleanUrl | linkedin_scraper/scrapers/job_search.py:129-133 | The query is cut off and the URL made absolute, exactly as the job page does. |
| JobSearch.ExtractJobUrls | linkedin_scraper/scrapers/job_search.py:104-146 | The loop with its `seen_urls` set returns the specified URL list, stopping at `limit`. |
| JobPage.AbsoluteLink | linkedin_scraper/scrapers/job.py:132-137 | No '?', starts with "http", and ends with the href's part before '?'. |
| JobPage.AbsoluteLinkOfPath | linkedin_scraper/scrapers/job.py:135-136 | An "http" path is kept and any other path is prefixed with "https://www.linkedin.com". |
| JobPage.AbsoluteLinkDropsQuery | linkedin_scraper/scrapers/job.py:133-134 | The query does not matter. |
| JobPage.AbsoluteLinkIdempotent | linkedin_scraper/scrapers/job.py:132-137 | Rewriting twice is rewriting once. |
| JobPage.FirstAccepted | linkedin_scraper/scrapers/job.py:116-121 | The first accepted text: accepted, with none before it; None iff no text is accepted. |
| JobPage.Company | linkedin_scraper/scrapers/job.py:111-124 | The first link text that, stripped, is longer than 1 and does not start with "logo"; None iff there is none. |
| JobPage.CompanyUrl | linkedin_scraper/scrapers/job.py:126-140 | Present iff the first company link has a non-empty href, which is then rewritten to absolute form without its query. |
| JobPage.LocationMarkerSurvivesStrip | linkedin_scraper/scrapers/job.py:150-151 | Testing the markers before or after stripping is the same. |
| JobPage.Location | linkedin_scraper/scrapers/job.py:142-156 | The first text with ',', "Remote" or "United States" whose stripped length is 4 to 99 and that does not start with '$'. |
| JobPage.AgeSurvivesStrip | linkedin_scraper/scrapers/job.py:164-165 | The age words are found before or after stripping alike. |
| JobPage.PostedDate | linkedin_scraper/scrapers/job.py:158-170 | The first text mentioning ago, day, week or hour in any case, under 50 characters once stripped. |
| JobPage.ApplicantCount | linkedin_scraper/scrapers/job.py:172-187 | The first non-empty stripped text under 50 characters mentioning applicant, "people clicked" or applied. |
| JobPage.Description | linkedin_scraper/scrapers/job.py:189-205 | The stripped "About the job" text when there is one, else the stripped text of the first article; None iff neither exists. |
| JobPage.ScrapeJob | linkedin_scraper/scrapers/job.py:52-100 | The record exists iff the URL contains "linkedin.com/jobs". It keeps the input URL unchanged, the stripped `h1` title (None iff there is none), the company, company URL, location, posted date and applicant count of their getters, and the description of `_get_description`; `benefits` is None. |
| ScrapeUtils.FirstIndex | linkedin_scraper/core/utils.py:36 | The first index below n where the predicate holds. |
| ScrapeUtils.RetryAsync | linkedin_scraper/core/utils.py:16-54 | At most `max_attempts` calls. The wrapper returns the first success and re-raises at once an error outside `exceptions`. When all attempts fail it raises the last error, and with max_attempts ≤ 0 it raises None. It sleeps only between attempts, backoff^k before retry k + 1. |
| ScrapeUtils.CatchException | linkedin_scraper/core/utils.py:86-87 | `except Exception: pass` leaves nothing, the CAPTCHA `RateLimitError` included. |
| ScrapeUtils.BodyCheck | linkedin_scraper/core/utils.py:90-105 | Raises with wait 1800 iff the lowered body holds one of the four phrases. Only a timeout is swallowed; any other error propagates. |
| ScrapeUtils.DetectRateLimit | linkedin_scraper/core/utils.py:57-105 | A checkpoint or authwall URL raises with wait 3600, before any page check. |
| ScrapeUtils.CaptchaSwallowedAsWritten | linkedin_scraper/core/utils.py:79-87 | As written, the CAPTCHA probe never decides anything: on a clean URL the verdict is the body check alone, even with a CAPTCHA frame present. |
| ScrapeUtils.DetectRateLimitCorrected | linkedin_scraper/core/utils.py:70-105 | A checkpoint or authwall URL raises with wait 3600 first. |
| ScrapeUtils.DetectRateLimitCorrectedRules | linkedin_scraper/core/utils.py:70-105 | The URL rule, then a positive CAPTCHA count (wait 3600), then the body phrases (wait 1800). A limit is raised iff one of them holds. |
| ScrapeUtils.SelectorSuggestion | linkedin_scraper/core/utils.py:145-151 | A '#' selector gives the ID tip, else "pv-" or "artdeco" gives the class tip, else "". |
| ScrapeUtils.ScrollToBottom | linkedin_scraper/core/utils.py:184-205 | At most `max_scrolls` rounds, stopping right after the first round whose height is unchanged. |
| ScrapeUtils.ClickSeeMoreButtons | linkedin_scraper/core/utils.py:213-242 | A count in 0..max_attempts: the number of consecutive visible clicks before the first invisible or failing button. |
| BrowserLifecycle.ClosedPrefix | linkedin_scraper/core/browser.py:94-116 | The handles closed before the first close error, in order. |
| BrowserLifecycle.CloseReleasesInOrder | linkedin_scraper/core/browser.py:94-116 | Close releases page, context, browser and playwright in that order and stops at the first error. The released handles become None, and the ones after the error stay. |
| BrowserLifecycle.CloseWithoutErrors | linkedin_scraper/core/browser.py:94-116 | Without errors, every handle is released and all become None. |
| BrowserLifecycle.CloseTwice | linkedin_scraper/core/browser.py:94-116 | A second close releases nothing new and changes nothing. |
| BrowserLifecycle.ViewportOrDefault | linkedin_scraper/core/browser.py:48 | A missing or empty viewport becomes 1280×720. |
| BrowserLifecycle.PartialOfSuccess | linkedin_scraper/core/browser.py:63-92 | A successful start holds all four handles. |
| BrowserLifecycle.BrowserManager.constructor | linkedin_scraper/core/browser.py:24-52 | All handles are None, the manager is not authenticated, and the viewport is the given one or 1280×720. |
| BrowserLifecycle.BrowserManager.Close | linkedin_scraper/core/browser.py:94-116 | The new handles and the log of closed handles are those of the close order above; errors are logged, not raised. |
| BrowserLifecycle.BrowserManager.Start | linkedin_scraper/core/browser.py:63-92 | Success opens all four handles. A failure keeps the handles opened so far, closes them, and raises `NetworkError`. Only the handles and the close log change; the options and `is_authenticated` stay. |
| BrowserLifecycle.BrowserManager.PageAccess | linkedin_scraper/core/browser.py:131-143 | The `page` accessor raises `RuntimeError` iff there is no page. |
| BrowserLifecycle.BrowserManager.ContextAccess | linkedin_scraper/core/browser.py:145-155 | The `context` accessor raises `RuntimeError` iff there is no context. |
| BrowserLifecycle.BrowserManager.BrowserAccess | linkedin_scraper/core/browser.py:157-167 | The `browser` accessor raises `RuntimeError` iff there is no browser. |
| BrowserLifecycle.BrowserManager.NewPage | linkedin_scraper/core/browser.py:118-129 | `RuntimeError` without a context, otherwise the created page. |
| BrowserLifecycle.BrowserManager.SaveSessionGuard | linkedin_scraper/core/browser.py:169-177 | Saving fails with `RuntimeError` iff there is no context. |
| BrowserLifecycle.BrowserManager.SetCookie | linkedin_scraper/core/browser.py:219-237 | `RuntimeError` iff there is no context, otherwise the cookie with path "/". |
| BrowserLifecycle.BrowserManager.SetAuthenticated | linkedin_scraper/core/browser.py:239-247 | The setter/getter round-trips and nothing else changes (only `is_authenticated` is writable). |
| BrowserLifecycle.BrowserManager.LoadSession | linkedin_scraper/core/browser.py:189-217 | A missing file raises `FileNotFoundError` before any change, and so does an error closing the old context. The old context is closed before the browser check, so that `RuntimeError`, and an error from `new_context`, leave `_context` on the closed context. An error closing the old page or from `new_page` leaves the new context in place and the old page. Success opens a context and a page and sets `is_authenticated`. Only the context, page, close log and `is_authenticated` can change. |
| BrowserLifecycle.ClassifyStartFailure | linkedin_scraper/core/browser.py:349-365 | "already in use" / "already running" and "cannot create" / "permission denied" give `RuntimeError` with their messages; anything else gives `NetworkError`. |
| BrowserLifecycle.PersistentBrowserManager.constructor | linkedin_scraper/core/browser.py:279-299 | No handles, not authenticated, the given profile directory and the default viewport. |
| BrowserLifecycle.PersistentBrowserManager.Close | linkedin_scraper/core/browser.py:367-388 | Page, context and playwright are released in that order, stopping at the first error. |
| BrowserLifecycle.PersistentBrowserManager.Start | linkedin_scraper/core/browser.py:310-365 | The profile context is opened and its first page reused, or a new page is created. A failure is classified as above. |
| BrowserLifecycle.PersistentBrowserManager.PageAccess | linkedin_scraper/core/browser.py:403-415 | `RuntimeError` iff there is no page. |
| BrowserLifecycle.PersistentBrowserManager.ContextAccess | linkedin_scraper/core/browser.py:417-427 | `RuntimeError` iff there is no context. |
| BrowserLifecycle.PersistentBrowserManager.BrowserAccess | linkedin_scraper/core/browser.py:429-442 | Always None. |
| BrowserLifecycle.PersistentBrowserManager.NewPage | linkedin_scraper/core/browser.py:390-401 | `RuntimeError` without a context, otherwise the created page. |
| BrowserLifecycle.PersistentBrowserManager.SetCookie | linkedin_scraper/core/browser.py:444-462 | `RuntimeError` iff there is no context, with the cookie-without-context message; otherwise the cookie with path "/". |
| BrowserLifecycle.PersistentBrowserManager.SetAuthenticated | linkedin_scraper/core/browser.py:464-472 | The setter/getter round-trips; only `is_authenticated` is writable, so the handles, options and viewport stay. |
| BrowserLifecycle.PersistentBrowserManager.ClearProfile | linkedin_scraper/core/browser.py:474-497 | `RuntimeError` iff the context is not None; otherwise the directory is removed when it exists. |
| BrowserLifecycle.ClearAfterCleanClose | linkedin_scraper/core/browser.py:367-388 | After a close without errors, clearing the profile is allowed. |
| Callbacks.Filled | linkedin_scraper/callbacks.py:71 | `int(30 * percent / 100)`: the quotient truncated toward zero. |
| Callbacks.Bar | linkedin_scraper/callbacks.py:72 | `filled` '█' cells, then '░' cells. |
| Callbacks.FilledInRange | linkedin_scraper/callbacks.py:70-72 | For 0 ≤ percent ≤ 100 the bar has exactly 30 cells. |
| Callbacks.FilledMonotone | linkedin_scraper/callbacks.py:71 | More progress never fills fewer cells. |
| Callbacks.FilledAtMilestone | linkedin_scraper/callbacks.py:69-71 | At 20·k percent, 6·k cells are filled. |
| Callbacks.ConsoleLine | linkedin_scraper/callbacks.py:63-81 | A progress line is printed iff verbose or percent % 20 == 0, as "[bar] …% - message". Other events always print. |
| Callbacks.QuietPrintsMilestones | linkedin_scraper/callbacks.py:69 | A quiet console prints exactly at the multiples of 20. |
| Callbacks.EntryOf | linkedin_scraper/callbacks.py:102-109 | An entry begins with the timestamp and the event type. |
| Callbacks.EntryRoundTrip | linkedin_scraper/callbacks.py:115-129 | Reading an entry back gives the event, except for a completion's result, which is not recorded. |
| Callbacks.JsonLogCallback.constructor | linkedin_scraper/callbacks.py:92-100 | An empty `logs` list. |
| Callbacks.JsonLogCallback.Log | linkedin_scraper/callbacks.py:102-109 | Appends exactly one entry. |
| Callbacks.JsonLogCallback.Record | linkedin_scraper/callbacks.py:115-129 | Each `on_*` event appends exactly its entry, in call order. |
| Callbacks.IgnoringCallbacksDoNothing | linkedin_scraper/callbacks.py:8-49 | Base and silent callbacks print nothing and log nothing. |
| Callbacks.ShownConcat | linkedin_scraper/callbacks.py:144-162 | Fanning out to a + b is fanning out to a, then to b. |
| Callbacks.Dispatch | linkedin_scraper/callbacks.py:144-162 | One wrapped callback handles the event: a console prints, a JSON log appends. |
| Callbacks.Shown | linkedin_scraper/callbacks.py:144-162 | The terminal lines after a fan-out: the earlier lines stay as a prefix. ShownConcat gives the order. |
| Callbacks.Occurrences | linkedin_scraper/callbacks.py:144-162 | A JSON log is counted at least once exactly when it is registered. |
| Callbacks.MultiCallback.constructor | linkedin_scraper/callbacks.py:135-142 | Keeps the callbacks in registration order. |
| Callbacks.MultiCallback.Notify | linkedin_scraper/callbacks.py:144-162 | Every wrapped callback sees the event in registration order. The terminal gets their lines in order, and each JSON log gets one entry per time it is registered. |
| Conversion.ScalarsAndOthers | linkedin_scraper/utils.py:23-40 | int, str, bool and float come back unchanged. None and anything without `__dict__` become None. A list keeps its length, and a dict, object, writer or dataclass becomes a dict. A writer met outside a dataclass field goes through its `__dict__`, so a fresh one becomes `{}`. |
| Conversion.ListElementwise | linkedin_scraper/utils.py:27-29 | A list is converted element by element, keeping length and order. |
| Conversion.ToDict | linkedin_scraper/utils.py:18-40 | `to_dict`, branch by branch in the source's order. It has no contract of its own: ScalarsAndOthers, ToDictIsPlain and ToDictIdempotent state it. |
| Conversion.AsDictFrom | linkedin_scraper/utils.py:9-16 | `custom_asdict`: every field that is not a writer, converted. It has no contract of its own: AsDictFieldOrigin and DataclassSecondPass state it. |
| Conversion.Unprivate | linkedin_scraper/utils.py:33 | Keeps exactly the entries whose key does not start with '_'. |
| Conversion.PublicEntriesKept | linkedin_scraper/utils.py:31-37 | A dict, an object or a writer keeps its public entries in order, each value converted. |
| Conversion.DataclassFields | linkedin_scraper/utils.py:9-21 | A dataclass becomes a dict whose keys are public fields whose values are not writers (`_test_var` is absent). |
| Conversion.AsDictFieldOrigin | linkedin_scraper/utils.py:9-16 | Every entry `custom_asdict` produces comes from a declared field whose value is not a writer. |
| Conversion.DataclassSecondPass | linkedin_scraper/utils.py:18-21 | The second `to_dict` over `custom_asdict` only drops private keys. |
| Conversion.ToDictIsPlain | linkedin_scraper/utils.py:18-40 | Converted values contain only scalars, None, lists and dicts with public keys. |
| Conversion.PlainIsFixed | linkedin_scraper/utils.py:18-40 | Converting a plain value changes nothing. |
| Conversion.ToDictIdempotent | linkedin_scraper/utils.py:18-40 | `to_dict(to_dict(x)) == to_dict(x)`. |
| Models.ValidateUrl | linkedin_scraper/models/person.py:59-65 | Accepted iff the marker occurs, and the URL is then stored unchanged. |
| Models.NewPerson | linkedin_scraper/models/person.py:59-65 | A person exists iff its URL contains "linkedin.com/in/". |
| Models.NewCompany | linkedin_scraper/models/company.py:43-49 | A company exists iff its URL contains "linkedin.com/company/". |
| Models.NewJob | linkedin_scraper/models/job.py:23-29 | A job exists iff its URL contains "linkedin.com/jobs". |
| Models.Person.Company | linkedin_scraper/models/person.py:88-98 | The first experience's company, or None without experiences. |
| Models.Person.JobTitle | linkedin_scraper/models/person.py:100-110 | The first experience's title, or None without experiences. |
| Models.Company.EmployeeCount | linkedin_scraper/models/company.py:79 | `len(employees) if employees else 0` is the employee count. |
| Models.DefaultPersonIsEmpty | linkedin_scraper/models/person.py:48-57 | A default person is accepted, has empty lists, `open_to_work` False, None elsewhere, and no company or title. |
| Models.DefaultCompanyIsEmpty | linkedin_scraper/models/company.py:27-49 | A default company is accepted, every overview field is None and the lists are empty. |
| Models.DefaultJobIsEmpty | linkedin_scraper/models/job.py:13-29 | A default job is accepted and its eight optional fields are None. |
| Models.DefaultPostIsEmpty | linkedin_scraper/models/post.py:5-15 | A post needs nothing: every optional field is None and `image_urls` is empty. |
| Models.JobMarkerIsPlainSubstring | linkedin_scraper/models/job.py:27-28 | The job marker is a plain substring without a trailing slash; shorter URLs are rejected. |
| Models.JobDict | linkedin_scraper/models/job.py:31-38 | `to_dict` has one entry per field, keyed by its name, in declaration order. |
| Models.JobDictRoundTrip | linkedin_scraper/models/job.py:31-38 | Reading the dict back gives the same job, so every field is carried with its value. |
| Models.PostDict | linkedin_scraper/models/post.py:17-18 | One entry per field, keyed by its name. |
| Models.StringsRoundTrip | linkedin_scraper/models/post.py:13 | The image list reads back unchanged. |
| Models.PostDictRoundTrip | linkedin_scraper/models/post.py:17-18 | Reading the dict back gives the same post. |
| Models.Preview | linkedin_scraper/models/post.py:24 | Longer than 80: the first 80 characters + "..."; otherwise the text unchanged, None included. |
| Models.PreviewBounded | linkedin_scraper/models/post.py:24 | The preview is at most 83 characters and starts with the text's own opening. |

## Left out

- Browser calls (Playwright and Selenium locators, `goto`, `wait_for_*`, `inner_text`, the keyboard, sleeps): every page read is an input value, and each sleep is counted, not timed.
- The JavaScript run by `page.evaluate` in the posts scraper: the posts it returns are an input (a sequence of rounds).
- The login flow of core/auth.py, the legacy Selenium scrapers other than the company page, and the stale build copy: they are I/O with no state of their own.
- File-system effects: the `save_session` JSON write, the `JSONLogCallback` file append, `clear_profile`'s `rmtree` and `mkdir`. The timestamp `datetime.utcnow()` is a parameter.
- Per-item `except Exception: continue` in the page loops, and `inner_text` failures: the reads are modelled as succeeding.
- `urllib.parse.urlencode` is a function parameter of `JobSearch.SearchUrl`.
- Pydantic's `model_dump` for the nested `Person` and `Company` records, and `to_json` for all records: only the flat `Job` and `Post` dicts are modelled.
- Digits and case are ASCII only: `isdigit` and `\d` accept ASCII digits, `lower` folds A-Z. Whitespace (`strip`, `isspace`, `\s`) is Python's full set.
- Floating point: `retry_async` waits are exact reals `backoff^k`, and `int(30 * percent / 100)` is integer division truncated toward zero.
- `_get_name` and `_get_about` of the company scraper, the employee pages of the legacy company scraper, and `migrate_session_to_profile`: browser reads with no decision logic of interest.
- `__aenter__` / `__aexit__`: they only call `Start` and `Close`.
- CompanyScraper.GetOverview: the surrounding `except Exception` cannot fire, because no modelled read fails.
- JobSearch.Candidates: its ensures states only the length bound; the membership iff is the separate lemma `JobSearch.CandidatesFromJobHrefs`.
- CompanyPosts.ScrapePosts: `rounds` fixes what each extraction returns; the sleeps and scrolls between rounds are counted, not performed.

## Findings

| source | as written | input that shows it | evidently intended | confidence | as-written member | corrected member |
|---|---|---|---|---|---|---|
| linkedin_scraper/scrapers/person.py:393 | `work_times.split("路")`: the separator is U+8DEF, the mis-decoded form of a middle dot | "Jan 2020 - Dec 2022 · 2 yrs 11 mos" gives duration None and to-date "Dec 2022 · 2 yrs 11 mos" | split on "·" (U+00B7), the character the page shows | high; not executed | PersonParsing.WorkTimesAsWrittenMissesMiddleDot | PersonParsing.WorkTimesSplitsMiddleDot |
| linkedin_scraper/core/utils.py:79-87 | the CAPTCHA `RateLimitError` is raised inside `try … except Exception: pass` and is swallowed at once | a clean URL, a CAPTCHA count of 1 and an empty body: `detect_rate_limit` returns normally | only a failure of the probe is ignored, and the CAPTCHA limit (wait 3600) leaves the function | high; not executed | ScrapeUtils.CaptchaSwallowedAsWritten | ScrapeUtils.DetectRateLimitCorrectedRules |
