// The job search (linkedin_scraper/scrapers/job_search.py): the search URL
// built from the optional keywords and location, and the collection of job
// URLs from the hrefs of the result links.

module JobSearch {
  import opened Wrappers
  import opened Text
  import opened JobPage

  const SearchBase := "https://www.linkedin.com/jobs/search/"
  const JobViewMarker := "/jobs/view/"

  // ---- The search URL (lines 86-102) ----

  /** Python truthiness of an optional string: present and non-empty. */
  predicate Truthy(v: Option<string>) {
    v.Some? && v.value != []
  }

  /** The query parameters in insertion order; a falsy argument adds none. */
  function SearchParams(keywords: Option<string>, location: Option<string>): (r: seq<(string, string)>)
    ensures |r| == (if Truthy(keywords) then 1 else 0) + (if Truthy(location) then 1 else 0)
    ensures Truthy(keywords) ==> r[0] == ("keywords", keywords.value)
    ensures Truthy(location) ==> r[|r| - 1] == ("location", location.value)
    ensures forall k :: 0 <= k < |r| ==> r[k].1 != []
  {
    (if Truthy(keywords) then [("keywords", keywords.value)] else []) +
    (if Truthy(location) then [("location", location.value)] else [])
  }

  /**
   * `_build_search_url`. The query encoding (`urllib.parse.urlencode`) is the
   * parameter `encode`.
   */
  function SearchUrl(keywords: Option<string>, location: Option<string>,
                     encode: seq<(string, string)> -> string): (r: string)
    ensures StartsWith(r, SearchBase)
    ensures r == SearchBase <==> !Truthy(keywords) && !Truthy(location)
    ensures r != SearchBase ==> r == SearchBase + "?" + encode(SearchParams(keywords, location))
  {
    var params := SearchParams(keywords, location);
    if |params| > 0 then SearchBase + "?" + encode(params) else SearchBase
  }

  // ---- The job URLs (lines 104-146) ----

  /** A result link worth keeping: a non-empty href that contains "/jobs/view/". */
  predicate IsJobHref(href: Option<string>) {
    href.Some? && href.value != [] && Contains(href.value, JobViewMarker)
  }

  /** The cleaned URL of every job href, in page order, repeats included. */
  function Candidates(hrefs: seq<Option<string>>): (r: seq<string>)
    ensures |r| <= |hrefs|
  {
    if |hrefs| == 0 then []
    else
      var last := hrefs[|hrefs| - 1];
      Candidates(hrefs[..|hrefs| - 1]) + (if IsJobHref(last) then [AbsoluteLink(last.value)] else [])
  }

  /** `u` is the cleaned URL of one of the job hrefs. */
  predicate FromJobHref(hrefs: seq<Option<string>>, u: string) {
    exists k :: 0 <= k < |hrefs| && IsJobHref(hrefs[k]) && u == AbsoluteLink(hrefs[k].value)
  }

  /** Every candidate comes from a job href, and every job href gives one. */
  lemma {:induction false} CandidatesFromJobHrefs(hrefs: seq<Option<string>>)
    ensures forall u :: u in Candidates(hrefs) <==> FromJobHref(hrefs, u)
    decreases |hrefs|
  {
    if |hrefs| > 0 {
      var n := |hrefs| - 1;
      var init, last := hrefs[..n], hrefs[n];
      var tail := if IsJobHref(last) then [AbsoluteLink(last.value)] else [];
      CandidatesFromJobHrefs(init);
      assert Candidates(hrefs) == Candidates(init) + tail;
      forall u | u in Candidates(hrefs) ensures FromJobHref(hrefs, u) {
        if u in Candidates(init) {
          var k :| 0 <= k < |init| && IsJobHref(init[k]) && u == AbsoluteLink(init[k].value);
          assert hrefs[k] == init[k];
        } else {
          assert u in tail;
          assert IsJobHref(hrefs[n]) && u == AbsoluteLink(hrefs[n].value);
        }
      }
      forall u | FromJobHref(hrefs, u) ensures u in Candidates(hrefs) {
        var k :| 0 <= k < |hrefs| && IsJobHref(hrefs[k]) && u == AbsoluteLink(hrefs[k].value);
        if k < n {
          assert init[k] == hrefs[k];
          assert FromJobHref(init, u);
          assert u in Candidates(init);
        } else {
          assert k == n && hrefs[k] == last;
          assert tail == [u];
        }
      }
    }
  }

  /** Taking more hrefs only extends the candidate list. */
  lemma {:induction false} CandidatesPrefix(hrefs: seq<Option<string>>, i: nat)
    requires i <= |hrefs|
    ensures Candidates(hrefs[..i]) <= Candidates(hrefs)
    decreases |hrefs| - i
  {
    if i < |hrefs| {
      var init := hrefs[..|hrefs| - 1];
      assert init[..i] == hrefs[..i];
      CandidatesPrefix(init, i);
    } else {
      assert hrefs[..i] == hrefs;
    }
  }

  /** Python's "append when not seen yet": first occurrences, in order. */
  function Distinct(xs: seq<string>): (r: seq<string>)
    ensures forall i, j :: 0 <= i < j < |r| ==> r[i] != r[j]
    ensures forall u :: u in r <==> u in xs
  {
    if |xs| == 0 then []
    else
      var d := Distinct(xs[..|xs| - 1]);
      assert forall u :: u in xs <==> u in xs[..|xs| - 1] || u == xs[|xs| - 1] by {
        assert xs == xs[..|xs| - 1] + [xs[|xs| - 1]];
      }
      if xs[|xs| - 1] in d then d else d + [xs[|xs| - 1]]
  }

  /** Deduplicating a prefix gives a prefix of the deduplicated whole. */
  lemma {:induction false} DistinctPrefix(xs: seq<string>, ys: seq<string>)
    requires xs <= ys
    ensures Distinct(xs) <= Distinct(ys)
    decreases |ys|
  {
    if |xs| < |ys| {
      var init := ys[..|ys| - 1];
      assert xs <= init;
      DistinctPrefix(xs, init);
    } else {
      assert xs == ys;
    }
  }

  /** The first `n` items, none for `n <= 0`. */
  function Take(xs: seq<string>, n: int): (r: seq<string>)
    ensures r <= xs
    ensures |r| == if n <= 0 then 0 else if |xs| < n then |xs| else n
  {
    if n <= 0 then [] else if |xs| <= n then xs else xs[..n]
  }

  /** What `_extract_job_urls` returns: the first `limit` distinct cleaned job URLs. */
  function JobUrls(hrefs: seq<Option<string>>, limit: int): seq<string> {
    Take(Distinct(Candidates(hrefs)), limit)
  }

  /**
   * The promises of `_extract_job_urls`: at most `limit` URLs, no repeats,
   * each one without a query and absolute, each one the cleaned URL of a job
   * href, and, when fewer than `limit` came back, none left out.
   */
  lemma JobUrlsSound(hrefs: seq<Option<string>>, limit: int)
    ensures |JobUrls(hrefs, limit)| <= if limit <= 0 then 0 else limit
    ensures forall i, j :: 0 <= i < j < |JobUrls(hrefs, limit)| ==> JobUrls(hrefs, limit)[i] != JobUrls(hrefs, limit)[j]
    ensures forall u :: u in JobUrls(hrefs, limit) ==> Lacks(u, '?') && StartsWith(u, "http")
    ensures forall u :: u in JobUrls(hrefs, limit) ==> FromJobHref(hrefs, u)
    ensures |JobUrls(hrefs, limit)| < limit ==> forall k :: 0 <= k < |hrefs| && IsJobHref(hrefs[k]) ==>
      AbsoluteLink(hrefs[k].value) in JobUrls(hrefs, limit)
  {
    var c := Candidates(hrefs);
    var d := Distinct(c);
    var r := JobUrls(hrefs, limit);
    CandidatesFromJobHrefs(hrefs);
    forall u | u in r ensures u in c && Lacks(u, '?') && StartsWith(u, "http") {
      assert u in d;
      assert FromJobHref(hrefs, u);
    }
    if |r| < limit {
      assert r == d;
    }
  }

  /** With a limit of one, the answer is the cleaned URL of a leading job href. */
  lemma FirstJobHref(hrefs: seq<Option<string>>)
    requires |hrefs| > 0 && IsJobHref(hrefs[0])
    ensures JobUrls(hrefs, 1) == [AbsoluteLink(hrefs[0].value)]
  {
    var u := AbsoluteLink(hrefs[0].value);
    CandidatesPrefix(hrefs, 1);
    assert hrefs[..1][..0] == [];
    assert Candidates(hrefs[..1]) == [u];
    DistinctPrefix([u], Candidates(hrefs));
    assert Distinct([u]) == [u] by {
      assert [u][..0] == [];
    }
  }

  /** A relative job href comes back with the site origin in front and its query dropped. */
  lemma RelativeHrefPrefixed(hrefs: seq<Option<string>>, path: string, query: string)
    requires |hrefs| > 0 && hrefs[0] == Some(path + "?" + query)
    requires Lacks(path, '?') && !StartsWith(path, "http") && Contains(path, JobViewMarker)
    ensures JobUrls(hrefs, 1) == [LinkedInOrigin + path]
  {
    var href := path + "?" + query;
    ContainsPrefix(path, JobViewMarker, "?" + query);
    assert href == path + ("?" + query);
    assert IsJobHref(hrefs[0]);
    AbsoluteLinkDropsQuery(path, query);
    AbsoluteLinkOfPath(path);
    FirstJobHref(hrefs);
  }

  /** One more href adds its cleaned URL when it is a job href. */
  lemma CandidatesStep(hrefs: seq<Option<string>>, i: nat)
    requires i < |hrefs|
    ensures Candidates(hrefs[..i + 1]) ==
      Candidates(hrefs[..i]) + (if IsJobHref(hrefs[i]) then [AbsoluteLink(hrefs[i].value)] else [])
  {
    assert hrefs[..i + 1][..i] == hrefs[..i];
  }

  /** One more candidate is kept exactly when it was not seen before. */
  lemma DistinctStep(xs: seq<string>, x: string)
    ensures Distinct(xs + [x]) == if x in Distinct(xs) then Distinct(xs) else Distinct(xs) + [x]
  {
    assert (xs + [x])[..|xs|] == xs;
  }

  /** Lines 129-133: cut the query off and make the URL absolute. */
  method CleanUrl(href: string) returns (cleanUrl: string)
    ensures cleanUrl == AbsoluteLink(href)
  {
    cleanUrl := if Contains(href, "?") then Split(href, "?")[0] else href;
    SplitHead(href, "?");
    if !StartsWith(cleanUrl, "http") {
      cleanUrl := LinkedInOrigin + cleanUrl;
    }
  }

  /** Once `limit` URLs are kept, what is kept is the answer. */
  lemma StopsAtLimit(hrefs: seq<Option<string>>, i: nat, limit: int)
    requires i <= |hrefs|
    requires |Distinct(Candidates(hrefs[..i]))| >= limit
    requires |Distinct(Candidates(hrefs[..i]))| <= limit || Distinct(Candidates(hrefs[..i])) == []
    ensures Distinct(Candidates(hrefs[..i])) == JobUrls(hrefs, limit)
  {
    CandidatesPrefix(hrefs, i);
    DistinctPrefix(Candidates(hrefs[..i]), Candidates(hrefs));
  }

  /** After the last href, what is kept is the answer. */
  lemma EndsWithAll(hrefs: seq<Option<string>>, limit: int)
    requires |Distinct(Candidates(hrefs))| <= limit || Distinct(Candidates(hrefs)) == []
    ensures Distinct(Candidates(hrefs)) == JobUrls(hrefs, limit)
  {
  }

  /**
   * `_extract_job_urls`: the loop over the result links with the `seen_urls`
   * set beside the list, stopping as soon as `limit` URLs are kept.
   */
  method ExtractJobUrls(hrefs: seq<Option<string>>, limit: int) returns (jobUrls: seq<string>)
    ensures jobUrls == JobUrls(hrefs, limit)
  {
    jobUrls := [];
    var seenUrls: set<string> := {};
    var i := 0;
    while i < |hrefs|
      invariant i <= |hrefs|
      invariant jobUrls == Distinct(Candidates(hrefs[..i]))
      invariant forall u :: u in seenUrls <==> u in jobUrls
      invariant |jobUrls| <= limit || jobUrls == []
    {
      if |jobUrls| >= limit {
        StopsAtLimit(hrefs, i, limit);
        return;
      }
      var href := hrefs[i];
      CandidatesStep(hrefs, i);
      if href.Some? && href.value != [] && Contains(href.value, JobViewMarker) {
        var cleanUrl := CleanUrl(href.value);
        DistinctStep(Candidates(hrefs[..i]), cleanUrl);
        if cleanUrl !in seenUrls {
          jobUrls := jobUrls + [cleanUrl];
          seenUrls := seenUrls + {cleanUrl};
        }
      } else {
        assert Candidates(hrefs[..i + 1]) == Candidates(hrefs[..i]);
      }
      i := i + 1;
    }
    assert hrefs[..i] == hrefs;
    EndsWithAll(hrefs, limit);
  }
}
