/**
 * The profile-page parsing of linkedin_scraper/scrapers/person.py, from the
 * texts read off the page to `Experience` and `Education` records: the
 * work-time and education-time splitting, the positional mapping of spans
 * to fields, the expansion of several roles at one employer into several
 * records, and the list flattening of `_get_experiences` /
 * `_get_educations`.
 */
module PersonParsing {
  import opened Wrappers
  import opened Text
  import opened Models

  /**
   * The separator `_parse_work_times` splits on, as the file spells it:
   * U+8DEF, the GBK reading of the UTF-8 bytes of a middle dot.
   */
  const AsWrittenSeparator: string := "\U{8DEF}"

  /** The separator the page actually shows between dates and duration: U+00B7. */
  const MiddleDot: string := "\U{00B7}"

  const DateRangeSeparator: string := " - "

  datatype WorkTimes = WorkTimes(from_date: Option<string>, to_date: Option<string>, duration: Option<string>)

  /**
   * How a date part splits into from and to: on its first " - " when it has
   * one (anything after a second " - " is dropped), else all of it is the
   * from date and the to date is empty.
   */
  predicate RangeRule(times: string, from: string, to: string) {
    if Contains(times, DateRangeSeparator) then
      from == Strip(Before(times, DateRangeSeparator)) &&
      to == Strip(Before(After(times, DateRangeSeparator), DateRangeSeparator))
    else
      from == times && to == ""
  }

  /** `_parse_work_times`, splitting the duration off at `sep`. */
  function ParseWorkTimesWith(sep: string, w: string): (r: WorkTimes)
    requires |sep| > 0
    ensures w == [] ==> r == WorkTimes(None, None, None)
    ensures w != [] ==> r.from_date.Some? && r.to_date.Some?
    ensures w != [] ==> (r.duration.Some? <==> Contains(w, sep))
    ensures w != [] && Contains(w, sep) ==> r.duration.value == Strip(Before(After(w, sep), sep))
    ensures w != [] ==> RangeRule(Strip(Before(w, sep)), r.from_date.value, r.to_date.value)
  {
    if w == [] then WorkTimes(None, None, None)
    else
      var parts := Split(w, sep);
      SplitHead(w, sep);
      SplitMany(w, sep);
      var times := Strip(parts[0]);
      var duration := if |parts| > 1 then Some(Strip(parts[1])) else None;
      if Contains(times, DateRangeSeparator) then
        var dateParts := Split(times, DateRangeSeparator);
        SplitHead(times, DateRangeSeparator);
        SplitMany(times, DateRangeSeparator);
        WorkTimes(Some(Strip(dateParts[0])), Some(if |dateParts| > 1 then Strip(dateParts[1]) else ""), duration)
      else
        WorkTimes(Some(times), Some(""), duration)
  }

  /** `_parse_work_times` as written, splitting on U+8DEF. */
  function ParseWorkTimesAsWritten(w: string): WorkTimes {
    ParseWorkTimesWith(AsWrittenSeparator, w)
  }

  /** `_parse_work_times` splitting on the middle dot it evidently means: the corrected parser. */
  function ParseWorkTimes(w: string): WorkTimes {
    ParseWorkTimesWith(MiddleDot, w)
  }

  /** " - " is found right after a text without '-'. */
  lemma FindRangeSeparator(a: string, rest: string)
    requires Lacks(a, '-')
    ensures Find(a + DateRangeSeparator + rest, DateRangeSeparator) == Some(|a|)
  {
    var w := a + DateRangeSeparator + rest;
    assert w[|a|..|a| + 3] == DateRangeSeparator;
    forall j | 0 <= j < |a| ensures !OccursAt(w, DateRangeSeparator, j) {
      assert w[j + 1] == if j + 1 < |a| then a[j + 1] else ' ';
    }
    FindAt(w, DateRangeSeparator, |a|);
  }

  /** "A - B" with neither side holding a '-' splits into A and B. */
  lemma RangeParts(a: string, b: string)
    requires Lacks(a, '-') && Lacks(b, '-')
    ensures Contains(a + DateRangeSeparator + b, DateRangeSeparator)
    ensures Before(a + DateRangeSeparator + b, DateRangeSeparator) == a
    ensures After(a + DateRangeSeparator + b, DateRangeSeparator) == b
    ensures Before(b, DateRangeSeparator) == b
  {
    FindRangeSeparator(a, b);
    assert (a + DateRangeSeparator + b)[|a| + 3..] == b;
    NotFoundWithout(b, DateRangeSeparator, 1);
  }

  /** Splitting `head <c> tail` at the one-character separator `c`, when neither side holds it. */
  lemma SplitAtChar(head: string, c: char, tail: string)
    requires Lacks(head, c) && Lacks(tail, c)
    ensures Contains(head + [c] + tail, [c])
    ensures Before(head + [c] + tail, [c]) == head
    ensures After(head + [c] + tail, [c]) == tail
    ensures Before(tail, [c]) == tail
  {
    FindCharAfter(head, c, tail);
    assert (head + [c] + tail)[|head| + 1..] == tail;
    NotFoundWithout(tail, [c], 0);
  }

  /**
   * A work-time text "A - B <sep> D" parses to (A, B, D) when A, B and D
   * carry no surrounding whitespace, none of them holds the separator, and
   * A and B hold no '-'.
   */
  lemma WorkTimesOfFullRange(c: char, a: string, b: string, d: string)
    requires !IsSpace(c) && c != '-'
    requires Trimmed(a) && Trimmed(b) && Trimmed(d)
    requires Lacks(a, c) && Lacks(b, c) && Lacks(d, c) && Lacks(a, '-') && Lacks(b, '-')
    ensures ParseWorkTimesWith([c], a + " - " + b + " " + [c] + " " + d) == WorkTimes(Some(a), Some(b), Some(d))
  {
    var range := a + " - " + b;
    var head := range + " ";
    var tail := " " + d;
    var w := a + " - " + b + " " + [c] + " " + d;
    assert w == head + [c] + tail;
    assert Contains(w, [c]) && Before(w, [c]) == head && Before(After(w, [c]), [c]) == tail by {
      assert Lacks(head, c) && Lacks(tail, c);
      SplitAtChar(head, c, tail);
    }
    assert Strip(tail) == d by { StripLeadingSpace(d); }
    assert Strip(head) == range by {
      assert Trimmed(range);
      StripTrailingSpace(range);
    }
    RangeOfTrimmed(a, b);
  }

  /** The from and to dates of a trimmed "A - B". */
  lemma RangeOfTrimmed(a: string, b: string)
    requires Trimmed(a) && Trimmed(b) && Lacks(a, '-') && Lacks(b, '-')
    ensures Trimmed(a + " - " + b)
    ensures forall from, to :: RangeRule(a + " - " + b, from, to) <==> from == a && to == b
  {
    RangeParts(a, b);
    StripOfStripped(a);
    StripOfStripped(b);
  }

  /** A work-time text "A - B" without the separator parses to (A, B, None). */
  lemma WorkTimesOfRange(c: char, a: string, b: string)
    requires !IsSpace(c) && c != '-'
    requires Trimmed(a) && Trimmed(b)
    requires Lacks(a, c) && Lacks(b, c) && Lacks(a, '-') && Lacks(b, '-')
    ensures ParseWorkTimesWith([c], a + " - " + b) == WorkTimes(Some(a), Some(b), None)
  {
    var w := a + " - " + b;
    assert Before(w, [c]) == w && !Contains(w, [c]) by {
      assert Lacks(w, c) by {
        forall i | 0 <= i < |w| ensures w[i] != c {
          if i < |a| { assert w[i] == a[i]; }
          else if i >= |a| + 3 { assert w[i] == b[i - |a| - 3]; }
        }
      }
      NotFoundWithout(w, [c], 0);
    }
    RangeOfTrimmed(a, b);
    assert Strip(w) == w by { StripOfStripped(w); }
  }

  /** The first example of the method's own documentation, character for character: U+8DEF before the duration. */
  lemma WorkTimesExampleOpenEnded()
    ensures ParseWorkTimesAsWritten("2000 - Present \U{8DEF} 26 yrs 1 mo") == WorkTimes(Some("2000"), Some("Present"), Some("26 yrs 1 mo"))
  {
    assert AsWrittenSeparator == ['\U{8DEF}'];
    assert "2000 - Present \U{8DEF} 26 yrs 1 mo" == "2000" + " - " + "Present" + " " + ['\U{8DEF}'] + " " + "26 yrs 1 mo";
    WorkTimesOfFullRange('\U{8DEF}', "2000", "Present", "26 yrs 1 mo");
  }

  /** The second example of the method's own documentation, character for character. */
  lemma WorkTimesExampleClosed()
    ensures ParseWorkTimesAsWritten("Jan 2020 - Dec 2022 \U{8DEF} 2 yrs") == WorkTimes(Some("Jan 2020"), Some("Dec 2022"), Some("2 yrs"))
  {
    assert AsWrittenSeparator == ['\U{8DEF}'];
    assert "Jan 2020 - Dec 2022 \U{8DEF} 2 yrs" == "Jan 2020" + " - " + "Dec 2022" + " " + ['\U{8DEF}'] + " " + "2 yrs";
    WorkTimesOfFullRange('\U{8DEF}', "Jan 2020", "Dec 2022", "2 yrs");
  }

  /** The third example: no duration suffix. */
  lemma WorkTimesExampleNoDuration()
    ensures ParseWorkTimesAsWritten("2015 - Present") == WorkTimes(Some("2015"), Some("Present"), None)
  {
    assert AsWrittenSeparator == ['\U{8DEF}'];
    assert "2015 - Present" == "2015" + " - " + "Present";
    WorkTimesOfRange('\U{8DEF}', "2015", "Present");
  }

  /**
   * As written, the duration of a real LinkedIn work-time text is never
   * split off: it stays glued to the to date and the duration is None.
   */
  lemma WorkTimesAsWrittenMissesMiddleDot()
    ensures ParseWorkTimesAsWritten("Jan 2020 - Dec 2022 \U{00B7} 2 yrs 11 mos")
      == WorkTimes(Some("Jan 2020"), Some("Dec 2022 \U{00B7} 2 yrs 11 mos"), None)
  {
    assert AsWrittenSeparator == ['\U{8DEF}'];
    assert "Jan 2020 - Dec 2022 \U{00B7} 2 yrs 11 mos" == "Jan 2020" + " - " + "Dec 2022 \U{00B7} 2 yrs 11 mos";
    WorkTimesOfRange('\U{8DEF}', "Jan 2020", "Dec 2022 \U{00B7} 2 yrs 11 mos");
  }

  /** With the middle dot, the same text splits into its three parts. */
  lemma WorkTimesSplitsMiddleDot()
    ensures ParseWorkTimes("Jan 2020 - Dec 2022 \U{00B7} 2 yrs 11 mos")
      == WorkTimes(Some("Jan 2020"), Some("Dec 2022"), Some("2 yrs 11 mos"))
  {
    assert MiddleDot == ['\U{00B7}'];
    assert "Jan 2020 - Dec 2022 \U{00B7} 2 yrs 11 mos" == "Jan 2020" + " - " + "Dec 2022" + " " + ['\U{00B7}'] + " " + "2 yrs 11 mos";
    WorkTimesOfFullRange('\U{00B7}', "Jan 2020", "Dec 2022", "2 yrs 11 mos");
  }

  /**
   * Through the whole single-role parser: as written, a role's duration is
   * glued to its to date; with the middle dot it is split off.
   */
  lemma SingleRoleSeparators(url: Option<string>)
    ensures var spans := ["Engineer", "Acme", "Jan 2020 - Dec 2022 \U{00B7} 2 yrs 11 mos", "Remote"];
      var asWritten := SingleRole(AsWrittenSeparator, spans, url, "");
      var corrected := SingleRole(MiddleDot, spans, url, "");
      asWritten.to_date == Some("Dec 2022 \U{00B7} 2 yrs 11 mos") && asWritten.duration.None? &&
      corrected.to_date == Some("Dec 2022") && corrected.duration == Some("2 yrs 11 mos")
  {
    WorkTimesAsWrittenMissesMiddleDot();
    WorkTimesSplitsMiddleDot();
  }

  /** `_parse_education_times`: note that the text is not stripped before looking for " - ". */
  function ParseEducationTimes(t: string): (r: (Option<string>, Option<string>))
    ensures t == [] ==> r == (None, None)
    ensures t != [] && Contains(t, DateRangeSeparator) ==>
      r == (Some(Strip(Before(t, DateRangeSeparator))), Some(Strip(Before(After(t, DateRangeSeparator), DateRangeSeparator))))
    ensures t != [] && !Contains(t, DateRangeSeparator) ==> r == (Some(Strip(t)), Some(Strip(t)))
  {
    if t == [] then (None, None)
    else if Contains(t, DateRangeSeparator) then
      var parts := Split(t, DateRangeSeparator);
      SplitHead(t, DateRangeSeparator);
      SplitMany(t, DateRangeSeparator);
      (Some(Strip(parts[0])), Some(if |parts| > 1 then Strip(parts[1]) else ""))
    else
      (Some(Strip(t)), Some(Strip(t)))
  }

  /** "A - B" gives (A, B). */
  lemma EducationRange(a: string, b: string)
    requires Trimmed(a) && Trimmed(b) && Lacks(a, '-') && Lacks(b, '-')
    ensures ParseEducationTimes(a + " - " + b) == (Some(a), Some(b))
  {
    RangeParts(a, b);
    StripAround("", a, "");
    StripAround("", b, "");
    assert "" + a + "" == a && "" + b + "" == b;
  }

  /** A single year Y gives (Y, Y). */
  lemma EducationSingle(a: string)
    requires Trimmed(a) && Lacks(a, '-')
    ensures ParseEducationTimes(a) == (Some(a), Some(a))
  {
    NotFoundWithout(a, DateRangeSeparator, 1);
    StripAround("", a, "");
    assert "" + a + "" == a;
  }

  /** "A - B" gives (A, B); a single year Y gives (Y, Y). */
  lemma EducationTimesShapes(a: string, b: string)
    requires Trimmed(a) && Trimmed(b) && Lacks(a, '-') && Lacks(b, '-')
    ensures ParseEducationTimes(a + " - " + b) == (Some(a), Some(b))
    ensures ParseEducationTimes(a) == (Some(a), Some(a))
  {
    EducationRange(a, b);
    EducationSingle(a);
  }

  /** The examples of the method's own documentation. */
  lemma EducationTimesExampleRange()
    ensures ParseEducationTimes("1973 - 1977") == (Some("1973"), Some("1977"))
  {
    assert "1973 - 1977" == "1973" + " - " + "1977";
    EducationTimesShapes("1973", "1977");
  }

  lemma EducationTimesExampleSingleYear()
    ensures ParseEducationTimes("2015") == (Some("2015"), Some("2015"))
  {
    EducationTimesShapes("2015", "2015");
  }

  /**
   * An element of a profile list entry, reduced to what the parser reads
   * from it. `rows` are its direct children, each given by the texts of the
   * aria-hidden spans of that child's own direct children; `nested` is
   * present when a `.pvs-list__container` lies inside it and then holds its
   * paged items, each given by the direct children of the item's first
   * link; `text` is its `inner_text()`.
   */
  datatype Block = Block(rows: seq<seq<string>>, nested: Option<seq<seq<Block>>>, text: string)

  /**
   * The `profile-component-entity` element of one list item: how many direct
   * children it has, the href of the link in its first child, and the
   * direct children of its second child.
   */
  datatype Entity = Entity(children: nat, logo_href: Option<string>, details: seq<Block>)

  /** The text of span `k`, or "" when there are fewer spans. */
  function Span(spans: seq<string>, k: nat): (r: string)
    ensures k < |spans| ==> r == spans[k]
    ensures k >= |spans| ==> r == ""
  {
    if k < |spans| then spans[k] else ""
  }

  /** `x.strip() if x else None`. */
  function StrippedOrNone(raw: string): (r: Option<string>)
    ensures r.None? <==> raw == []
    ensures r.Some? ==> |r.value| <= |raw| && (r.value == [] || Trimmed(r.value))
  {
    if raw == [] then None else Some(Strip(raw))
  }

  /** A stored text field: present and without surrounding whitespace. */
  predicate StrippedText(o: Option<string>) {
    o.Some? && (o.value == [] || Trimmed(o.value))
  }

  /**
   * The record of a single role: spans 0..3 are title, company, work times
   * and location, and the work times are split on `sep`.
   */
  function SingleRole(sep: string, spans: seq<string>, url: Option<string>, description: string): (r: Experience)
    requires |sep| > 0
    ensures StrippedText(r.position_title) && StrippedText(r.institution_name) && StrippedText(r.location)
    ensures r.position_title.value == Strip(Span(spans, 0)) && r.institution_name.value == Strip(Span(spans, 1))
    ensures r.location.value == Strip(Span(spans, 3))
    ensures var t := ParseWorkTimesWith(sep, Span(spans, 2));
      r.from_date == t.from_date && r.to_date == t.to_date && r.duration == t.duration
    ensures r.linkedin_url == url
    ensures r.description == StrippedOrNone(description)
    ensures r.description.None? <==> description == []
  {
    var t := ParseWorkTimesWith(sep, Span(spans, 2));
    Experience(
      Some(Strip(Span(spans, 0))), Some(Strip(Span(spans, 1))), url,
      t.from_date, t.to_date, t.duration,
      Some(Strip(Span(spans, 3))), StrippedOrNone(description))
  }

  /** Fewer than four spans leave the later fields empty rather than absent. */
  lemma MissingSpansLeaveEmpty(sep: string, spans: seq<string>, url: Option<string>, description: string)
    requires |sep| > 0 && |spans| < 4
    ensures SingleRole(sep, spans, url, description).location == Some("")
    ensures |spans| < 3 ==> SingleRole(sep, spans, url, description).from_date.None?
    ensures |spans| < 2 ==> SingleRole(sep, spans, url, description).institution_name == Some("")
  {
  }

  /**
   * One role of a multi-role entry, from the children of its link: the
   * spans of the first child are title, work times and location, and the
   * second child's text is the description. An item with no link children
   * or no rows yields nothing.
   */
  function NestedRole(sep: string, company: string, url: Option<string>, link: seq<Block>): (r: Option<Experience>)
    requires |sep| > 0
    ensures r.Some? <==> |link| > 0 && |link[0].rows| > 0
    ensures r.Some? ==> r.value.institution_name == Some(Strip(company)) && r.value.linkedin_url == url
    ensures r.Some? ==> var spans := link[0].rows[0];
      r.value.position_title == Some(Strip(Span(spans, 0))) &&
      r.value.location == Some(Strip(Span(spans, 2)))
    ensures r.Some? ==> var t := ParseWorkTimesWith(sep, Span(link[0].rows[0], 1));
      r.value.from_date == t.from_date && r.value.to_date == t.to_date && r.value.duration == t.duration
    ensures r.Some? ==> r.value.description == StrippedOrNone(if |link| > 1 then link[1].text else "")
  {
    if |link| == 0 || |link[0].rows| == 0 then None
    else
      var spans := link[0].rows[0];
      var t := ParseWorkTimesWith(sep, Span(spans, 1));
      Some(Experience(
        Some(Strip(Span(spans, 0))), Some(Strip(company)), url,
        t.from_date, t.to_date, t.duration,
        Some(Strip(Span(spans, 2))), StrippedOrNone(if |link| > 1 then link[1].text else "")))
  }

  /** `e` is the role that the nested item `link` yields. */
  predicate RoleOf(sep: string, company: string, url: Option<string>, link: seq<Block>, e: Experience)
    requires |sep| > 0
  {
    NestedRole(sep, company, url, link) == Some(e)
  }

  /** The roles of the nested items, in order, skipping the items that yield nothing. */
  function NestedRoles(sep: string, company: string, url: Option<string>, items: seq<seq<Block>>): (r: seq<Experience>)
    requires |sep| > 0
    ensures |r| <= |items|
    ensures forall k :: 0 <= k < |r| ==> r[k].institution_name == Some(Strip(company)) && r[k].linkedin_url == url
  {
    if |items| == 0 then []
    else
      var front := NestedRoles(sep, company, url, items[..|items| - 1]);
      match NestedRole(sep, company, url, items[|items| - 1])
      case None => front
      case Some(e) => front + [e]
  }

  /** Record `k` of a multi-role entry is the role of item `j`, an item at or after position `k`. */
  lemma {:induction false} NestedRoleSource(sep: string, company: string, url: Option<string>, items: seq<seq<Block>>, k: nat)
    returns (j: nat)
    requires |sep| > 0 && k < |NestedRoles(sep, company, url, items)|
    ensures k <= j < |items| && RoleOf(sep, company, url, items[j], NestedRoles(sep, company, url, items)[k])
  {
    var n := |items| - 1;
    var front := items[..n];
    var rf := NestedRoles(sep, company, url, front);
    if k < |rf| {
      j := NestedRoleSource(sep, company, url, front, k);
      assert front[j] == items[j];
    } else {
      j := n;
    }
  }

  /**
   * When every item has link children and rows, nothing is dropped: record
   * `k` is the role of item `k`.
   */
  lemma {:induction false} NestedRolesCount(sep: string, company: string, url: Option<string>, items: seq<seq<Block>>)
    requires |sep| > 0
    requires forall k :: 0 <= k < |items| ==> |items[k]| > 0 && |items[k][0].rows| > 0
    ensures |NestedRoles(sep, company, url, items)| == |items|
    ensures forall k :: 0 <= k < |items| ==> RoleOf(sep, company, url, items[k], NestedRoles(sep, company, url, items)[k])
  {
    if |items| > 0 {
      var n := |items| - 1;
      var front := items[..n];
      NestedRolesCount(sep, company, url, front);
      var last := NestedRole(sep, company, url, items[n]);
      assert last.Some?;
      var r := NestedRoles(sep, company, url, items);
      var rf := NestedRoles(sep, company, url, front);
      assert r == rf + [last.value];
      forall k | 0 <= k < |items|
        ensures RoleOf(sep, company, url, items[k], r[k])
      {
        if k < n {
          assert r[k] == rf[k] && front[k] == items[k];
          assert RoleOf(sep, company, url, front[k], rf[k]);
        } else {
          assert r[k] == last.value;
        }
      }
    }
  }

  /** `_parse_nested_experience`: the company name comes from the outer summary's first span. */
  method ParseNestedExperience(sep: string, url: Option<string>, details: seq<Block>) returns (experiences: seq<Experience>)
    requires |sep| > 0
    requires |details| > 1 && details[1].nested.Some?
    ensures |details[0].rows| == 0 ==> experiences == []
    ensures |details[0].rows| > 0 ==>
      experiences == NestedRoles(sep, Span(details[0].rows[0], 0), url, details[1].nested.value)
  {
    experiences := [];
    if |details[0].rows| == 0 {
      return;
    }
    var companyName := Span(details[0].rows[0], 0);
    var items := details[1].nested.value;
    var i := 0;
    while i < |items|
      invariant 0 <= i <= |items|
      invariant experiences == NestedRoles(sep, companyName, url, items[..i])
    {
      assert items[..i + 1][..i] == items[..i];
      var role := NestedRole(sep, companyName, url, items[i]);
      if role.Some? {
        experiences := experiences + [role.value];
      }
      i := i + 1;
    }
    assert items[..|items|] == items;
  }

  /** What `_parse_experience_item` returns: nothing, one record, or a list of records. */
  datatype ItemResult = NoResult | One(experience: Experience) | Many(experiences: seq<Experience>)

  /**
   * `_parse_experience_item`: a second detail child holding a nested list
   * makes a multi-role entry; otherwise the first row of the first detail
   * child is a single role, described by the second detail child's text.
   */
  function ParseExperienceItem(sep: string, e: Entity): (r: ItemResult)
    requires |sep| > 0
    ensures r.NoResult? <==> (e.children < 2 || |e.details| == 0 ||
      (!(|e.details| > 1 && e.details[1].nested.Some?) && |e.details[0].rows| == 0))
    ensures r.Many? <==> e.children >= 2 && |e.details| > 1 && e.details[1].nested.Some?
    ensures r.One? ==> r.experience == SingleRole(sep, e.details[0].rows[0], e.logo_href,
      if |e.details| > 1 then e.details[1].text else "")
    ensures r.Many? ==>
      r.experiences ==
      (if |e.details[0].rows| == 0 then []
       else NestedRoles(sep, Span(e.details[0].rows[0], 0), e.logo_href, e.details[1].nested.value))
    ensures r.One? ==> r.experience.linkedin_url == e.logo_href
    ensures r.Many? ==> forall k :: 0 <= k < |r.experiences| ==> r.experiences[k].linkedin_url == e.logo_href
  {
    if e.children < 2 || |e.details| == 0 then NoResult
    else if |e.details| > 1 && e.details[1].nested.Some? then
      Many(if |e.details[0].rows| == 0 then []
           else NestedRoles(sep, Span(e.details[0].rows[0], 0), e.logo_href, e.details[1].nested.value))
    else if |e.details[0].rows| == 0 then NoResult
    else One(SingleRole(sep, e.details[0].rows[0], e.logo_href, if |e.details| > 1 then e.details[1].text else ""))
  }

  /** The records an item contributes to the list. */
  function Produced(r: ItemResult): seq<Experience> {
    match r
    case NoResult => []
    case One(x) => [x]
    case Many(xs) => xs
  }

  /** The experiences of a list of items: each item's records, in item order. */
  function CollectExperiences(sep: string, items: seq<Entity>): seq<Experience>
    requires |sep| > 0
  {
    if |items| == 0 then []
    else CollectExperiences(sep, items[..|items| - 1]) + Produced(ParseExperienceItem(sep, items[|items| - 1]))
  }

  /** Collecting distributes over concatenation of item lists: order is preserved. */
  lemma {:induction false} CollectExperiencesAppend(sep: string, a: seq<Entity>, b: seq<Entity>)
    requires |sep| > 0
    ensures CollectExperiences(sep, a + b) == CollectExperiences(sep, a) + CollectExperiences(sep, b)
    decreases |b|
  {
    if |b| > 0 {
      var b' := b[..|b| - 1];
      assert (a + b)[..|a + b| - 1] == a + b';
      CollectExperiencesAppend(sep, a, b');
    } else {
      assert a + b == a;
    }
  }

  /** `_get_experiences`: list results are spliced in, single results appended, empty results skipped. */
  method GetExperiences(sep: string, items: seq<Entity>) returns (experiences: seq<Experience>)
    requires |sep| > 0
    ensures experiences == CollectExperiences(sep, items)
  {
    experiences := [];
    var i := 0;
    while i < |items|
      invariant 0 <= i <= |items|
      invariant experiences == CollectExperiences(sep, items[..i])
    {
      assert items[..i + 1][..i] == items[..i];
      var result := ParseExperienceItem(sep, items[i]);
      match result {
        case NoResult =>
        case One(x) =>
          experiences := experiences + [x];
        case Many(xs) =>
          if |xs| > 0 {
            experiences := experiences + xs;
          }
      }
      i := i + 1;
    }
    assert items[..|items|] == items;
  }

  /**
   * When the first item is a single role, the profile's `company` and
   * `job_title` properties are that role's company and title.
   */
  lemma {:induction false} ProfileCompanyIsFirstRole(sep: string, p: Person, items: seq<Entity>)
    requires |sep| > 0
    requires |items| > 0 && ParseExperienceItem(sep, items[0]).One?
    requires p.experiences == CollectExperiences(sep, items)
    ensures p.Company() == Some(Strip(Span(items[0].details[0].rows[0], 1)))
    ensures p.JobTitle() == Some(Strip(Span(items[0].details[0].rows[0], 0)))
  {
    var first := ParseExperienceItem(sep, items[0]).experience;
    CollectExperiencesAppend(sep, [items[0]], items[1..]);
    assert [items[0]] + items[1..] == items;
    assert [items[0]][..0] == [];
    assert CollectExperiences(sep, [items[0]]) == [first];
    assert p.experiences[0] == first;
  }

  /** `_parse_education_item`: span 0 is the school; 3 spans add degree and dates, 2 spans dates only. */
  function ParseEducationItem(e: Entity): (r: Option<Education>)
    ensures r.Some? <==> e.children >= 2 && |e.details| > 0 && |e.details[0].rows| > 0
    ensures r.Some? ==> r.value.linkedin_url == e.logo_href && StrippedText(r.value.institution_name)
    ensures r.Some? ==> r.value.institution_name == Some(Strip(Span(e.details[0].rows[0], 0)))
    ensures r.Some? ==> r.value.description == StrippedOrNone(if |e.details| > 1 then e.details[1].text else "")
  {
    if e.children < 2 || |e.details| == 0 || |e.details[0].rows| == 0 then None
    else
      var spans := e.details[0].rows[0];
      var degree := if |spans| == 3 then spans[1] else "";
      var times := if |spans| == 3 then spans[2] else if |spans| == 2 then spans[1] else "";
      var dates := ParseEducationTimes(times);
      Some(Education(
        Some(Strip(Span(spans, 0))), StrippedOrNone(degree), e.logo_href,
        dates.0, dates.1, StrippedOrNone(if |e.details| > 1 then e.details[1].text else "")))
  }

  /** The span count decides which of degree and dates are read. */
  lemma EducationSpanCount(e: Entity)
    requires e.children >= 2 && |e.details| > 0 && |e.details[0].rows| > 0
    ensures var spans := e.details[0].rows[0];
      var r := ParseEducationItem(e).value;
      (|spans| == 3 ==> r.degree == StrippedOrNone(spans[1]) && (r.from_date, r.to_date) == ParseEducationTimes(spans[2])) &&
      (|spans| == 2 ==> r.degree.None? && (r.from_date, r.to_date) == ParseEducationTimes(spans[1])) &&
      (|spans| != 2 && |spans| != 3 ==> r.degree.None? && r.from_date.None? && r.to_date.None?)
  {
  }

  /** The educations of a list of items, in item order, skipping the items that yield nothing. */
  function CollectEducations(items: seq<Entity>): (r: seq<Education>)
    ensures |r| <= |items|
  {
    if |items| == 0 then []
    else
      var front := CollectEducations(items[..|items| - 1]);
      match ParseEducationItem(items[|items| - 1])
      case None => front
      case Some(x) => front + [x]
  }

  /** `_get_educations`. */
  method GetEducations(items: seq<Entity>) returns (educations: seq<Education>)
    ensures educations == CollectEducations(items)
  {
    educations := [];
    var i := 0;
    while i < |items|
      invariant 0 <= i <= |items|
      invariant educations == CollectEducations(items[..i])
    {
      assert items[..i + 1][..i] == items[..i];
      var edu := ParseEducationItem(items[i]);
      if edu.Some? {
        educations := educations + [edu.value];
      }
      i := i + 1;
    }
    assert items[..|items|] == items;
  }
}
