/**
 * The deterministic part of linkedin_scraper/scrapers/company_posts.py:
 * the posts-page URL, the reaction/comment/repost count parser, the
 * relative-time extraction, the feed URL of a post, and the bounded
 * collection loop of `_scrape_posts`. What the in-page script extracts on
 * each round is an input.
 */
module CompanyPosts {
  import opened Wrappers
  import opened Text
  import opened Models

  // ---------------------------------------------------------------------------
  // The posts URL
  // ---------------------------------------------------------------------------

  const PostsMarker := "/posts"

  /** `_build_posts_url`: strip trailing '/', then append "/posts/" unless "/posts" is already there. */
  function BuildPostsUrl(companyUrl: string): (r: string)
    ensures Contains(r, PostsMarker)
    ensures !Contains(RStripChar(companyUrl, '/'), PostsMarker) ==> r == RStripChar(companyUrl, '/') + PostsMarker + "/"
    ensures Contains(RStripChar(companyUrl, '/'), PostsMarker) ==> r == RStripChar(companyUrl, '/')
  {
    var base := RStripChar(companyUrl, '/');
    if Contains(base, PostsMarker) then base
    else
      assert (base + PostsMarker + "/")[|base|..|base| + |PostsMarker|] == PostsMarker;
      ContainsAt(base + PostsMarker + "/", PostsMarker, |base|);
      base + PostsMarker + "/"
  }

  /**
   * Building from an already-built URL drops the slash the first call added:
   * a second call gives `base + "/posts"`, and from then on the URL is fixed.
   */
  lemma BuildPostsUrlTwice(companyUrl: string)
    ensures var once := BuildPostsUrl(companyUrl);
      BuildPostsUrl(once) == RStripChar(once, '/') && BuildPostsUrl(BuildPostsUrl(once)) == BuildPostsUrl(once)
  {
    var once := BuildPostsUrl(companyUrl);
    var base := RStripChar(once, '/');
    assert Contains(base, PostsMarker) by {
      var b0 := RStripChar(companyUrl, '/');
      if Contains(b0, PostsMarker) {
        assert RStripChar(b0, '/') == b0;
      } else {
        assert once == b0 + PostsMarker + "/";
        assert RStripChar(once, '/') == RStripChar(b0 + PostsMarker, '/');
        assert RStripChar(b0 + PostsMarker, '/') == b0 + PostsMarker;
        assert (b0 + PostsMarker)[|b0|..|b0| + |PostsMarker|] == PostsMarker;
        ContainsAt(b0 + PostsMarker, PostsMarker, |b0|);
      }
    }
    assert RStripChar(base, '/') == base;
  }

  // ---------------------------------------------------------------------------
  // Counts
  // ---------------------------------------------------------------------------

  /** `s` from its first digit on, or "" when it has none. */
  function FromFirstDigit(s: string): (r: string)
    ensures |r| <= |s| && r == s[|s| - |r|..]
    ensures r == [] || IsDigit(r[0])
    ensures forall i :: 0 <= i < |s| - |r| ==> !IsDigit(s[i])
    decreases |s|
  {
    if |s| == 0 || IsDigit(s[0]) then s else FromFirstDigit(s[1..])
  }

  /** The longest prefix of `s` made of digits. */
  function LeadingDigits(s: string): (r: string)
    ensures |r| <= |s| && r == s[..|r|]
    ensures forall i :: 0 <= i < |r| ==> IsDigit(r[i])
    ensures |r| == |s| || !IsDigit(s[|r|])
    decreases |s|
  {
    if |s| > 0 && IsDigit(s[0]) then [s[0]] + LeadingDigits(s[1..]) else []
  }

  /** The first maximal run of digits: what `re.findall(r'[\d,]+', t)[0]` finds in a comma-free `t`. */
  function FirstNumber(s: string): (r: Option<string>)
    ensures r.None? <==> DigitCount(s) == 0
    ensures r.Some? ==> IsAllDigits(r.value)
    // the run starts at the first digit of `s` and stops at the first non-digit after it
    ensures r.Some? ==> |r.value| > 0 && r.value <= FromFirstDigit(s)
    ensures r.Some? ==> |r.value| == |FromFirstDigit(s)| || !IsDigit(FromFirstDigit(s)[|r.value|])
  {
    var t := FromFirstDigit(s);
    assert DigitCount(s) == 0 <==> t == [] by {
      if t == [] {
        assert forall i :: 0 <= i < |s| ==> !IsDigit(s[i]);
      } else {
        assert IsDigit(s[|s| - |t|]);
      }
    }
    if t == [] then None else Some(LeadingDigits(t))
  }

  /**
   * `_parse_count`: None for "", else the first number after removing the
   * thousands commas, None when there is no digit at all.
   */
  function ParseCount(text: string): (r: Option<nat>)
    ensures text == [] ==> r.None?
    ensures r.Some? <==> DigitCount(text) > 0
  {
    if text == [] then None
    else
      RemoveCharKeepsDigits(text, ',');
      ReplaceRemoves(text, ',');
      match FirstNumber(Replace(text, ",", ""))
      case None => None
      case Some(d) => Some(DecimalValue(d))
  }

  /** Commas never matter: the count of a text is the count of the text without them. */
  lemma ParseCountIgnoresCommas(text: string)
    ensures ParseCount(text) == ParseCount(RemoveChar(text, ','))
  {
    var t := RemoveChar(text, ',');
    ReplaceRemoves(text, ',');
    ReplaceRemoves(t, ',');
    RemoveCharLacking(t, ',');
    RemoveCharKeepsDigits(text, ',');
    if text != [] && t == [] {
      assert DigitCount(t) == 0;
    }
  }

  /** A comma-free text counts as the value of its first number. */
  lemma ParseCountCommaFree(text: string, d: string)
    requires Lacks(text, ',') && FirstNumber(text) == Some(d)
    ensures ParseCount(text) == Some(DecimalValue(d))
  {
    ReplaceRemoves(text, ',');
    RemoveCharLacking(text, ',');
  }

  /** A number written at the start of the text, then a non-digit: the count is that number. */
  lemma ParseCountOfNumber(n: nat, rest: string)
    requires Lacks(rest, ',') && (rest == [] || !IsDigit(rest[0]))
    ensures ParseCount(Decimal(n) + rest) == Some(n)
  {
    var d := Decimal(n);
    var text := d + rest;
    assert Lacks(text, ',') by {
      forall i | 0 <= i < |text| ensures text[i] != ',' {
        if i < |d| { assert IsDigit(d[i]); } else { assert text[i] == rest[i - |d|]; }
      }
    }
    assert FromFirstDigit(text) == text by {
      assert IsDigit(text[0]);
    }
    LeadingDigitsOf(d, rest);
    assert FirstNumber(text) == Some(d);
    ParseCountCommaFree(text, d);
    DecimalRoundTrip(n);
  }

  lemma {:induction false} LeadingDigitsOf(d: string, rest: string)
    requires forall i :: 0 <= i < |d| ==> IsDigit(d[i])
    requires rest == [] || !IsDigit(rest[0])
    ensures LeadingDigits(d + rest) == d
    decreases |d|
  {
    if |d| > 0 {
      assert (d + rest)[1..] == d[1..] + rest;
      LeadingDigitsOf(d[1..], rest);
    } else {
      assert d + rest == rest;
    }
  }

  // ---------------------------------------------------------------------------
  // Relative times
  // ---------------------------------------------------------------------------

  /**
   * The pattern `(\d+[hdwmy]|\d+\s*(?:hour|day|week|month|year)s?\s*ago)`
   * with IGNORECASE, matched on the lowered text `l`: each repetition is
   * greedy and never needs to give back, since what follows it cannot start
   * with what it consumes.
   */
  function DigitsEnd(l: string, i: nat): (j: nat)
    requires i <= |l|
    ensures i <= j <= |l|
    ensures forall k :: i <= k < j ==> IsDigit(l[k])
    ensures j == |l| || !IsDigit(l[j])
    decreases |l| - i
  {
    if i < |l| && IsDigit(l[i]) then DigitsEnd(l, i + 1) else i
  }

  function SpacesEnd(l: string, i: nat): (j: nat)
    requires i <= |l|
    ensures i <= j <= |l|
    ensures forall k :: i <= k < j ==> IsSpace(l[k])
    ensures j == |l| || !IsSpace(l[j])
    decreases |l| - i
  {
    if i < |l| && IsSpace(l[i]) then SpacesEnd(l, i + 1) else i
  }

  const ShortUnits := "hdwmy"
  const LongUnits := ["hour", "day", "week", "month", "year"]

  /** `(?:hour|day|week|month|year)` at `i`: the end of the unit word. */
  function UnitEnd(l: string, i: nat): (r: Option<nat>)
    ensures r.Some? ==> i < r.value <= |l| && l[i..r.value] in LongUnits
    ensures r.None? ==> forall k :: 0 <= k < |LongUnits| ==> !OccursAt(l, LongUnits[k], i)
  {
    if OccursAt(l, "hour", i) then Some(i + 4)
    else if OccursAt(l, "day", i) then Some(i + 3)
    else if OccursAt(l, "week", i) then Some(i + 4)
    else if OccursAt(l, "month", i) then Some(i + 5)
    else if OccursAt(l, "year", i) then Some(i + 4)
    else None
  }

  /** `\s*(?:hour|day|week|month|year)s?\s*ago` from `d` on: the end of the phrase. */
  function PhraseEnd(l: string, d: nat): (r: Option<nat>)
    requires d <= |l|
    ensures r.Some? ==> d < r.value <= |l| && !IsSpace(l[r.value - 1])
  {
    var w := SpacesEnd(l, d);
    match UnitEnd(l, w)
    case None => None
    case Some(u) =>
      var p := if u < |l| && l[u] == 's' then u + 1 else u;
      var a := SpacesEnd(l, p);
      if OccursAt(l, "ago", a) then
        assert l[a + 2] == "ago"[2];
        Some(a + 3)
      else None
  }

  /** The end of the match of the pattern starting at `i`, if there is one. */
  function TokenEnd(l: string, i: nat): (r: Option<nat>)
    requires i <= |l|
    ensures r.Some? ==> i < r.value <= |l| && IsDigit(l[i]) && !IsSpace(l[r.value - 1])
  {
    var d := DigitsEnd(l, i);
    if d == i then None
    else if d < |l| && l[d] in ShortUnits then Some(d + 1)
    else PhraseEnd(l, d)
  }

  /** `re.search`: the leftmost position from `from` on where the pattern matches. */
  function FirstToken(l: string, from: nat): (r: Option<(nat, nat)>)
    requires from <= |l|
    ensures r.Some? ==> from <= r.value.0 <= |l| && TokenEnd(l, r.value.0) == Some(r.value.1)
    ensures r.Some? ==> forall k :: from <= k < r.value.0 ==> TokenEnd(l, k).None?
    ensures r.None? ==> forall k :: from <= k <= |l| ==> TokenEnd(l, k).None?
    decreases |l| - from
  {
    if from == |l| then None
    else match TokenEnd(l, from)
      case Some(j) => Some((from, j))
      case None => FirstToken(l, from + 1)
  }

  lemma LowerKeepsClasses(s: string, i: nat)
    requires i < |s|
    ensures IsDigit(Lower(s)[i]) <==> IsDigit(s[i])
    ensures IsSpace(Lower(s)[i]) <==> IsSpace(s[i])
  {
  }

  /**
   * `_extract_time_from_text`: None for "", else the first relative-time
   * token, else the text before the first '•', stripped.
   */
  function ExtractTime(text: string): (r: Option<string>)
    ensures r.None? <==> text == []
  {
    if text == [] then None else Some(TimeText(text, FirstToken(Lower(text), 0)))
  }

  /** The time text of a non-empty `text`: the token `tok` found in it, else the part before '•'. */
  function TimeText(text: string, tok: Option<(nat, nat)>): string
    requires tok.Some? ==> tok.value.0 <= tok.value.1 <= |text|
  {
    match tok
    case Some((i, j)) => Strip(text[i..j])
    case None => Strip(Split(text, "•")[0])
  }

  /** The token found is returned as it stands: it starts with a digit and ends with a letter, so strip keeps it. */
  lemma ExtractTimeToken(text: string)
    requires text != [] && FirstToken(Lower(text), 0).Some?
    ensures ExtractTime(text) == Some(text[FirstToken(Lower(text), 0).value.0..FirstToken(Lower(text), 0).value.1])
  {
    var tok := FirstToken(Lower(text), 0);
    TokenClasses(text, tok.value.0, tok.value.1);
    StripToken(text, tok.value.0, tok.value.1);
  }

  /** A match in the lowered text starts on a digit and ends on a non-space of the text itself. */
  lemma TokenClasses(text: string, i: nat, j: nat)
    requires i <= |text| && TokenEnd(Lower(text), i) == Some(j)
    ensures i < j <= |text| && IsDigit(text[i]) && !IsSpace(text[j - 1])
  {
    LowerKeepsClasses(text, i);
    LowerKeepsClasses(text, j - 1);
  }

  /** Strip keeps a slice that starts on a digit and ends on a non-space. */
  lemma StripToken(text: string, i: nat, j: nat)
    requires i < j <= |text| && IsDigit(text[i]) && !IsSpace(text[j - 1])
    ensures Strip(text[i..j]) == text[i..j]
  {
    var t := text[i..j];
    assert t[0] == text[i] && t[|t| - 1] == text[j - 1];
    StripOfStripped(t);
  }

  /** Without a token, the answer is the first '•'-separated part, stripped; it may be "" but is never None. */
  lemma ExtractTimeFallback(text: string)
    requires text != [] && FirstToken(Lower(text), 0).None?
    ensures ExtractTime(text) == Some(Strip(Before(text, "•")))
  {
    assert ExtractTime(text) == Some(TimeText(text, None));
    SplitHead(text, "•");
  }

  /** A text without digits has no time token: the answer is its first '•'-separated part. */
  lemma ExtractTimeWithoutDigits(text: string)
    requires text != [] && DigitCount(text) == 0
    ensures ExtractTime(text) == Some(Strip(Before(text, "•")))
  {
    var l := Lower(text);
    forall k | 0 <= k <= |l| ensures TokenEnd(l, k).None? {
      if k < |l| {
        LowerKeepsClasses(text, k);
        assert !IsDigit(text[k]);
      }
    }
    ExtractTimeFallback(text);
  }

  /** Digits `l[i..e]` followed by a short unit letter match as `\d+[hdwmy]`. */
  lemma ShortTokenAt(l: string, i: nat, e: nat)
    requires i < e < |l| && l[e] in ShortUnits
    requires forall k :: i <= k < e ==> IsDigit(l[k])
    ensures TokenEnd(l, i) == Some(e + 1)
  {
    DigitsEndAt(l, i, e);
  }

  /** Where the text has no digit, no match starts. */
  lemma NoTokenBefore(text: string, i: nat)
    requires i <= |text| && forall k :: 0 <= k < i ==> !IsDigit(text[k])
    ensures forall k :: 0 <= k < i ==> TokenEnd(Lower(text), k).None?
  {
    forall k | 0 <= k < i ensures TokenEnd(Lower(text), k).None? {
      LowerKeepsClasses(text, k);
    }
  }

  /** Digits `text[i..e]` followed by a short unit letter match as `\d+[hdwmy]`, whatever the case. */
  lemma ShortTokenIn(text: string, i: nat, e: nat)
    requires i < e < |text| && LowerChar(text[e]) in ShortUnits
    requires forall k :: i <= k < e ==> IsDigit(text[k])
    ensures TokenEnd(Lower(text), i) == Some(e + 1)
  {
    forall k | i <= k < e ensures IsDigit(Lower(text)[k]) {
      LowerKeepsClasses(text, k);
    }
    ShortTokenAt(Lower(text), i, e);
  }

  /** The character classes of `pre + digits + [unit] + rest`, position by position. */
  lemma ShortTokenText(pre: string, digits: string, unit: char, rest: string, text: string)
    requires DigitCount(pre) == 0
    requires forall i :: 0 <= i < |digits| ==> IsDigit(digits[i])
    requires text == pre + digits + [unit] + rest
    ensures |pre| + |digits| < |text| && text[|pre| + |digits|] == unit
    ensures forall k :: 0 <= k < |pre| ==> !IsDigit(text[k])
    ensures forall k :: |pre| <= k < |pre| + |digits| ==> IsDigit(text[k])
    ensures text[|pre|..|pre| + |digits| + 1] == digits + [unit]
  {
    var a := pre + digits;
    assert text == a + [unit] + rest;
    forall k | 0 <= k < |pre| ensures !IsDigit(text[k]) {
      assert text[k] == a[k] == pre[k];
    }
    forall k | |pre| <= k < |pre| + |digits| ensures IsDigit(text[k]) {
      assert text[k] == a[k] == digits[k - |pre|];
    }
    assert text[|a|] == unit;
    assert text[..|a| + 1] == a + [unit];
    assert text[|pre|..|a| + 1] == (a + [unit])[|pre|..] == digits + [unit];
  }

  /** A match at `i` with no digit before `i` is the leftmost, and is returned as it stands. */
  lemma TokenFirst(text: string, i: nat, j: nat)
    requires i <= |text| && TokenEnd(Lower(text), i) == Some(j)
    requires forall k :: 0 <= k < i ==> !IsDigit(text[k])
    ensures ExtractTime(text) == Some(text[i..j])
  {
    NoTokenBefore(text, i);
    FirstTokenAt(Lower(text), i, j);
    ExtractTimeToken(text);
  }

  /** Digits at `i..e` then a short unit letter, and no digit before `i`: that token is the answer. */
  lemma ShortTokenFirst(text: string, i: nat, e: nat)
    requires i < e < |text| && LowerChar(text[e]) in ShortUnits
    requires forall k :: 0 <= k < i ==> !IsDigit(text[k])
    requires forall k :: i <= k < e ==> IsDigit(text[k])
    ensures ExtractTime(text) == Some(text[i..e + 1])
  {
    ShortTokenIn(text, i, e);
    TokenFirst(text, i, e + 1);
  }

  /** A short token such as "3d" or "2W" after digit-free text is what is returned. */
  lemma ExtractShortToken(pre: string, digits: string, unit: char, rest: string)
    requires DigitCount(pre) == 0
    requires |digits| > 0 && forall i :: 0 <= i < |digits| ==> IsDigit(digits[i])
    requires LowerChar(unit) in ShortUnits
    ensures ExtractTime(pre + digits + [unit] + rest) == Some(digits + [unit])
  {
    var text := pre + digits + [unit] + rest;
    ShortTokenText(pre, digits, unit, rest, text);
    ShortTokenFirst(text, |pre|, |pre| + |digits|);
  }

  /** A run of whitespace `l[i..e]` ends at `e` when `l[e]` is not whitespace. */
  lemma {:induction false} SpacesEndAt(l: string, i: nat, e: nat)
    requires i <= e < |l| && !IsSpace(l[e])
    requires forall k :: i <= k < e ==> IsSpace(l[k])
    ensures SpacesEnd(l, i) == e
    decreases e - i
  {
    if i < e {
      SpacesEndAt(l, i + 1, e);
    }
  }

  /** A unit word found at `w` is the one `UnitEnd` takes: the words differ in their first letters. */
  lemma UnitAt(l: string, w: nat, unit: string)
    requires unit in LongUnits && OccursAt(l, unit, w)
    ensures UnitEnd(l, w) == Some(w + |unit|) && !IsSpace(l[w])
  {
    var c := l[w];
    assert c == l[w..w + |unit|][0] == unit[0];
    assert OccursAt(l, "hour", w) ==> c == 'h' by {
      if OccursAt(l, "hour", w) { assert l[w..w + 4][0] == c; }
    }
    assert OccursAt(l, "day", w) ==> c == 'd' by {
      if OccursAt(l, "day", w) { assert l[w..w + 3][0] == c; }
    }
    assert OccursAt(l, "week", w) ==> c == 'w' by {
      if OccursAt(l, "week", w) { assert l[w..w + 4][0] == c; }
    }
    assert OccursAt(l, "month", w) ==> c == 'm' by {
      if OccursAt(l, "month", w) { assert l[w..w + 5][0] == c; }
    }
  }

  /** "s ago" at `u`: the optional 's', the spaces and "ago" take exactly those five characters. */
  lemma AgoAt(l: string, u: nat)
    requires OccursAt(l, "s ago", u)
    ensures u + 5 <= |l| && l[u] == 's' && SpacesEnd(l, u + 1) == u + 2 && OccursAt(l, "ago", u + 2)
  {
    var m := l[u..u + 5];
    assert m == "s ago";
    assert l[u] == m[0] == 's';
    assert l[u + 1] == m[1] == ' ';
    assert l[u + 2] == m[2] == 'a';
    assert !IsSpace('a');
    SpacesEndAt(l, u + 1, u + 2);
    assert l[u + 2..u + 5] == m[2..];
  }

  /** The phrase from `d`: spaces up to `w`, a unit word up to `u`, an 's', spaces up to `a`, then "ago". */
  lemma PhraseFrom(l: string, d: nat, w: nat, u: nat, a: nat)
    requires d <= w <= |l| && SpacesEnd(l, d) == w && UnitEnd(l, w) == Some(u)
    requires u < |l| && l[u] == 's' && SpacesEnd(l, u + 1) == a && OccursAt(l, "ago", a)
    ensures PhraseEnd(l, d) == Some(a + 3)
  {
  }

  /** A space, a unit word, then "s ago", after the digits: the phrase alternative matches. */
  lemma PhraseAt(l: string, d: nat, unit: string)
    requires unit in LongUnits && d < |l| && l[d] == ' '
    requires OccursAt(l, unit, d + 1) && OccursAt(l, "s ago", d + 1 + |unit|)
    ensures PhraseEnd(l, d) == Some(d + |unit| + 6)
  {
    var u := d + 1 + |unit|;
    assert UnitEnd(l, d + 1) == Some(u) && !IsSpace(l[d + 1]) by {
      UnitAt(l, d + 1, unit);
    }
    assert SpacesEnd(l, d) == d + 1 by {
      SpacesEndAt(l, d, d + 1);
    }
    assert u < |l| && l[u] == 's' && SpacesEnd(l, u + 1) == u + 2 && OccursAt(l, "ago", u + 2) by {
      AgoAt(l, u);
    }
    PhraseFrom(l, d, d + 1, u, u + 2);
  }

  /** Digits `l[i..e]`, a space, a unit word, then "s ago": the pattern matches the whole phrase at `i`. */
  lemma PhraseToken(l: string, i: nat, e: nat, unit: string)
    requires unit in LongUnits && i < e < |l| && l[e] == ' '
    requires forall k :: i <= k < e ==> IsDigit(l[k])
    requires OccursAt(l, unit, e + 1) && OccursAt(l, "s ago", e + 1 + |unit|)
    ensures TokenEnd(l, i) == Some(e + |unit| + 6)
  {
    PhraseAt(l, e, unit);
    DigitsEndAt(l, i, e);
  }

  /** The digit run starting at `i` ends at `e` when exactly `l[i..e]` are digits. */
  lemma {:induction false} DigitsEndAt(l: string, i: nat, e: nat)
    requires i <= e < |l| && !IsDigit(l[e])
    requires forall k :: i <= k < e ==> IsDigit(l[k])
    ensures DigitsEnd(l, i) == e
    decreases e - i
  {
    if i < e {
      DigitsEndAt(l, i + 1, e);
    }
  }

  /** The leftmost match is at `i` when it matches there and nowhere before. */
  lemma {:induction false} FirstTokenAt(l: string, i: nat, j: nat)
    requires i <= |l| && TokenEnd(l, i) == Some(j)
    requires forall k :: 0 <= k < i ==> TokenEnd(l, k).None?
    ensures FirstToken(l, 0) == Some((i, j))
  {
    var from := i;
    while from > 0
      invariant 0 <= from <= i && FirstToken(l, from) == Some((i, j))
      decreases from
    {
      from := from - 1;
    }
  }

  // ---------------------------------------------------------------------------
  // Posts
  // ---------------------------------------------------------------------------

  const ActivityPrefix := "urn:li:activity:"
  const FeedUpdate := "https://www.linkedin.com/feed/update/"

  /** Lines 207-209: the feed URL of the post whose URN is `urn`. */
  function PostUrl(urn: string): (r: string)
    ensures FeedUpdate + ActivityPrefix <= r && r[|r| - 1] == '/'
  {
    FeedUpdate + ActivityPrefix + Replace(urn, ActivityPrefix, "") + "/"
  }

  /** For an activity URN (the prefix, then digits) the URL is the feed URL of that very URN. */
  lemma PostUrlOfActivity(id: string)
    requires IsAllDigits(id)
    ensures PostUrl(ActivityPrefix + id) == FeedUpdate + ActivityPrefix + id + "/"
  {
    var urn := ActivityPrefix + id;
    assert urn[..|ActivityPrefix|] == ActivityPrefix;
    assert Find(urn, ActivityPrefix) == Some(0);
    assert Lacks(id, ':') by {
      forall k | 0 <= k < |id| ensures id[k] != ':' { assert IsDigit(id[k]); }
    }
    NotFoundWithout(id, ActivityPrefix, 3);
    SplitStep(urn, ActivityPrefix, 0);
    assert urn[|ActivityPrefix|..] == id;
    JoinCons([], [id], "");
  }

  /** Lines 205-218: the record built from one extracted post. */
  function PostOf(urn: string, text: string, timeText: string, reactions: string, comments: string,
                  reposts: string, images: seq<string>): (p: Post)
    ensures p.urn == Some(urn) && p.text == Some(text) && p.image_urls == images
    ensures p.linkedin_url == Some(PostUrl(urn))
    ensures p.posted_date == ExtractTime(timeText)
    ensures p.reactions_count == ParseCount(reactions) && p.comments_count == ParseCount(comments)
    ensures p.reposts_count == ParseCount(reposts)
    ensures p.video_url.None? && p.article_url.None?
  {
    Post(Some(PostUrl(urn)), Some(urn), Some(text), ExtractTime(timeText),
         ParseCount(reactions), ParseCount(comments), ParseCount(reposts), images, None, None)
  }

  /** Line 91: a post is kept when its URN is set and no kept post has it. */
  predicate Fresh(p: Post, kept: seq<Post>) {
    p.urn.Some? && p.urn.value != [] && forall q :: q in kept ==> q.urn != p.urn
  }

  /** Non-empty URNs, pairwise distinct. */
  predicate DistinctUrns(posts: seq<Post>) {
    (forall i :: 0 <= i < |posts| ==> posts[i].urn.Some? && posts[i].urn.value != []) &&
    (forall i, j :: 0 <= i < j < |posts| ==> posts[i].urn != posts[j].urn)
  }

  /** The reference definition: `kept`, then each post of `xs` whose URN is new, in order. */
  function FirstSeen(kept: seq<Post>, xs: seq<Post>): seq<Post>
    decreases |xs|
  {
    if |xs| == 0 then kept
    else FirstSeen(if Fresh(xs[0], kept) then kept + [xs[0]] else kept, xs[1..])
  }

  /** Python `xs[:n]` for `n >= 0`, and [] for `n <= 0` on the lists this is used on. */
  function Take(xs: seq<Post>, n: int): (r: seq<Post>)
    ensures |r| <= |xs| && r == xs[..|r|]
    ensures n <= 0 ==> r == []
    ensures |r| == if n <= 0 then 0 else if |xs| < n then |xs| else n
  {
    if n <= 0 then [] else if |xs| <= n then xs else xs[..n]
  }

  lemma {:induction false} FirstSeenExtends(kept: seq<Post>, xs: seq<Post>)
    ensures |kept| <= |FirstSeen(kept, xs)| && FirstSeen(kept, xs)[..|kept|] == kept
    decreases |xs|
  {
    if |xs| > 0 {
      var next := if Fresh(xs[0], kept) then kept + [xs[0]] else kept;
      FirstSeenExtends(next, xs[1..]);
      assert next[..|kept|] == kept;
    }
  }

  lemma {:induction false} FirstSeenAppend(kept: seq<Post>, xs: seq<Post>, ys: seq<Post>)
    ensures FirstSeen(kept, xs + ys) == FirstSeen(FirstSeen(kept, xs), ys)
    decreases |xs|
  {
    if |xs| == 0 {
      assert xs + ys == ys;
    } else {
      assert (xs + ys)[0] == xs[0] && (xs + ys)[1..] == xs[1..] + ys;
      var next := if Fresh(xs[0], kept) then kept + [xs[0]] else kept;
      FirstSeenAppend(next, xs[1..], ys);
    }
  }

  /** First-seen selection keeps URNs non-empty and distinct. */
  lemma {:induction false} FirstSeenDistinct(kept: seq<Post>, xs: seq<Post>)
    requires DistinctUrns(kept)
    ensures DistinctUrns(FirstSeen(kept, xs))
    decreases |xs|
  {
    if |xs| > 0 {
      if Fresh(xs[0], kept) {
        var next := kept + [xs[0]];
        assert DistinctUrns(next) by {
          forall i, j | 0 <= i < j < |next| ensures next[i].urn != next[j].urn {
            if j == |kept| { assert next[i] in kept; }
          }
        }
        FirstSeenDistinct(next, xs[1..]);
      } else {
        FirstSeenDistinct(kept, xs[1..]);
      }
    }
  }

  /** Every selected post comes from `kept` or from `xs`. */
  lemma {:induction false} FirstSeenFrom(kept: seq<Post>, xs: seq<Post>, p: Post)
    requires p in FirstSeen(kept, xs)
    ensures p in kept || p in xs
    decreases |xs|
  {
    if |xs| > 0 {
      var next := if Fresh(xs[0], kept) then kept + [xs[0]] else kept;
      FirstSeenFrom(next, xs[1..], p);
      if p in xs[1..] {
        assert p in xs;
      }
    }
  }

  /** Every post of `xs` with a non-empty URN has its URN represented in the selection. */
  lemma {:induction false} FirstSeenComplete(kept: seq<Post>, xs: seq<Post>, k: nat)
    requires k < |xs| && xs[k].urn.Some? && xs[k].urn.value != []
    ensures exists q :: q in FirstSeen(kept, xs) && q.urn == xs[k].urn
    decreases |xs|
  {
    var next := if Fresh(xs[0], kept) then kept + [xs[0]] else kept;
    if k == 0 {
      var q :| q in next && q.urn == xs[0].urn;
      FirstSeenExtends(next, xs[1..]);
      var i :| 0 <= i < |next| && next[i] == q;
      assert FirstSeen(kept, xs)[i] == q;
    } else {
      FirstSeenComplete(next, xs[1..], k - 1);
    }
  }

  /** What the in-page script returns on the `k`-th round; a round past the supplied ones finds nothing. */
  function Round(rounds: seq<seq<Post>>, k: nat): seq<Post> {
    if k < |rounds| then rounds[k] else []
  }

  /** Everything the first `n` rounds returned, in order. */
  function Extracted(rounds: seq<seq<Post>>, n: nat): seq<Post> {
    if n == 0 then [] else Extracted(rounds, n - 1) + Round(rounds, n - 1)
  }

  /** Lines 85-87: `max_scrolls`, with `//` flooring as in Python (Dafny's `/` agrees for a positive divisor). */
  function MaxScrolls(limit: int): int {
    limit / 3 + 2
  }

  /** The posts `_scrape_posts` returns after `n` rounds: first-seen, truncated to `limit`. */
  function Collected(rounds: seq<seq<Post>>, n: nat, limit: int): seq<Post> {
    Take(FirstSeen([], Extracted(rounds, n)), limit)
  }

  /**
   * One round of lines 90-94: walk the batch, keep fresh posts, and stop as
   * soon as `limit` are kept.
   */
  method AddBatch(posts: seq<Post>, batch: seq<Post>, limit: int) returns (r: seq<Post>)
    requires |posts| < limit
    ensures r == Take(FirstSeen(posts, batch), limit)
  {
    r := posts;
    for j := 0 to |batch|
      invariant r == FirstSeen(posts, batch[..j]) && |r| < limit
    {
      var post := batch[j];
      assert batch[..j + 1] == batch[..j] + [post];
      FirstSeenAppend(posts, batch[..j], [post]);
      if post.urn.Some? && post.urn.value != [] && forall p :: p in r ==> p.urn != post.urn {
        r := r + [post];
        if |r| >= limit {
          FirstSeenAppend(posts, batch[..j + 1], batch[j + 1..]);
          assert batch[..j + 1] + batch[j + 1..] == batch;
          FirstSeenExtends(r, batch[j + 1..]);
          return;
        }
      }
    }
    assert batch[..|batch|] == batch;
  }

  /**
   * `_scrape_posts(limit)`: `rounds[k]` is what the k-th extraction finds.
   * Returns the posts and the number of extraction rounds run.
   */
  method ScrapePosts(rounds: seq<seq<Post>>, limit: int) returns (posts: seq<Post>, extractions: nat)
    ensures posts == Collected(rounds, extractions, limit)
    ensures |posts| <= (if limit <= 0 then 0 else limit)
    ensures limit <= 0 ==> posts == [] && extractions == 0
    ensures limit > 0 ==> extractions <= MaxScrolls(limit)
    ensures |posts| < limit ==> extractions == MaxScrolls(limit)
  {
    posts := [];
    var scrollCount := 0;
    var maxScrolls := limit / 3 + 2;
    extractions := 0;
    while |posts| < limit && scrollCount < maxScrolls
      invariant 0 <= scrollCount && (limit > 0 ==> scrollCount <= maxScrolls && extractions <= maxScrolls)
      invariant posts == Collected(rounds, extractions, limit)
      invariant extractions == scrollCount || (extractions == scrollCount + 1 && |posts| >= limit)
      invariant limit <= 0 ==> extractions == 0
      decreases maxScrolls - scrollCount, limit - |posts|
    {
      assert posts == FirstSeen([], Extracted(rounds, extractions));
      FirstSeenAppend([], Extracted(rounds, extractions), Round(rounds, extractions));
      posts := AddBatch(posts, Round(rounds, extractions), limit);
      extractions := extractions + 1;
      if |posts| < limit {
        scrollCount := scrollCount + 1;
      }
    }
    posts := Take(posts, limit);
  }

  /** The collected posts are at most `limit`, with non-empty distinct URNs, each one extracted. */
  lemma CollectedWellFormed(rounds: seq<seq<Post>>, n: nat, limit: int)
    ensures |Collected(rounds, n, limit)| <= (if limit <= 0 then 0 else limit)
    ensures DistinctUrns(Collected(rounds, n, limit))
    ensures forall p :: p in Collected(rounds, n, limit) ==> p in Extracted(rounds, n)
  {
    var all := FirstSeen([], Extracted(rounds, n));
    FirstSeenDistinct([], Extracted(rounds, n));
    forall p | p in Collected(rounds, n, limit) ensures p in Extracted(rounds, n) {
      FirstSeenFrom([], Extracted(rounds, n), p);
    }
  }

  /**
   * Nothing is missed: when fewer than `limit` posts are collected, every
   * extracted post with a URN is represented by the first one seen with it.
   */
  lemma CollectedComplete(rounds: seq<seq<Post>>, n: nat, limit: int, k: nat)
    requires |Collected(rounds, n, limit)| < limit
    requires k < |Extracted(rounds, n)| && Extracted(rounds, n)[k].urn.Some? && Extracted(rounds, n)[k].urn.value != []
    ensures exists q :: q in Collected(rounds, n, limit) && q.urn == Extracted(rounds, n)[k].urn
  {
    FirstSeenComplete([], Extracted(rounds, n), k);
  }
}
