/**
 * The Selenium-era company scraper, linkedin_scraper/company.py: the text
 * helpers, the choice of the about section, the `dt`/`dd` mapping of
 * `scrape_logged_in` with its `x_off` shift, `CompanySummary.__repr__` and
 * the `is_loaded` polling loop. The element texts the driver reads are
 * inputs.
 */
module LegacyCompany {
  import opened Wrappers
  import opened Text

  /** `__get_text_under_subtitle`: the text without its first line, "" when it has one line. */
  function TextUnderSubtitle(t: string): (r: string)
    ensures r == After(t, "\n")
    ensures !Contains(t, "\n") ==> r == ""
  {
    var lines := Split(t, "\n");
    match Find(t, "\n")
    case None => Join(lines[1..], "\n")
    case Some(i) =>
      assert lines[1..] == Split(t[i + 1..], "\n");
      JoinSplit(t[i + 1..], "\n");
      Join(lines[1..], "\n")
  }

  /** A page `section` element: its text and its `class` attribute. */
  datatype Section = Section(text: string, classes: string)

  const AdBannerClassNames := ["ad-banner-container", "__ad"]

  /** Lines 190-193: the grid is section 4 after a cookie or ad-banner section, else section 3. */
  function SectionIndex(second: Section): (n: nat)
    ensures n == 3 || n == 4
    ensures n == 4 <==>
      Contains(second.text, "Cookie Policy") ||
      exists k :: 0 <= k < |AdBannerClassNames| && Contains(second.classes, AdBannerClassNames[k])
  {
    if Contains(second.text, "Cookie Policy") ||
       exists k :: 0 <= k < |AdBannerClassNames| && Contains(second.classes, AdBannerClassNames[k])
    then 4 else 3
  }

  /** The grid section, or None where indexing the page's sections raises `IndexError`. */
  function AboutGrid(sections: seq<Section>): (r: Option<Section>)
    ensures r.None? <==> |sections| < 2 || SectionIndex(sections[1]) >= |sections|
    ensures r.Some? ==> r.value == sections[SectionIndex(sections[1])]
  {
    if |sections| < 2 then None
    else
      var id := SectionIndex(sections[1]);
      if id < |sections| then Some(sections[id]) else None
  }

  /** An attribute as Python's `format` renders it: None prints as "None". */
  function Shown(v: Option<string>): string {
    match v
    case None => "None"
    case Some(s) => s
  }

  datatype CompanySummary = CompanySummary(linkedin_url: Option<string>, name: Option<string>, followers: Option<string>)
  {
    /** `__repr__`: " name " without followers, " name followers " with them. */
    function Repr(): (r: string)
      ensures |r| >= |Shown(name)| + 2 && r[0] == ' ' && r[|r| - 1] == ' '
      ensures r[1..|Shown(name)| + 1] == Shown(name)
      ensures followers.None? ==> |r| == |Shown(name)| + 2
      ensures followers.Some? ==>
        |r| == |Shown(name)| + |followers.value| + 3 && r[|Shown(name)| + 1] == ' ' &&
        r[|Shown(name)| + 2..|r| - 1] == followers.value
    {
      if followers.None? then " " + Shown(name) + " "
      else " " + Shown(name) + " " + followers.value + " "
    }
  }

  /** The company fields the about grid fills. */
  datatype AboutFields = AboutFields(
    website: Option<string>,
    industry: Option<string>,
    company_size: Option<string>,
    headquarters: Option<string>,
    company_type: Option<string>,
    founded: Option<string>,
    specialties: Option<string>)

  datatype GridField = Website | Industry | CompanySize | Headquarters | CompanyType | Founded | Specialties

  /** The exact English `dt` texts the mapping recognises. */
  function FieldOf(term: string): Option<GridField> {
    if term == "Website" then Some(Website)
    else if term == "Industry" then Some(Industry)
    else if term == "Company size" then Some(CompanySize)
    else if term == "Headquarters" then Some(Headquarters)
    else if term == "Type" then Some(CompanyType)
    else if term == "Founded" then Some(Founded)
    else if term == "Specialties" then Some(Specialties)
    else None
  }

  function Get(f: AboutFields, g: GridField): Option<string> {
    match g
    case Website => f.website
    case Industry => f.industry
    case CompanySize => f.company_size
    case Headquarters => f.headquarters
    case CompanyType => f.company_type
    case Founded => f.founded
    case Specialties => f.specialties
  }

  /** Line 220: the specialties list, one per line instead of comma-separated. */
  function SpecialtiesText(value: string): string {
    Join(Split(Strip(value), ", "), "\n")
  }

  /** For a single-line value, turning the lines back into ", " gives the stripped value. */
  lemma SpecialtiesRoundTrip(value: string)
    requires Lacks(value, '\n')
    ensures Replace(SpecialtiesText(value), "\n", ", ") == Strip(value)
  {
    var v := Strip(value);
    var parts := Split(v, ", ");
    StripKeepsLack(value, '\n');
    assert Split(Join(parts, "\n"), "\n") == parts by {
      forall k | 0 <= k < |parts| ensures Lacks(parts[k], '\n') {
        SplitPiecesLack(v, ", ", '\n', k);
      }
      SplitJoin(parts, '\n');
    }
    JoinSplit(v, ", ");
  }

  /** The value a recognised `dt` stores: the stripped `dd` text, specialties one per line. */
  function Stored(g: GridField, value: string): string {
    if g == Specialties then SpecialtiesText(value) else Strip(value)
  }

  /** The fields with `g` set to `v`. */
  function Put(f: AboutFields, g: GridField, v: string): (r: AboutFields)
    ensures Get(r, g) == Some(v)
    ensures forall h :: h != g ==> Get(r, h) == Get(f, h)
  {
    match g
    case Website => f.(website := Some(v))
    case Industry => f.(industry := Some(v))
    case CompanySize => f.(company_size := Some(v))
    case Headquarters => f.(headquarters := Some(v))
    case CompanyType => f.(company_type := Some(v))
    case Founded => f.(founded := Some(v))
    case Specialties => f.(specialties := Some(v))
  }

  /** What one iteration of the loop of lines 203-220 writes: a recognised term's field and its stored text. */
  function Write(term: string, value: string): Option<(GridField, string)> {
    match FieldOf(term)
    case None => None
    case Some(g) => Some((g, Stored(g, value)))
  }

  /** The fields after a write. */
  function Written(f: AboutFields, w: Option<(GridField, string)>): AboutFields {
    match w
    case None => f
    case Some((g, v)) => Put(f, g, v)
  }

  /** The fields after a list of writes, in order. */
  function WrittenAll(f: AboutFields, ws: seq<Option<(GridField, string)>>): AboutFields
    decreases |ws|
  {
    if |ws| == 0 then f else Written(WrittenAll(f, ws[..|ws| - 1]), ws[|ws| - 1])
  }

  lemma WrittenAllStep(f: AboutFields, ws: seq<Option<(GridField, string)>>, w: Option<(GridField, string)>)
    ensures WrittenAll(f, ws + [w]) == Written(WrittenAll(f, ws), w)
  {
    assert (ws + [w])[..|ws|] == ws;
  }

  /** A write that does not name `g`. */
  predicate Misses(w: Option<(GridField, string)>, g: GridField) {
    w.None? || w.value.0 != g
  }

  /** A field no write names keeps its value. */
  lemma {:induction false} WrittenAllUntouched(f: AboutFields, ws: seq<Option<(GridField, string)>>, g: GridField)
    requires forall j :: 0 <= j < |ws| ==> Misses(ws[j], g)
    ensures Get(WrittenAll(f, ws), g) == Get(f, g)
    decreases |ws|
  {
    if |ws| > 0 {
      WrittenAllUntouched(f, ws[..|ws| - 1], g);
    }
  }

  /** A field holds what the last write naming it stored. */
  lemma {:induction false} WrittenAllLastWins(f: AboutFields, ws: seq<Option<(GridField, string)>>, g: GridField, j: nat)
    requires j < |ws| && ws[j].Some? && ws[j].value.0 == g
    requires forall k :: j < k < |ws| ==> Misses(ws[k], g)
    ensures Get(WrittenAll(f, ws), g) == Some(ws[j].value.1)
    decreases |ws|
  {
    if j < |ws| - 1 {
      WrittenAllLastWins(f, ws[..|ws| - 1], g, j);
    }
  }

  /** The number of `dt`s the loop examines: `min(len(labels), len(values))`. */
  function Attributes(terms: seq<string>, values: seq<string>): (n: nat)
    ensures n <= |terms| && n <= |values|
    ensures n == |terms| || n == |values|
  {
    if |terms| < |values| then |terms| else |values|
  }

  /** The stripped `dt` texts, one per `dt`. */
  function Terms(labels: seq<string>): (r: seq<string>)
    ensures |r| == |labels|
  {
    if |labels| == 0 then [] else Terms(labels[..|labels| - 1]) + [Strip(labels[|labels| - 1])]
  }

  /** Term `k` is the `k`-th `dt` text, stripped. */
  lemma {:induction false} TermAt(labels: seq<string>, k: nat)
    requires k < |labels|
    ensures Terms(labels)[k] == Strip(labels[k])
    decreases |labels|
  {
    if k < |labels| - 1 {
      TermAt(labels[..|labels| - 1], k);
    }
  }

  /**
   * `x_off` at the start of iteration `i`: 1 once a "Company size" term has
   * been seen while there are more `dd`s than `dt`s, else 0.
   */
  function Offset(terms: seq<string>, values: seq<string>, i: nat): (x: nat)
    requires i <= |terms|
    ensures x <= 1
    ensures x == 1 ==> |values| > |terms|
  {
    if i == 0 then 0
    else if terms[i - 1] == "Company size" && |values| > |terms| then 1
    else Offset(terms, values, i - 1)
  }

  /** `x_off` is 1 before row `i` exactly when an earlier term was "Company size" and there are more `dd`s than `dt`s. */
  lemma {:induction false} OffsetMeaning(terms: seq<string>, values: seq<string>, i: nat)
    requires i <= |terms|
    ensures Offset(terms, values, i) == 1 <==>
      exists j :: 0 <= j < i && terms[j] == "Company size" && |values| > |terms|
  {
    if i > 0 {
      OffsetMeaning(terms, values, i - 1);
    }
  }

  /** Every `values[i + x_off]` the loop reads exists. */
  lemma OffsetInBounds(terms: seq<string>, values: seq<string>, i: nat)
    requires i < Attributes(terms, values)
    ensures i + Offset(terms, values, i) < |values|
  {
  }

  /** Iteration `i` sets `x_off` when its term is "Company size" and there are more `dd` than `dt`. */
  lemma OffsetNext(terms: seq<string>, values: seq<string>, i: nat, txt: string, n: nat)
    requires i < |terms| && terms[i] == txt && n == |terms|
    ensures Offset(terms, values, i + 1) ==
      if txt == "Company size" && |values| > n then 1 else Offset(terms, values, i)
  {
  }

  /** The `dd` text iteration `i` reads: `values[i + x_off]`. */
  function ValueAt(terms: seq<string>, values: seq<string>, i: nat): string
    requires i < Attributes(terms, values)
  {
    values[i + Offset(terms, values, i)]
  }

  /** The writes of the first `n` iterations over the stripped terms. */
  function GridWrites(terms: seq<string>, values: seq<string>, n: nat): (ws: seq<Option<(GridField, string)>>)
    requires n <= Attributes(terms, values)
    ensures |ws| == n
    ensures forall i :: 0 <= i < n ==> ws[i] == Write(terms[i], ValueAt(terms, values, i))
  {
    seq(n, i requires 0 <= i < n => Write(terms[i], ValueAt(terms, values, i)))
  }

  /** One more iteration adds its write at the end. */
  lemma GridWritesStep(terms: seq<string>, values: seq<string>, n: nat)
    requires n < Attributes(terms, values)
    ensures GridWrites(terms, values, n + 1) == GridWrites(terms, values, n) + [Write(terms[n], ValueAt(terms, values, n))]
  {
  }

  /** The fields after the first `n` iterations. */
  function GridFields(f: AboutFields, terms: seq<string>, values: seq<string>, n: nat): AboutFields
    requires n <= Attributes(terms, values)
  {
    WrittenAll(f, GridWrites(terms, values, n))
  }

  /** One more iteration applies its write to the fields so far. */
  lemma GridFieldsStep(f: AboutFields, terms: seq<string>, values: seq<string>, n: nat, x: nat, before: AboutFields, after: AboutFields)
    requires n < Attributes(terms, values) && x == Offset(terms, values, n)
    requires before == GridFields(f, terms, values, n)
    requires after == Written(before, Write(terms[n], values[n + x]))
    ensures after == GridFields(f, terms, values, n + 1)
  {
    GridWritesStep(terms, values, n);
    WrittenAllStep(f, GridWrites(terms, values, n), Write(terms[n], ValueAt(terms, values, n)));
  }

  /** A field no examined `dt` names keeps its value: unknown terms change nothing. */
  lemma GridUntouched(f: AboutFields, terms: seq<string>, values: seq<string>, n: nat, g: GridField)
    requires n <= Attributes(terms, values)
    requires forall j :: 0 <= j < n ==> FieldOf(terms[j]) != Some(g)
    ensures Get(GridFields(f, terms, values, n), g) == Get(f, g)
  {
    WrittenAllUntouched(f, GridWrites(terms, values, n), g);
  }

  /** Last wins: a field holds the value of the last examined `dt` naming it. */
  lemma GridLastWins(f: AboutFields, terms: seq<string>, values: seq<string>, n: nat, g: GridField, j: nat)
    requires j < n <= Attributes(terms, values)
    requires FieldOf(terms[j]) == Some(g)
    requires forall k :: j < k < n ==> FieldOf(terms[k]) != Some(g)
    ensures Get(GridFields(f, terms, values, n), g) == Some(Stored(g, ValueAt(terms, values, j)))
  {
    WrittenAllLastWins(f, GridWrites(terms, values, n), g, j);
  }

  /** The company record whose fields `scrape_logged_in` assigns one by one. */
  class Company {
    var linkedin_url: string
    var name: Option<string>
    var about_us: Option<string>
    var website: Option<string>
    var industry: Option<string>
    var company_size: Option<string>
    var headquarters: Option<string>
    var company_type: Option<string>
    var founded: Option<string>
    var specialties: Option<string>

    /** The record before scraping: the URL, every other field None. */
    constructor(url: string)
      ensures linkedin_url == url && name.None? && about_us.None?
      ensures Fields() == AboutFields(None, None, None, None, None, None, None)
    {
      linkedin_url := url;
      name, about_us := None, None;
      website, industry, company_size, headquarters := None, None, None, None;
      company_type, founded, specialties := None, None, None;
    }

    function Fields(): AboutFields
      reads this
    {
      AboutFields(website, industry, company_size, headquarters, company_type, founded, specialties)
    }

    /** Lines 195-197: the first paragraph of the grid, stripped, becomes the description. */
    method ReadDescription(paragraphs: seq<string>)
      modifies this`about_us
      ensures |paragraphs| > 0 ==> about_us == Some(Strip(paragraphs[0]))
      ensures |paragraphs| == 0 ==> about_us == old(about_us)
    {
      if |paragraphs| > 0 {
        about_us := Some(Strip(paragraphs[0]));
      }
    }

    /** One `dt`/`dd` pair of lines 203-220: a recognised term overwrites its field. */
    method Assign(term: string, value: string)
      modifies this`website, this`industry, this`company_size, this`headquarters, this`company_type, this`founded, this`specialties
      ensures Fields() == Written(old(Fields()), Write(term, value))
    {
      match FieldOf(term)
      case None =>
      case Some(Website) => website := Some(Strip(value));
      case Some(Industry) => industry := Some(Strip(value));
      case Some(CompanySize) => company_size := Some(Strip(value));
      case Some(Headquarters) => headquarters := Some(Strip(value));
      case Some(CompanyType) => company_type := Some(Strip(value));
      case Some(Founded) => founded := Some(Strip(value));
      case Some(Specialties) => specialties := Some(SpecialtiesText(value));
    }

    /** Lines 199-220: the `dt`/`dd` loop with its `x_off` shift. */
    method ReadGrid(labels: seq<string>, values: seq<string>)
      modifies this`website, this`industry, this`company_size, this`headquarters, this`company_type, this`founded, this`specialties
      ensures Fields() == GridFields(old(Fields()), Terms(labels), values, Attributes(labels, values))
    {
      ghost var terms, start := Terms(labels), Fields();
      var numAttributes := if |labels| < |values| then |labels| else |values|;
      var xOff := 0;
      for i := 0 to numAttributes
        invariant xOff == Offset(terms, values, i)
        invariant Fields() == GridFields(start, terms, values, i)
      {
        var txt := Strip(labels[i]);
        TermAt(labels, i);
        OffsetInBounds(terms, values, i);
        var value := values[i + xOff];
        ghost var before := Fields();
        Assign(txt, value);
        GridFieldsStep(start, terms, values, i, xOff, before, Fields());
        OffsetNext(terms, values, i, txt, |labels|);
        if txt == "Company size" && |values| > |labels| {
          xOff := 1;
        }
      }
    }
  }

  /**
   * `is_loaded(previous_results)`: `counts[k]` is the number of list items
   * seen at the k-th read (the first read, then one per retry). It returns
   * the verdict and the number of one-second sleeps taken.
   */
  method IsLoaded(previous: nat, counts: seq<nat>) returns (loaded: bool, sleeps: nat)
    requires |counts| >= 7
    ensures sleeps <= 6
    ensures loaded <==> exists k :: 0 <= k <= 5 && counts[k] != previous
    ensures loaded ==> counts[sleeps] != previous && forall k :: 0 <= k < sleeps ==> counts[k] == previous
    ensures !loaded ==> sleeps == 6
  {
    var loop := 0;
    var results := counts[0];
    while results == previous && loop <= 5
      invariant 0 <= loop <= 6
      invariant results == counts[loop]
      invariant forall k :: 0 <= k < loop ==> counts[k] == previous
      decreases 6 - loop
    {
      loop := loop + 1;
      results := counts[loop];
    }
    loaded := loop <= 5;
    sleeps := loop;
  }
}
