/**
 * The Pydantic records of linkedin_scraper/models: their fields and
 * defaults, the URL validators of `Person`, `Company` and `Job`, the
 * derived `company` / `job_title` properties, the post preview of
 * `Post.__repr__`, and the flat dictionaries `model_dump` gives for a
 * `Job` and a `Post` (`to_dict`), with the reading that gets them back.
 */
module Models {
  import opened Wrappers
  import opened Text
  import Conversion

  datatype Contact = Contact(name: string, occupation: Option<string>, url: Option<string>)

  datatype Experience = Experience(
    position_title: Option<string>,
    institution_name: Option<string>,
    linkedin_url: Option<string>,
    from_date: Option<string>,
    to_date: Option<string>,
    duration: Option<string>,
    location: Option<string>,
    description: Option<string>)

  datatype Education = Education(
    institution_name: Option<string>,
    degree: Option<string>,
    linkedin_url: Option<string>,
    from_date: Option<string>,
    to_date: Option<string>,
    description: Option<string>)

  datatype Accomplishment = Accomplishment(category: string, title: string)

  datatype Person = Person(
    linkedin_url: string,
    name: Option<string>,
    location: Option<string>,
    about: Option<string>,
    open_to_work: bool,
    experiences: seq<Experience>,
    educations: seq<Education>,
    interests: seq<string>,
    accomplishments: seq<Accomplishment>,
    contacts: seq<Contact>)
  {
    /** The `company` property: the most recent employer, if any. */
    function Company(): (r: Option<string>)
      ensures |experiences| == 0 ==> r.None?
      ensures |experiences| > 0 ==> r == experiences[0].institution_name
    {
      if |experiences| > 0 then experiences[0].institution_name else None
    }

    /** The `job_title` property: the most recent position, if any. */
    function JobTitle(): (r: Option<string>)
      ensures |experiences| == 0 ==> r.None?
      ensures |experiences| > 0 ==> r == experiences[0].position_title
    {
      if |experiences| > 0 then experiences[0].position_title else None
    }
  }

  datatype CompanySummary = CompanySummary(linkedin_url: Option<string>, name: Option<string>, followers: Option<string>)

  datatype Employee = Employee(name: string, designation: Option<string>, linkedin_url: Option<string>)

  datatype Company = Company(
    linkedin_url: string,
    name: Option<string>,
    about_us: Option<string>,
    website: Option<string>,
    phone: Option<string>,
    headquarters: Option<string>,
    founded: Option<string>,
    industry: Option<string>,
    company_type: Option<string>,
    company_size: Option<string>,
    specialties: Option<string>,
    headcount: Option<int>,
    showcase_pages: seq<CompanySummary>,
    affiliated_companies: seq<CompanySummary>,
    employees: seq<Employee>)
  {
    /** The employee count `__repr__` reports: `len(employees) if employees else 0`. */
    function EmployeeCount(): (n: nat)
      ensures n == |employees|
    {
      if |employees| > 0 then |employees| else 0
    }
  }

  datatype Job = Job(
    linkedin_url: string,
    job_title: Option<string>,
    company: Option<string>,
    company_linkedin_url: Option<string>,
    location: Option<string>,
    posted_date: Option<string>,
    applicant_count: Option<string>,
    job_description: Option<string>,
    benefits: Option<string>)

  datatype Post = Post(
    linkedin_url: Option<string>,
    urn: Option<string>,
    text: Option<string>,
    posted_date: Option<string>,
    reactions_count: Option<int>,
    comments_count: Option<int>,
    reposts_count: Option<int>,
    image_urls: seq<string>,
    video_url: Option<string>,
    article_url: Option<string>)

  /** The outcome of constructing a validated record: the record, or the `ValueError` message. */
  datatype Checked<T> = Accepted(value: T) | Rejected(message: string)

  const PersonMarker := "linkedin.com/in/"
  const CompanyMarker := "linkedin.com/company/"
  const JobMarker := "linkedin.com/jobs"

  /** A field validator: the URL is accepted unchanged when it contains `marker`. */
  function ValidateUrl(v: string, marker: string, message: string): (r: Checked<string>)
    ensures r.Accepted? <==> Contains(v, marker)
    ensures r.Accepted? ==> r.value == v
    ensures r.Rejected? ==> r.message == message
  {
    if Contains(v, marker) then Accepted(v) else Rejected(message)
  }

  /** `Person(...)`: the record is built only when its URL passes `validate_linkedin_url`. */
  function NewPerson(p: Person): (r: Checked<Person>)
    ensures r.Accepted? <==> Contains(p.linkedin_url, PersonMarker)
    ensures r.Accepted? ==> r.value == p
  {
    match ValidateUrl(p.linkedin_url, PersonMarker, "Must be a valid LinkedIn profile URL (contains /in/)")
    case Accepted(_) => Accepted(p)
    case Rejected(m) => Rejected(m)
  }

  function NewCompany(c: Company): (r: Checked<Company>)
    ensures r.Accepted? <==> Contains(c.linkedin_url, CompanyMarker)
    ensures r.Accepted? ==> r.value == c
  {
    match ValidateUrl(c.linkedin_url, CompanyMarker, "Must be a valid LinkedIn company URL (contains /company/)")
    case Accepted(_) => Accepted(c)
    case Rejected(m) => Rejected(m)
  }

  function NewJob(j: Job): (r: Checked<Job>)
    ensures r.Accepted? <==> Contains(j.linkedin_url, JobMarker)
    ensures r.Accepted? ==> r.value == j
  {
    match ValidateUrl(j.linkedin_url, JobMarker, "Must be a valid LinkedIn job URL (contains /jobs)")
    case Accepted(_) => Accepted(j)
    case Rejected(m) => Rejected(m)
  }

  /** The records built from a URL alone, every other field at its default. */
  function DefaultPerson(url: string): Person {
    Person(url, None, None, None, false, [], [], [], [], [])
  }

  function DefaultCompany(url: string): Company {
    Company(url, None, None, None, None, None, None, None, None, None, None, None, [], [], [])
  }

  function DefaultJob(url: string): Job {
    Job(url, None, None, None, None, None, None, None, None)
  }

  function DefaultPost(): Post {
    Post(None, None, None, None, None, None, None, [], None, None)
  }

  /** A default person is accepted with its URL, has no derived company or title, and every list empty. */
  lemma DefaultPersonIsEmpty(url: string)
    requires Contains(url, PersonMarker)
    ensures NewPerson(DefaultPerson(url)) == Accepted(DefaultPerson(url))
    ensures DefaultPerson(url).Company().None? && DefaultPerson(url).JobTitle().None?
    ensures !DefaultPerson(url).open_to_work
    ensures var p := DefaultPerson(url);
      p.name.None? && p.location.None? && p.about.None? &&
      p.experiences == [] && p.educations == [] && p.interests == [] && p.accomplishments == [] && p.contacts == []
  {
  }

  /** A default company is accepted with its URL, every overview field None and the three lists empty. */
  lemma DefaultCompanyIsEmpty(url: string)
    requires Contains(url, CompanyMarker)
    ensures NewCompany(DefaultCompany(url)) == Accepted(DefaultCompany(url))
    ensures var c := DefaultCompany(url);
      c.linkedin_url == url && c.name.None? && c.about_us.None? && c.website.None? && c.phone.None? &&
      c.headquarters.None? && c.founded.None? && c.industry.None? && c.company_type.None? &&
      c.company_size.None? && c.specialties.None? && c.headcount.None? &&
      c.showcase_pages == [] && c.affiliated_companies == [] && c.EmployeeCount() == 0
  {
  }

  /** A default job is accepted with its URL and its eight optional fields None. */
  lemma DefaultJobIsEmpty(url: string)
    requires Contains(url, JobMarker)
    ensures NewJob(DefaultJob(url)) == Accepted(DefaultJob(url))
    ensures forall k :: 1 <= k < |JobKeys| ==> JobDict(DefaultJob(url))[k].1 == Conversion.VNone
  {
  }

  /** A post needs no field at all: the default has every optional field None and no images. */
  lemma DefaultPostIsEmpty()
    ensures forall k :: 0 <= k < |PostKeys| && PostKeys[k] != "image_urls" ==> PostDict(DefaultPost())[k].1 == Conversion.VNone
    ensures PostDict(DefaultPost())[7].1 == Conversion.VList([])
  {
  }

  /** The job marker has no trailing slash: any page under `linkedin.com/jobs...` passes, a short URL cannot. */
  lemma JobMarkerIsPlainSubstring(prefix: string, suffix: string, u: string)
    ensures NewJob(DefaultJob(prefix + JobMarker + suffix)).Accepted?
    ensures |u| < |JobMarker| ==> NewJob(DefaultJob(u)).Rejected?
  {
    var w := prefix + JobMarker + suffix;
    assert w[|prefix|..|prefix| + |JobMarker|] == JobMarker;
    assert OccursAt(w, JobMarker, |prefix|);
  }

  /** The text `Post.__repr__` shows: the first 80 characters and "..." when longer than 80. */
  function Preview(text: Option<string>): (r: Option<string>)
    ensures r.None? <==> text.None?
    ensures text.Some? && |text.value| <= 80 ==> r == text
    ensures text.Some? && |text.value| > 80 ==>
      |r.value| == 83 && r.value[..80] == text.value[..80] && r.value[80..] == "..."
  {
    if text.Some? && |text.value| > 80 then Some(text.value[..80] + "...") else text
  }

  /** The preview never exceeds 83 characters, and always starts with the text's own opening. */
  lemma PreviewBounded(text: string)
    ensures |Preview(Some(text)).value| <= 83
    ensures var n := if |text| < 80 then |text| else 80;
      Preview(Some(text)).value[..n] == text[..n]
  {
  }
  // ---------------------------------------------------------------------
  // to_dict of the flat records
  // ---------------------------------------------------------------------

  function TextValue(o: Option<string>): Conversion.Value {
    if o.Some? then Conversion.VStr(o.value) else Conversion.VNone
  }

  function IntValue(o: Option<int>): Conversion.Value {
    if o.Some? then Conversion.VInt(o.value) else Conversion.VNone
  }

  /** A dict value read back as an optional string: None for anything that is not a string. */
  function ReadText(v: Conversion.Value): (r: Option<string>)
    ensures r.Some? <==> v.VStr?
  {
    if v.VStr? then Some(v.s) else None
  }

  function ReadInt(v: Conversion.Value): (r: Option<int>)
    ensures r.Some? <==> v.VInt?
  {
    if v.VInt? then Some(v.i) else None
  }

  const JobKeys := ["linkedin_url", "job_title", "company", "company_linkedin_url", "location",
                    "posted_date", "applicant_count", "job_description", "benefits"]

  /** `Job.to_dict()`: one entry per field, keyed by the field's name, in declaration order. */
  function JobDict(j: Job): (r: seq<(string, Conversion.Value)>)
    ensures |r| == |JobKeys| && forall k :: 0 <= k < |r| ==> r[k].0 == JobKeys[k]
  {
    [("linkedin_url", Conversion.VStr(j.linkedin_url)), ("job_title", TextValue(j.job_title)),
     ("company", TextValue(j.company)), ("company_linkedin_url", TextValue(j.company_linkedin_url)),
     ("location", TextValue(j.location)), ("posted_date", TextValue(j.posted_date)),
     ("applicant_count", TextValue(j.applicant_count)), ("job_description", TextValue(j.job_description)),
     ("benefits", TextValue(j.benefits))]
  }

  /** Reading a job back from its dict, positionally; None when the shape is wrong. */
  function JobOfDict(d: seq<(string, Conversion.Value)>): Option<Job> {
    if |d| != |JobKeys| || !d[0].1.VStr? then None
    else Some(Job(d[0].1.s, ReadText(d[1].1), ReadText(d[2].1), ReadText(d[3].1), ReadText(d[4].1),
                  ReadText(d[5].1), ReadText(d[6].1), ReadText(d[7].1), ReadText(d[8].1)))
  }

  /** The dict of a job carries every field with its value: reading it back gives the same job. */
  lemma JobDictRoundTrip(j: Job)
    ensures JobOfDict(JobDict(j)) == Some(j)
    ensures JobDict(j)[1].1 == TextValue(j.job_title) && JobDict(j)[2].1 == TextValue(j.company)
  {
  }

  const PostKeys := ["linkedin_url", "urn", "text", "posted_date", "reactions_count", "comments_count",
                     "reposts_count", "image_urls", "video_url", "article_url"]

  function StringValues(xs: seq<string>): (r: seq<Conversion.Value>)
    ensures |r| == |xs| && forall k :: 0 <= k < |xs| ==> r[k] == Conversion.VStr(xs[k])
  {
    if |xs| == 0 then [] else [Conversion.VStr(xs[0])] + StringValues(xs[1..])
  }

  /** A list value read back as strings; None when some item is not a string. */
  function ReadStrings(vs: seq<Conversion.Value>): Option<seq<string>> {
    if |vs| == 0 then Some([])
    else if !vs[0].VStr? then None
    else
      match ReadStrings(vs[1..])
      case None => None
      case Some(rest) => Some([vs[0].s] + rest)
  }

  lemma {:induction false} StringsRoundTrip(xs: seq<string>)
    ensures ReadStrings(StringValues(xs)) == Some(xs)
  {
    if |xs| > 0 {
      StringsRoundTrip(xs[1..]);
      assert StringValues(xs)[1..] == StringValues(xs[1..]);
      assert [xs[0]] + xs[1..] == xs;
    }
  }

  /** `Post.to_dict()`: every field keyed by its name, `image_urls` as a list of strings. */
  function PostDict(p: Post): (r: seq<(string, Conversion.Value)>)
    ensures |r| == |PostKeys| && forall k :: 0 <= k < |r| ==> r[k].0 == PostKeys[k]
  {
    [("linkedin_url", TextValue(p.linkedin_url)), ("urn", TextValue(p.urn)), ("text", TextValue(p.text)),
     ("posted_date", TextValue(p.posted_date)), ("reactions_count", IntValue(p.reactions_count)),
     ("comments_count", IntValue(p.comments_count)), ("reposts_count", IntValue(p.reposts_count)),
     ("image_urls", Conversion.VList(StringValues(p.image_urls))),
     ("video_url", TextValue(p.video_url)), ("article_url", TextValue(p.article_url))]
  }

  function PostOfDict(d: seq<(string, Conversion.Value)>): Option<Post> {
    if |d| != |PostKeys| || !d[7].1.VList? then None
    else
      match ReadStrings(d[7].1.items)
      case None => None
      case Some(images) =>
        Some(Post(ReadText(d[0].1), ReadText(d[1].1), ReadText(d[2].1), ReadText(d[3].1), ReadInt(d[4].1),
                  ReadInt(d[5].1), ReadInt(d[6].1), images, ReadText(d[8].1), ReadText(d[9].1)))
  }

  /** The dict of a post carries every field with its value: reading it back gives the same post. */
  lemma PostDictRoundTrip(p: Post)
    ensures PostOfDict(PostDict(p)) == Some(p)
  {
    StringsRoundTrip(p.image_urls);
  }
}
