/**
 * The search settings, the defaults a START request falls back on, the
 * LinkedIn search URL built from them, and the "are we on the search page"
 * decisions taken before the run loop starts.
 */
module Search {
  import opened Wrappers
  import Text
  import Config

  /** `linkedInAutoApplyAgent.settings`. */
  datatype Settings = Settings(jobTitle: string, jobType: string, location: string, easyApplyOnly: bool)

  /** The `settings` object of a START request; a missing property is `None`. */
  datatype RequestSettings = RequestSettings(jobTitle: Option<string>, jobType: Option<string>, location: Option<string>)

  const DefaultJobTitle := "Software Engineer"
  const DefaultJobType := "none"
  const DefaultLocation := "San Francisco Bay Area"

  /** Every field set and easy-apply forced on: what START and the initial record both produce. */
  predicate Complete(s: Settings)
  {
    s.easyApplyOnly && s.jobTitle != "" && s.jobType != "" && s.location != ""
  }

  /** JavaScript `v || fallback` for a possibly missing string: `undefined` is falsy, and a string as `Truthy` says. */
  function OrElse(v: Option<string>, fallback: string): string
  {
    if v.Some? && Truthy(JsString(v.value)) then v.value else fallback
  }

  /** The settings a START request installs: each missing or empty field replaced by its default. */
  function FromRequest(req: RequestSettings): (s: Settings)
    ensures Complete(s)
    ensures req.jobTitle.Some? && req.jobTitle.value != "" ==> s.jobTitle == req.jobTitle.value
    ensures req.jobTitle.None? || req.jobTitle.value == "" ==> s.jobTitle == DefaultJobTitle
    ensures req.jobType.Some? && req.jobType.value != "" ==> s.jobType == req.jobType.value
    ensures req.jobType.None? || req.jobType.value == "" ==> s.jobType == DefaultJobType
    ensures req.location.Some? && req.location.value != "" ==> s.location == req.location.value
    ensures req.location.None? || req.location.value == "" ==> s.location == DefaultLocation
  {
    Settings(OrElse(req.jobTitle, DefaultJobTitle),
             OrElse(req.jobType, DefaultJobType),
             OrElse(req.location, DefaultLocation),
             true)
  }

  /** A START whose request carries every field of complete settings installs exactly those settings. */
  lemma StartKeepsCompleteSettings(s: Settings)
    requires Complete(s)
    ensures FromRequest(RequestSettings(Some(s.jobTitle), Some(s.jobType), Some(s.location))) == s
  {
  }

  /** A START whose fields are all missing, or all empty, installs the default settings. */
  lemma StartWithoutFieldsInstallsDefaults(title: Option<string>, jobType: Option<string>, location: Option<string>)
    requires title.None? || title == Some("")
    requires jobType.None? || jobType == Some("")
    requires location.None? || location == Some("")
    ensures FromRequest(RequestSettings(title, jobType, location))
      == Settings(DefaultJobTitle, DefaultJobType, DefaultLocation, true)
  {
  }

  /** The fallbacks hard-coded in the START handler are the values of the default record. */
  lemma StartFallbacksAreConfigDefaults()
    ensures Config.Get(Config.Defaults(), "jobTitle") == Some(Config.Str(DefaultJobTitle))
    ensures Config.Get(Config.Defaults(), "jobType") == Some(Config.Str(DefaultJobType))
    ensures Config.Get(Config.Defaults(), "location") == Some(Config.Str(DefaultLocation))
  {
  }

  // ----- the search URL -----

  const JobsPageMarker := "linkedin.com/jobs/search"
  /** "https://www.linkedin.com/jobs/search/". */
  const BaseUrl := "https://www." + JobsPageMarker + "/"

  /** A URL as its base and its query parameters, in order; percent-encoding is not modelled. */
  datatype SearchUrl = SearchUrl(base: string, query: seq<(string, string)>)

  /** True exactly when the job-type filter `f_WT` is added: a set job type other than "none". */
  predicate FiltersJobType(s: Settings)
  {
    s.jobType != "" && s.jobType != "none"
  }

  /** `buildSearchUrl(settings)`. */
  function BuildSearchUrl(s: Settings): (u: SearchUrl)
    ensures u.base == BaseUrl
    ensures |u.query| == if FiltersJobType(s) then 5 else 4
    ensures u.query[..4] == [("keywords", s.jobTitle), ("location", s.location), ("f_AL", "true"), ("sortBy", "R")]
    ensures FiltersJobType(s) ==> u.query[4] == ("f_WT", s.jobType)
  {
    var params := [("keywords", s.jobTitle), ("location", s.location), ("f_AL", "true"), ("sortBy", "R")];
    SearchUrl(BaseUrl, if FiltersJobType(s) then params + [("f_WT", s.jobType)] else params)
  }

  /** `params.get(k)`: the first value stored under `k`. */
  function Param(q: seq<(string, string)>, k: string): Option<string>
  {
    if q == [] then None
    else if q[0].0 == k then Some(q[0].1)
    else Param(q[1..], k)
  }

  /** `params.toString()`, without percent-encoding. */
  function QueryString(q: seq<(string, string)>): string
  {
    if q == [] then ""
    else if |q| == 1 then q[0].0 + "=" + q[0].1
    else q[0].0 + "=" + q[0].1 + "&" + QueryString(q[1..])
  }

  /** The full URL text `${baseUrl}?${params}`. */
  function Href(u: SearchUrl): string
  {
    u.base + "?" + QueryString(u.query)
  }

  /** Reading the built query back gives every setting it encodes, and `f_WT` only when filtering. */
  lemma SearchUrlParams(s: Settings)
    ensures Param(BuildSearchUrl(s).query, "keywords") == Some(s.jobTitle)
    ensures Param(BuildSearchUrl(s).query, "location") == Some(s.location)
    ensures Param(BuildSearchUrl(s).query, "f_AL") == Some("true")
    ensures Param(BuildSearchUrl(s).query, "sortBy") == Some("R")
    ensures Param(BuildSearchUrl(s).query, "f_WT") == if FiltersJobType(s) then Some(s.jobType) else None
  {
    var q := BuildSearchUrl(s).query;
    var q1, q2, q3, q4 := q[1..], q[2..], q[3..], q[4..];
    assert q1[1..] == q2 && q2[1..] == q3 && q3[1..] == q4;
    assert "f_AL"[2] != "f_WT"[2] && "f_AL"[0] != "sortBy"[0];
    assert Param(q, "f_AL") == Param(q1, "f_AL") == Param(q2, "f_AL");
    assert Param(q, "sortBy") == Param(q1, "sortBy") == Param(q2, "sortBy") == Param(q3, "sortBy");
    assert Param(q, "f_WT") == Param(q1, "f_WT") == Param(q2, "f_WT") == Param(q3, "f_WT") == Param(q4, "f_WT");
  }

  /** `isOnJobsPage()` for the current address `href`. */
  predicate IsOnJobsPage(href: string)
  {
    Text.Contains(href, JobsPageMarker)
  }

  /** The URL built for any settings is itself a jobs-search page. */
  lemma BuiltUrlIsJobsPage(s: Settings)
    ensures IsOnJobsPage(Href(BuildSearchUrl(s)))
  {
    var u := BuildSearchUrl(s);
    var href := Href(u);
    assert href == BaseUrl + ("?" + QueryString(u.query));
    assert href[12..36] == BaseUrl[12..36] == JobsPageMarker;
    Text.OccurrenceIsContained(href, JobsPageMarker, 12);
  }

  /** A START sent from the popup carries no job type, so its search never filters on it. */
  lemma PopupStartHasNoJobTypeFilter(title: Option<string>, location: Option<string>)
    ensures !FiltersJobType(FromRequest(RequestSettings(title, None, location)))
    ensures |BuildSearchUrl(FromRequest(RequestSettings(title, None, location))).query| == 4
  {
  }

  // ----- navigateToJobSearch -----

  /** The two kinds of JavaScript value the navigation test compares. */
  datatype JsValue = JsBool(b: bool) | JsString(s: string)

  /** JavaScript truthiness of a boolean or a string. */
  predicate Truthy(v: JsValue)
  {
    match v
    case JsBool(b) => b
    case JsString(s) => s != ""
  }

  /** `===`: equal only when of the same type and the same value. */
  predicate StrictEquals(a: JsValue, b: JsValue)
  {
    match (a, b)
    case (JsBool(x), JsBool(y)) => x == y
    case (JsString(x), JsString(y)) => x == y
    case _ => false
  }

  /**
   * `navigateToJobSearch()`'s answer for the address `href` whose serialized
   * query is `currentQuery`: true means "navigation needed". The query test
   * is written `!current === target`, which negates the current query into a
   * boolean and compares it with a string, so it never holds and the answer
   * depends on the address alone. The navigation itself is commented out in
   * the source, so the function has no effect beyond its answer.
   */
  function NavigateToJobSearch(href: string, currentQuery: string, s: Settings): (navigate: bool)
    ensures navigate == !IsOnJobsPage(href)
  {
    var target := QueryString(BuildSearchUrl(s).query);
    !IsOnJobsPage(href) || StrictEquals(JsBool(!Truthy(JsString(currentQuery))), JsString(target))
  }
}
