/**
 * `build_professional_snapshot`: the search, one scrape per profile URL, the GitHub lookup,
 * the portfolio rule over all records, and the table rows. Every outside reply is part of
 * an abstract `World`.
 */
module Assembly {
  import opened Wrappers
  import opened Text
  import opened Fetch
  import opened Links
  import opened Search
  import opened Scrape
  import opened GitHub
  import opened Portfolio

  /** The replies the snapshot's requests would get. */
  datatype World = World(
    duckDuckGo: Fetched<seq<string>>,
    bing: Fetched<seq<string>>,
    peopleSearch: Fetched<seq<string>>,
    linkedInReply: string -> Fetched<()>,
    parse: string -> ProfileDom,
    githubSearch: Fetched<JsonBody<SearchJson>>,
    githubUser: string -> Fetched<JsonBody<UserJson>>,
    githubRepos: string -> Fetched<JsonBody<ReposJson>>)

  /** An element of `results`: a scraped profile, or the people-search record. */
  datatype Entry = Scraped(profile: Profile) | PeopleSearch(links: seq<string>)

  /** A `profile_url` value: one URL, or the people-search link list. */
  datatype ProfileRef = Url(url: string) | UrlList(urls: seq<string>)

  datatype Snapshot = Snapshot(
    queryName: string,
    linkedinProfilesFound: seq<ProfileRef>,
    linkedinRaw: seq<Entry>,
    github: Option<GitHubInfo>,
    portfolio: Option<string>)

  /** A row of the snapshot table. */
  datatype Row = Row(source: string, profileUrl: Option<ProfileRef>, fullName: Option<string>,
                     title: Option<string>, jobTitle: Option<string>, talksAbout: Option<string>,
                     error: Option<string>)

  const GitHubMaxRepos := 5

  /** What `scrape_linkedin_public(url)` returns in the world `w`. */
  function ScrapeOf(url: string, w: World): Profile {
    var reply := w.linkedInReply(url);
    if !Ok(reply) then Failed(url, RequestFailed)
    else if IsCaptchaPageText(reply.text) then Failed(url, CaptchaError)
    else Extract(url, w.parse(reply.text))
  }

  /** The `profile_url` of a record. */
  function RefOf(e: Entry): ProfileRef {
    match e
    case Scraped(p) => Url(p.profileUrl)
    case PeopleSearch(links) => UrlList(links)
  }

  /** The table row of a record. */
  function RowOf(e: Entry): Row {
    match e
    case Scraped(p) => Row("linkedin_public", Some(Url(p.profileUrl)), p.fullName, p.title, p.jobTitle, p.talksAbout, p.error)
    case PeopleSearch(links) => Row("people_search", Some(UrlList(links)), None, None, None, None, Some("linkedin_not_found"))
  }

  /** The table row of the GitHub profile. */
  function GitHubRow(g: GitHubInfo): Row {
    Row("github", if g.profileUrl.Some? then Some(Url(g.profileUrl.value)) else None, g.name, None, None, g.bio, None)
  }

  /** A record as the portfolio rule reads it. */
  function SourceOfEntry(e: Entry): Source {
    match e
    case Scraped(p) => Source(None, p.talksAbout, p.title, None, p.fullName)
    case PeopleSearch(_) => Source(None, None, None, None, None)
  }

  /** The GitHub profile as the portfolio rule reads it: it has "blog" and "bio", but no "full_name". */
  function SourceOfGitHub(g: GitHubInfo): Source {
    Source(g.blog, None, None, g.bio, None)
  }

  /** `[github_profile] + results if github_profile else results`, as sources. */
  function Sources(github: Option<GitHubInfo>, results: seq<Entry>): (r: seq<Source>)
    ensures |r| == |results| + (if github.Some? then 1 else 0)
  {
    var rs := seq(|results|, i requires 0 <= i < |results| => SourceOfEntry(results[i]));
    if github.Some? then [SourceOfGitHub(github.value)] + rs else rs
  }

  /** The GitHub candidate: a truthy hint, otherwise what the name search gives (it may raise). */
  function Candidate(hint: Option<string>, w: World): Outcome<Option<string>> {
    if Truthy(hint) then Returned(hint) else FindGitHubByName(w.githubSearch)
  }

  /**
   * The GitHub step: the name search's exception goes through; otherwise the profile kept
   * is that of a truthy candidate whose fetch gave no error.
   */
  function GitHubLookup(hint: Option<string>, w: World): Outcome<Option<GitHubInfo>> {
    match Candidate(hint, w)
    case Raised(m) => Raised(m)
    case Returned(c) =>
      if Truthy(c) then
        match FetchGitHubProfile(c.value, GitHubMaxRepos, w.githubUser(c.value), w.githubRepos(c.value))
        case UserInfo(info) => Returned(Some(info))
        case UserError(_) => Returned(None)
      else Returned(None)
  }

  /** The scrape loop: one record per URL, in order. */
  method ScrapeAll(urls: seq<string>, w: World) returns (results: seq<Entry>)
    ensures |results| == |urls|
    ensures forall i :: 0 <= i < |urls| ==> results[i] == Scraped(ScrapeOf(urls[i], w))
  {
    results := [];
    for i := 0 to |urls|
      invariant |results| == i
      invariant forall j :: 0 <= j < i ==> results[j] == Scraped(ScrapeOf(urls[j], w))
    {
      var res := ScrapeLinkedInPublic(urls[i], None, w.linkedInReply(urls[i]), w.parse);
      results := results + [Scraped(res)];
    }
  }

  /** The row loop: one row per record, then the GitHub row when there is a profile. */
  method TableRows(results: seq<Entry>, github: Option<GitHubInfo>) returns (rows: seq<Row>)
    ensures |rows| == |results| + (if github.Some? then 1 else 0)
    ensures forall i :: 0 <= i < |results| ==> rows[i] == RowOf(results[i])
    ensures github.Some? ==> rows[|results|] == GitHubRow(github.value)
  {
    rows := [];
    for i := 0 to |results|
      invariant |rows| == i
      invariant forall j :: 0 <= j < i ==> rows[j] == RowOf(results[j])
    {
      rows := rows + [RowOf(results[i])];
    }
    if github.Some? {
      rows := rows + [GitHubRow(github.value)];
    }
  }

  /**
   * `build_professional_snapshot`: the snapshot and its table, or the exception the GitHub
   * name search raised. The search never comes back empty, so the people-search record is
   * never added and every record is a scraped profile; the GitHub profile is the lookup's,
   * and the portfolio is chosen over the GitHub profile first and then the records.
   */
  method BuildProfessionalSnapshot(name: string, useSearch: bool, maxSearchResults: int,
                                   githubHint: Option<string>, w: World)
    returns (r: Outcome<(Snapshot, seq<Row>)>)
    ensures r.Raised? <==> GitHubLookup(githubHint, w).Raised?
    ensures r.Raised? ==> r.message == GitHubLookup(githubHint, w).message
    ensures r.Returned? ==> var snapshot := r.value.0;
      && snapshot.queryName == name
      && snapshot.github == GitHubLookup(githubHint, w).value
      && snapshot.portfolio == PortfolioLink(Sources(snapshot.github, snapshot.linkedinRaw))
    ensures r.Returned? ==> var snapshot := r.value.0;
      var urls := if useSearch then Footprints(name, maxSearchResults, w.duckDuckGo, w.bing) else [];
      && |snapshot.linkedinRaw| == |urls|
      && (forall i :: 0 <= i < |urls| ==> snapshot.linkedinRaw[i] == Scraped(ScrapeOf(urls[i], w)))
      && |snapshot.linkedinProfilesFound| == |snapshot.linkedinRaw|
      && (forall i :: 0 <= i < |snapshot.linkedinRaw| ==>
            snapshot.linkedinProfilesFound[i] == RefOf(snapshot.linkedinRaw[i]))
    ensures r.Returned? ==> var (snapshot, rows) := r.value;
      && |rows| == |snapshot.linkedinRaw| + (if snapshot.github.Some? then 1 else 0)
      && (forall i :: 0 <= i < |snapshot.linkedinRaw| ==> rows[i] == RowOf(snapshot.linkedinRaw[i]))
      && (snapshot.github.Some? ==> rows[|snapshot.linkedinRaw|] == GitHubRow(snapshot.github.value))
  {
    var results := LinkedInRecords(name, useSearch, maxSearchResults, w);
    var lookup := LookUpGitHub(githubHint, w);
    if lookup.Raised? {
      return Raised(lookup.message);
    }
    var githubProfile := lookup.value;

    var found := seq(|results|, i requires 0 <= i < |results| => RefOf(results[i]));
    var portfolio := FindPortfolioLink(Sources(githubProfile, results));
    var snapshot := Snapshot(name, found, results, githubProfile, portfolio);
    var rows := TableRows(results, githubProfile);
    r := Returned((snapshot, rows));
  }

  /**
   * The LinkedIn step of the snapshot: the search, the people-search record when the search
   * comes back empty (it never does), then one scraped record per URL.
   */
  method LinkedInRecords(name: string, useSearch: bool, maxSearchResults: int, w: World)
    returns (results: seq<Entry>)
    ensures var urls := if useSearch then Footprints(name, maxSearchResults, w.duckDuckGo, w.bing) else [];
      && |results| == |urls|
      && forall i :: 0 <= i < |urls| ==> results[i] == Scraped(ScrapeOf(urls[i], w))
  {
    results := [];
    var linkedinUrls: seq<string> := [];
    if useSearch {
      linkedinUrls := SearchLinkedInFootprints(name, maxSearchResults, w.duckDuckGo, w.bing);
      if linkedinUrls == [] {
        var altLinks := FallbackPeopleSearch(w.peopleSearch);
        results := results + [PeopleSearch(altLinks)];
      }
    }
    assert results == [];
    var scraped := ScrapeAll(linkedinUrls, w);
    results := results + scraped;
    assert results == scraped;
  }

  /** The GitHub step of the snapshot: the hint or the name search, then the profile fetch. */
  method LookUpGitHub(githubHint: Option<string>, w: World) returns (githubProfile: Outcome<Option<GitHubInfo>>)
    ensures githubProfile == GitHubLookup(githubHint, w)
  {
    var ghCandidate := if Truthy(githubHint) then Returned(githubHint) else FindGitHubByName(w.githubSearch);
    if ghCandidate.Raised? {
      return Raised(ghCandidate.message);
    }
    githubProfile := Returned(None);
    if Truthy(ghCandidate.value) {
      var login := ghCandidate.value.value;
      var ghInfo := FetchGitHubProfile(login, GitHubMaxRepos, w.githubUser(login), w.githubRepos(login));
      if ghInfo.UserInfo? {
        githubProfile := Returned(Some(ghInfo.info));
      }
    }
  }

  /** A truthy hint is used as it is: the name search plays no part, and nothing raises. */
  lemma HintSkipsNameSearch(hint: Option<string>, w: World, other: Fetched<JsonBody<SearchJson>>)
    requires Truthy(hint)
    ensures GitHubLookup(hint, w) == GitHubLookup(hint, w.(githubSearch := other))
    ensures GitHubLookup(hint, w).Returned?
  {
  }

  /**
   * Without a hint, a 200 search reply that is not JSON raises out of the snapshot; nothing
   * else in the GitHub step raises.
   */
  lemma BadSearchReplyRaises(hint: Option<string>, w: World)
    ensures GitHubLookup(hint, w).Raised? <==>
      !Truthy(hint) && Ok(w.githubSearch) && w.githubSearch.status == 200 && w.githubSearch.body.NotJson?
    ensures GitHubLookup(hint, w).Raised? ==> GitHubLookup(hint, w).message == w.githubSearch.body.message
  {
  }

  /**
   * A fetch that reports an error leaves the snapshot without a GitHub profile; a kept
   * profile is the one fetched for the candidate's username.
   */
  lemma GitHubErrorsAreDropped(hint: Option<string>, w: World)
    ensures var c := Candidate(hint, w);
      && (c.Returned? && Truthy(c.value) &&
          FetchGitHubProfile(c.value.value, GitHubMaxRepos, w.githubUser(c.value.value), w.githubRepos(c.value.value)).UserError? ==>
            GitHubLookup(hint, w) == Returned(None))
      && (c.Returned? && !Truthy(c.value) ==> GitHubLookup(hint, w) == Returned(None))
      && (GitHubLookup(hint, w).Returned? && GitHubLookup(hint, w).value.Some? ==>
            c.Returned? && Truthy(c.value) && GitHubLookup(hint, w).value.value.username == Username(c.value.value))
  {
  }

  /** A usable GitHub blog beats every URL in the LinkedIn records, since the GitHub profile comes first. */
  lemma GitHubBlogComesFirst(g: GitHubInfo, results: seq<Entry>)
    requires UsableBlog(SourceOfGitHub(g)).Some?
    ensures PortfolioLink(Sources(Some(g), results)) == UsableBlog(SourceOfGitHub(g))
  {
    BlogWins(Sources(Some(g), results), 0);
  }
}
