/**
 * `find_github_by_name` and `fetch_github_profile`: the username taken from a profile URL,
 * the status and parse errors, and the top-repository selection. The API replies are
 * abstract `Fetched` values whose bodies are the decoded JSON.
 */
module GitHub {
  import opened Wrappers
  import opened Text
  import opened Fetch

  // ---------------------------------------------------------------------------
  // The path of a URL, as `urllib.parse.urlparse(u).path` computes it
  // ---------------------------------------------------------------------------

  predicate IsSchemeChar(c: char) {
    IsAsciiLetter(c) || ('0' <= c <= '9') || c == '+' || c == '-' || c == '.'
  }

  /** The schemes for which `urlparse` splits off `;params`. */
  const UsesParams: seq<string> :=
    ["", "ftp", "hdl", "prospero", "http", "imap", "https", "shttp", "rtsp", "rtspu", "sip", "sips", "mms", "sftp", "tel"]

  /** The prefix of `s` up to the first character in `stops`. */
  function BeforeAny(s: string, stops: set<char>): (r: string)
    ensures r <= s
    ensures forall c :: c in r ==> c !in stops
    ensures |r| < |s| ==> s[|r|] in stops
  {
    if s == [] || s[0] in stops then [] else [s[0]] + BeforeAny(s[1..], stops)
  }

  /** The index of the last `c` in `s`, for an `s` that holds one. */
  function LastIndex(s: string, c: char): (i: nat)
    requires c in s
    ensures i < |s| && s[i] == c && c !in s[i + 1..]
  {
    if s[|s| - 1] == c then |s| - 1
    else
      assert s == s[..|s| - 1] + [s[|s| - 1]];
      LastIndex(s[..|s| - 1], c)
  }

  /** The scheme and the rest of a URL: a scheme is a letter followed by scheme characters up to the first ':'. */
  function SplitScheme(u: string): (string, string) {
    if ':' !in u then ("", u)
    else
      var i := |BeforeChar(u, ':')|;
      if i > 0 && IsAsciiLetter(u[0]) && (forall k :: 0 <= k < i ==> IsSchemeChar(u[k]))
      then (Lower(u[..i]), u[i + 1..])
      else ("", u)
  }

  /** `_splitparams`: the path without its `;params`, looked for in the last segment when there is a '/'. */
  function DropParams(path: string): string {
    if '/' in path then
      var j := LastIndex(path, '/');
      if ';' in path[j..] then path[..j + |BeforeChar(path[j..], ';')|] else path
    else BeforeChar(path, ';')
  }

  /** The path component: after the scheme and the `//netloc`, before the fragment and the query, without params. */
  function UrlPath(u: string): string {
    var (scheme, rest) := SplitScheme(u);
    PathAfterScheme(scheme, rest)
  }

  /** The path taken from what follows the scheme. */
  function PathAfterScheme(scheme: string, rest: string): string {
    var afterNetloc := if "//" <= rest then rest[2..][|BeforeAny(rest[2..], {'/', '?', '#'})|..] else rest;
    var path := BeforeChar(BeforeChar(afterNetloc, '#'), '?');
    if scheme in UsesParams && ';' in path then DropParams(path) else path
  }

  /**
   * The username `fetch_github_profile` looks up: for an input mentioning "github.com/", the
   * first segment of its URL path (`split` always yields a first element, so the input is
   * never used as the fallback there); otherwise the input itself.
   */
  function Username(usernameOrUrl: string): string {
    if Contains(usernameOrUrl, "github.com/") then Before(StripIn(UrlPath(usernameOrUrl), {'/'}), "/")
    else usernameOrUrl
  }

  // ---------------------------------------------------------------------------
  // Top repositories: a stable descending sort by stars, then a slice
  // ---------------------------------------------------------------------------

  /** A repository entry; `stars == None` is a missing "stargazers_count". */
  datatype Repo = Repo(name: Option<string>, htmlUrl: Option<string>, description: Option<string>,
                       language: Option<string>, stars: Option<int>)

  /** The sort key `x.get("stargazers_count", 0)`. */
  function Key(r: Repo): int {
    r.stars.GetOr(0)
  }

  predicate Descending(s: seq<Repo>) {
    forall i, j :: 0 <= i < j < |s| ==> Key(s[i]) >= Key(s[j])
  }

  /** Places `x` before the first entry whose key is not larger than its own. */
  function Insert(x: Repo, t: seq<Repo>): (r: seq<Repo>)
    ensures |r| == |t| + 1
  {
    if t == [] || Key(x) >= Key(t[0]) then [x] + t else [t[0]] + Insert(x, t[1..])
  }

  /** `sorted(repos, key=..., reverse=True)`: an insertion sort that keeps equal keys in input order. */
  function SortByStars(s: seq<Repo>): (r: seq<Repo>)
    ensures |r| == |s|
  {
    if s == [] then [] else Insert(s[0], SortByStars(s[1..]))
  }

  /** The entries with key `k`, in order: stability means the sort leaves this unchanged. */
  function WithKey(s: seq<Repo>, k: int): seq<Repo> {
    if s == [] then [] else (if Key(s[0]) == k then [s[0]] else []) + WithKey(s[1..], k)
  }

  lemma {:induction false} InsertIsPermutation(x: Repo, t: seq<Repo>)
    ensures multiset(Insert(x, t)) == multiset{x} + multiset(t)
  {
    if t != [] && Key(x) < Key(t[0]) {
      InsertIsPermutation(x, t[1..]);
      assert t == [t[0]] + t[1..];
    }
  }

  lemma {:induction false} InsertKeepsOrder(x: Repo, t: seq<Repo>)
    requires Descending(t)
    ensures Descending(Insert(x, t))
  {
    if t != [] && Key(x) < Key(t[0]) {
      var tail := t[1..];
      assert Descending(tail);
      InsertKeepsOrder(x, tail);
      var rest := Insert(x, tail);
      forall y | y in rest
        ensures Key(y) <= Key(t[0])
      {
        InsertFrom(x, tail, y);
      }
      ConsDescending(t[0], rest);
    }
  }

  /** An entry of `Insert(x, t)` is `x` or an entry of `t`. */
  lemma InsertFrom(x: Repo, t: seq<Repo>, y: Repo)
    requires y in Insert(x, t)
    ensures y == x || y in t
  {
    InsertIsPermutation(x, t);
    assert y in multiset(Insert(x, t));
  }

  lemma ConsDescending(h: Repo, rest: seq<Repo>)
    requires Descending(rest) && forall y :: y in rest ==> Key(y) <= Key(h)
    ensures Descending([h] + rest)
  {
    var s := [h] + rest;
    forall i, j | 0 <= i < j < |s|
      ensures Key(s[i]) >= Key(s[j])
    {
      assert s[j] == rest[j - 1];
      if i > 0 {
        assert s[i] == rest[i - 1];
      }
    }
  }

  lemma {:induction false} InsertWithKey(x: Repo, t: seq<Repo>, k: int)
    requires Descending(t)
    ensures WithKey(Insert(x, t), k) == if Key(x) == k then [x] + WithKey(t, k) else WithKey(t, k)
  {
    if t == [] || Key(x) >= Key(t[0]) {
      assert ([x] + t)[1..] == t;
    } else {
      var rest := Insert(x, t[1..]);
      assert Descending(t[1..]);
      InsertWithKey(x, t[1..], k);
      assert ([t[0]] + rest)[1..] == rest;
    }
  }

  /** The sorted repositories have non-increasing star counts. */
  lemma {:induction false} SortIsDescending(s: seq<Repo>)
    ensures Descending(SortByStars(s))
  {
    if s != [] {
      SortIsDescending(s[1..]);
      InsertKeepsOrder(s[0], SortByStars(s[1..]));
    }
  }

  /** The sort is a permutation of its input. */
  lemma {:induction false} SortIsPermutation(s: seq<Repo>)
    ensures multiset(SortByStars(s)) == multiset(s)
  {
    if s != [] {
      SortIsPermutation(s[1..]);
      InsertIsPermutation(s[0], SortByStars(s[1..]));
      assert s == [s[0]] + s[1..];
    }
  }

  /** The sort is stable: for every star count, the entries with it keep their input order. */
  lemma {:induction false} SortIsStable(s: seq<Repo>, k: int)
    ensures WithKey(SortByStars(s), k) == WithKey(s, k)
  {
    if s != [] {
      SortIsStable(s[1..], k);
      SortIsDescending(s[1..]);
      InsertWithKey(s[0], SortByStars(s[1..]), k);
    }
  }

  /** The length of `xs[:min(maxRepos, len(xs))]` with Python's slice rules for negative bounds. */
  function TakeCount(maxRepos: int, n: nat): (c: nat)
    ensures c <= n
    ensures maxRepos >= 0 ==> c == if maxRepos < n then maxRepos else n
    ensures maxRepos < 0 ==> c == if n + maxRepos > 0 then n + maxRepos else 0
  {
    var m := if maxRepos < n then maxRepos else n;
    if m >= 0 then m else if n + m > 0 then n + m else 0
  }

  /** The `top_repos` list. */
  function TopRepos(repos: seq<Repo>, maxRepos: int): seq<Repo> {
    SortByStars(repos)[..TakeCount(maxRepos, |repos|)]
  }

  /**
   * `top_repos` holds the `min(maxRepos, len(repos))` best-starred repositories (with Python's
   * slice rule for a negative bound), in non-increasing star order, each one of the input's.
   */
  lemma TopReposAreBest(repos: seq<Repo>, maxRepos: int)
    ensures var top := TopRepos(repos, maxRepos);
      && |top| == TakeCount(maxRepos, |repos|)
      && top <= SortByStars(repos)
      && Descending(top)
      && multiset(top) <= multiset(repos)
  {
    var sorted := SortByStars(repos);
    var k := TakeCount(maxRepos, |repos|);
    assert TopRepos(repos, maxRepos) == sorted[..k];
    SortIsDescending(repos);
    PrefixDescending(sorted, k);
    SortIsPermutation(repos);
    PrefixSubMultiset(sorted, k);
  }

  lemma PrefixDescending(s: seq<Repo>, k: nat)
    requires k <= |s| && Descending(s)
    ensures Descending(s[..k])
  {
    assert forall i :: 0 <= i < k ==> s[..k][i] == s[i];
  }

  lemma PrefixSubMultiset(s: seq<Repo>, k: nat)
    requires k <= |s|
    ensures multiset(s[..k]) <= multiset(s)
  {
    assert s == s[..k] + s[k..];
  }

  // ---------------------------------------------------------------------------
  // The API replies
  // ---------------------------------------------------------------------------

  /** A reply body: decoded JSON, or the text of the decoding error. */
  datatype JsonBody<T> = Json(value: T) | NotJson(message: string)

  /** The fields of a user object that the profile reads (`profile.get(...)`). */
  datatype UserJson = UserJson(name: Option<string>, bio: Option<string>, blog: Option<string>,
                               company: Option<string>, location: Option<string>,
                               publicRepos: Option<int>, followers: Option<int>, following: Option<int>,
                               htmlUrl: Option<string>)

  /** A repositories reply: a JSON list, or any other JSON value. */
  datatype ReposJson = RepoList(repos: seq<Repo>) | NotAList

  datatype GitHubInfo = GitHubInfo(username: string, name: Option<string>, bio: Option<string>,
                                   blog: Option<string>, company: Option<string>, location: Option<string>,
                                   publicRepos: Option<int>, followers: Option<int>, following: Option<int>,
                                   profileUrl: Option<string>, topRepos: seq<Repo>)

  datatype GitHubResult = UserInfo(info: GitHubInfo) | UserError(error: string)

  /**
   * The status error as written: the status is shown only when the response object is
   * truthy, but a response with a 4xx or 5xx status is falsy, so every such reply reads as
   * "no_response".
   */
  function StatusErrorAsWritten(r: Fetched<JsonBody<UserJson>>): string {
    "github_status_" + (if Ok(r) then IntText(r.status) else "no_response")
  }

  /** The status error as intended: "no_response" only when there was no response. */
  function StatusError(r: Fetched<JsonBody<UserJson>>): string {
    "github_status_" + (if r.Response? then IntText(r.status) else "no_response")
  }

  /** The decimal text of a number never spells "no_response". */
  lemma {:induction false} NatTextIsDigits(n: nat)
    ensures forall c :: c in NatText(n) ==> '0' <= c <= '9'
    decreases n
  {
    if n >= 10 {
      NatTextIsDigits(n / 10);
    }
  }

  /** A 404 reply is reported as if no response had arrived. */
  lemma NotFoundReadsAsNoResponse(text: string, body: JsonBody<UserJson>)
    ensures StatusErrorAsWritten(Response(404, text, body)) == "github_status_no_response"
    ensures StatusError(Response(404, text, body)) == "github_status_404"
  {
    assert NatText(404) == NatText(40) + [DigitChar(4)];
    assert NatText(40) == NatText(4) + [DigitChar(0)];
  }

  /** The corrected status error says "no_response" exactly when no response arrived. */
  lemma StatusErrorNamesMissingReply(r: Fetched<JsonBody<UserJson>>)
    ensures StatusError(r) == "github_status_no_response" <==> r.NoResponse?
  {
    if r.Response? {
      var t := IntText(r.status);
      if r.status < 0 {
        assert t[0] == '-';
      } else {
        NatTextIsDigits(r.status);
        assert t[0] in NatText(r.status);
      }
      assert StatusError(r)[|"github_status_"|] == t[0];
    }
  }

  /** What the repositories request contributes: the list when the reply is a 200 JSON list, else nothing. */
  function RepoPayload(r: Fetched<JsonBody<ReposJson>>): seq<Repo> {
    if Ok(r) && r.status == 200 && r.body.Json? && r.body.value.RepoList? then r.body.value.repos else []
  }

  /**
   * `fetch_github_profile` with the corrected status error. `user` and `repos` are the
   * outcomes of the user and repositories requests.
   */
  function FetchGitHubProfile(usernameOrUrl: string, maxRepos: int,
                              user: Fetched<JsonBody<UserJson>>, repos: Fetched<JsonBody<ReposJson>>): (g: GitHubResult)
    ensures g.UserError? <==> !Ok(user) || user.status != 200 || user.body.NotJson?
    ensures g.UserInfo? ==> g.info.username == Username(usernameOrUrl)
    ensures g.UserInfo? ==> g.info.topRepos == TopRepos(RepoPayload(repos), maxRepos)
    ensures g.UserInfo? && !(Ok(repos) && repos.status == 200 && repos.body.Json? && repos.body.value.RepoList?) ==>
      g.info.topRepos == []
  {
    var username := Username(usernameOrUrl);
    if !Ok(user) || user.status != 200 then UserError(StatusError(user))
    else match user.body
      case NotJson(message) => UserError("github_json_parse_error: " + message)
      case Json(p) =>
        UserInfo(GitHubInfo(username, p.name, p.bio, p.blog, p.company, p.location,
                           p.publicRepos, p.followers, p.following, p.htmlUrl,
                           TopRepos(RepoPayload(repos), maxRepos)))
  }

  /** The same with the status error as written. */
  function FetchGitHubProfileAsWritten(usernameOrUrl: string, maxRepos: int,
                                       user: Fetched<JsonBody<UserJson>>, repos: Fetched<JsonBody<ReposJson>>): (g: GitHubResult)
    ensures g.UserError? <==> FetchGitHubProfile(usernameOrUrl, maxRepos, user, repos).UserError?
  {
    if !Ok(user) || user.status != 200 then UserError(StatusErrorAsWritten(user))
    else FetchGitHubProfile(usernameOrUrl, maxRepos, user, repos)
  }

  /** The search reply's decoded body: its "items" logins, in order. */
  datatype SearchJson = SearchJson(logins: seq<string>)

  /**
   * `find_github_by_name`: `None` for a failed or non-200 reply; a 200 reply whose body is
   * not JSON makes `r.json()` raise, and nothing in the function catches it; otherwise the
   * first login, or `None` when there is none.
   */
  function FindGitHubByName(r: Fetched<JsonBody<SearchJson>>): (o: Outcome<Option<string>>)
    ensures o.Raised? <==> Ok(r) && r.status == 200 && r.body.NotJson?
    ensures o.Returned? && o.value.Some? <==> Ok(r) && r.status == 200 && r.body.Json? && r.body.value.logins != []
    ensures o.Returned? && o.value.Some? ==> o.value.value == r.body.value.logins[0]
  {
    if !Ok(r) || r.status != 200 then Returned(None)
    else match r.body
      case NotJson(message) => Raised(message)
      case Json(p) => if p.logins == [] then Returned(None) else Returned(Some(p.logins[0]))
  }

  // ---------------------------------------------------------------------------
  // What the username rule does with the two accepted spellings
  // ---------------------------------------------------------------------------

  /** A URL path segment with none of the characters that end it. */
  predicate Segment(s: string) {
    s != [] && '/' !in s && '?' !in s && '#' !in s && ';' !in s && ':' !in s
  }

  /** A lower-case scheme such as "https". */
  predicate LowerScheme(s: string) {
    s != [] && forall k :: 0 <= k < |s| ==> 'a' <= s[k] <= 'z'
  }

  /** `lstrip(chars)` leaves alone a string that does not start with one of `chars`. */
  lemma LStripInNoStop(s: string, chars: set<char>)
    requires s == [] || s[0] !in chars
    ensures LStripIn(s, chars) == s
  {
  }

  /** `rstrip(chars)` leaves alone a string that does not end with one of `chars`. */
  lemma RStripInNoStop(s: string, chars: set<char>)
    requires s != [] && s[|s| - 1] !in chars
    ensures RStripIn(s, chars) == s
  {
  }

  /** `split(sep)[0]` of a string without the one-character `sep` is the whole string. */
  lemma BeforeWithoutSep(s: string, sep: string)
    requires |sep| == 1 && sep[0] !in s
    ensures Before(s, sep) == s
  {
    forall j | 0 <= j <= |s|
      ensures !(sep <= s[j..])
    {
      if j < |s| {
        assert s[j] in s;
      }
    }
    ContainsIff(s, sep);
  }

  /** `split(sep)[0]` of "<p><sep><q>" is `<p>` when `p` holds no `sep` character. */
  lemma BeforeOfJoin(p: string, sep: string, q: string)
    requires |sep| == 1 && sep[0] !in p
    ensures Before(p + sep + q, sep) == p
  {
    FindOfJoin(p, sep, q);
    assert (p + sep + q)[..|p|] == p;
  }

  lemma {:induction false} BeforeAnyOfJoin(p: string, c: char, q: string, stops: set<char>)
    requires c in stops && forall x :: x in p ==> x !in stops
    ensures BeforeAny(p + [c] + q, stops) == p
    decreases |p|
  {
    if p != [] {
      assert (p + [c] + q)[1..] == p[1..] + [c] + q;
      BeforeAnyOfJoin(p[1..], c, q, stops);
    }
  }

  /** A lower-case scheme before the first ':' is split off as it is. */
  lemma SchemeOfUrl(scheme: string, rest: string)
    requires LowerScheme(scheme)
    ensures SplitScheme(scheme + ":" + rest) == (scheme, rest)
  {
    var u := scheme + [':'] + rest;
    assert ':' !in scheme by {
      forall k | 0 <= k < |scheme|
        ensures scheme[k] != ':'
      {
      }
    }
    BeforeCharOfJoin(scheme, ':', rest);
    assert u[..|scheme|] == scheme;
    assert Lower(scheme) == scheme;
    assert u[|scheme| + 1..] == rest;
  }

  /** After the scheme, "//<host>/<name>" loses its host and keeps the path "/<name>". */
  lemma PathOfNetloc(scheme: string, host: string, name: string)
    requires Segment(host) && Segment(name)
    ensures PathAfterScheme(scheme, "//" + host + "/" + name) == "/" + name
  {
    var rest := "//" + host + "/" + name;
    var r2 := host + ['/'] + name;
    assert rest[2..] == r2;
    var stops := {'/', '?', '#'};
    assert forall x :: x in host ==> x !in stops;
    BeforeAnyOfJoin(host, '/', name, stops);
    var after := "/" + name;
    assert r2[|host|..] == after;
    assert '#' !in after && '?' !in after && ';' !in after;
  }

  /** The path of "<scheme>://<host>/<name>" is "/<name>". */
  lemma UrlPathOfUrl(scheme: string, host: string, name: string)
    requires LowerScheme(scheme) && Segment(host) && Segment(name)
    ensures UrlPath(scheme + "://" + host + "/" + name) == "/" + name
  {
    var rest := "//" + host + "/" + name;
    JoinUrl(scheme, host, name);
    SchemeOfUrl(scheme, rest);
    PathOfNetloc(scheme, host, name);
  }

  lemma JoinUrl(scheme: string, host: string, name: string)
    ensures scheme + "://" + host + "/" + name == scheme + ":" + ("//" + host + "/" + name)
  {
    var tail := host + "/" + name;
    assert scheme + "://" + host + "/" + name == scheme + "://" + tail;
    assert "//" + host + "/" + name == "//" + tail;
    assert "://" == ":" + "//";
  }

  /** Stripping the slashes off "/<name>" and cutting at the next '/' leaves `<name>`. */
  lemma NameOfPath(name: string)
    requires Segment(name)
    ensures Before(StripIn("/" + name, {'/'}), "/") == name
  {
    assert ("/" + name)[1..] == name;
    LStripInNoStop(name, {'/'});
    assert name[|name| - 1] in name;
    RStripInNoStop(name, {'/'});
    BeforeWithoutSep(name, "/");
  }

  /** The username of "<scheme>://<host>/<name>" is `<name>`, for a URL that mentions "github.com/". */
  lemma UsernameOfUrl(scheme: string, host: string, name: string)
    requires LowerScheme(scheme) && Segment(host) && Segment(name)
    requires Contains(scheme + "://" + host + "/" + name, "github.com/")
    ensures Username(scheme + "://" + host + "/" + name) == name
  {
    UrlPathOfUrl(scheme, host, name);
    NameOfPath(name);
  }

  /**
   * Without a scheme the whole input is the path, so the username of "<host>/<name>"
   * (say "github.com/octocat") is the host.
   */
  lemma UsernameWithoutScheme(host: string, name: string)
    requires Segment(host) && Segment(name)
    requires Contains(host + "/" + name, "github.com/")
    ensures Username(host + "/" + name) == host
  {
    var u := host + "/" + name;
    assert ':' !in u;
    assert u[0] == host[0] && host[0] in host;
    assert SplitScheme(u) == ("", u);
    assert !("//" <= u);
    assert PathAfterScheme("", u) == u;
    LStripInNoStop(u, {'/'});
    assert name[|name| - 1] in name;
    RStripInNoStop(u, {'/'});
    BeforeOfJoin(host, "/", name);
  }

  /** The username taken from a URL is a single path segment: it holds no '/'. */
  lemma UsernameHasNoSlash(usernameOrUrl: string)
    requires Contains(usernameOrUrl, "github.com/")
    ensures '/' !in Username(usernameOrUrl)
  {
    BeforeLacksSep(StripIn(UrlPath(usernameOrUrl), {'/'}), '/');
  }
}
