/**
 * Link harvesting from a search-result page: the anchor loops of the DuckDuckGo and Bing
 * LinkedIn searches and of the generic people search. The page's `<a href>` values are the
 * input, in document order.
 */
module Links {
  import opened Text
  import opened Fetch

  const LinkedInMarker := "linkedin.com/in/"

  /** `href.split("?")[0].split("#")[0]`: the href without its query string and fragment. */
  function Clean(href: string): (r: string)
    ensures r <= href && '?' !in r && '#' !in r
  {
    var noQuery := BeforeChar(href, '?');
    var r := BeforeChar(noQuery, '#');
    assert forall k :: 0 <= k < |r| ==> r[k] == noQuery[k];
    r
  }

  /** An anchor the LinkedIn loops accept: it mentions a profile path and its cleaned form is absolute. */
  predicate Qualifies(href: string) {
    Contains(href, LinkedInMarker) && StartsWith(Clean(href), "http")
  }

  predicate Distinct(s: seq<string>) {
    forall i, j :: 0 <= i < j < |s| ==> s[i] != s[j]
  }

  /** The cleaned form of every qualifying anchor, in document order, repeats included. */
  function Candidates(hrefs: seq<string>): (r: seq<string>)
    ensures forall l :: l in r ==> exists h :: h in hrefs && Qualifies(h) && Clean(h) == l
  {
    if hrefs == [] then []
    else
      var last := hrefs[|hrefs| - 1];
      var init := Candidates(hrefs[..|hrefs| - 1]);
      assert forall h :: h in hrefs[..|hrefs| - 1] ==> h in hrefs;
      init + (if Qualifies(last) then [Clean(last)] else [])
  }

  /** The first occurrence of each element, in first-seen order. */
  function Dedup(s: seq<string>): (r: seq<string>)
    ensures Distinct(r)
    ensures forall x :: x in r <==> x in s
  {
    if s == [] then []
    else
      var d := Dedup(s[..|s| - 1]);
      assert s == s[..|s| - 1] + [s[|s| - 1]];
      if s[|s| - 1] in d then d else d + [s[|s| - 1]]
  }

  /** The distinct candidates among the first `k` anchors. */
  function Found(hrefs: seq<string>, k: nat): seq<string>
    requires k <= |hrefs|
  {
    Dedup(Candidates(hrefs[..k]))
  }

  /** The number of anchors the loop looks at: it stops after the first anchor that brings the count to `maxResults`. */
  function StopFrom(hrefs: seq<string>, maxResults: int, k: nat): (n: nat)
    requires k <= |hrefs|
    ensures k <= n <= |hrefs|
    decreases |hrefs| - k
  {
    if k == |hrefs| then k
    else if |Found(hrefs, k + 1)| >= maxResults then k + 1
    else StopFrom(hrefs, maxResults, k + 1)
  }

  /**
   * The reference definition of a harvest: the distinct cleaned profile links among
   * the anchors up to the stopping point, in first-seen order.
   */
  function Harvest(hrefs: seq<string>, maxResults: int): seq<string> {
    Found(hrefs, StopFrom(hrefs, maxResults, 0))
  }

  /**
   * What every harvest satisfies whatever the anchors and the bound: each link is
   * absolute, has no query string or fragment, was cut from an anchor that mentions
   * "linkedin.com/in/", and appears once.
   */
  lemma HarvestLinksAreProfiles(hrefs: seq<string>, maxResults: int)
    ensures var links := Harvest(hrefs, maxResults);
      && Distinct(links)
      && (forall l :: l in links ==> StartsWith(l, "http") && '?' !in l && '#' !in l)
      && (forall l :: l in links ==> exists h :: h in hrefs && Contains(h, LinkedInMarker) && Clean(h) == l)
  {
    var k := StopFrom(hrefs, maxResults, 0);
    assert forall h :: h in hrefs[..k] ==> h in hrefs;
  }

  lemma FoundStep(hrefs: seq<string>, i: nat)
    requires i < |hrefs|
    ensures Found(hrefs, i + 1) ==
      if Qualifies(hrefs[i]) && Clean(hrefs[i]) !in Found(hrefs, i)
      then Found(hrefs, i) + [Clean(hrefs[i])]
      else Found(hrefs, i)
  {
    var pre := hrefs[..i + 1];
    assert pre[..|pre| - 1] == hrefs[..i];
    assert pre[|pre| - 1] == hrefs[i];
    var c := Candidates(hrefs[..i]);
    if Qualifies(hrefs[i]) {
      var x := Clean(hrefs[i]);
      assert Candidates(pre) == c + [x];
      assert (c + [x])[..|c + [x]| - 1] == c;
    } else {
      assert Candidates(pre) == c;
    }
  }

  /** What holds after the loop has looked at `i` anchors without stopping. */
  predicate HarvestedSoFar(hrefs: seq<string>, maxResults: int, i: nat, links: seq<string>)
    requires i <= |hrefs|
  {
    && links == Found(hrefs, i)
    && StopFrom(hrefs, maxResults, 0) == StopFrom(hrefs, maxResults, i)
    && (i == 0 || |links| < maxResults)
  }

  /** One turn of the loop: the anchor at `i` is looked at, then the count is checked. */
  lemma HarvestStep(hrefs: seq<string>, maxResults: int, i: nat, links: seq<string>, next: seq<string>)
    requires i < |hrefs| && HarvestedSoFar(hrefs, maxResults, i, links)
    requires next == if Qualifies(hrefs[i]) && Clean(hrefs[i]) !in links then links + [Clean(hrefs[i])] else links
    ensures |next| >= maxResults ==> next == Harvest(hrefs, maxResults) && |next| <= if maxResults >= 1 then maxResults else 1
    ensures |next| < maxResults ==> HarvestedSoFar(hrefs, maxResults, i + 1, next)
  {
    FoundStep(hrefs, i);
  }

  /**
   * The href loop of `search_linkedin_footprints` and `_bing_search_for_linkedin`:
   * it computes the harvest, and holds at most `maxResults` links (at most one when
   * `maxResults` is below 1, since the count is checked after each anchor).
   */
  method CollectLinkedInLinks(hrefs: seq<string>, maxResults: int) returns (links: seq<string>)
    ensures links == Harvest(hrefs, maxResults)
    ensures |links| <= if maxResults >= 1 then maxResults else 1
  {
    links := [];
    var i := 0;
    while i < |hrefs|
      invariant 0 <= i <= |hrefs|
      invariant HarvestedSoFar(hrefs, maxResults, i, links)
    {
      var href := hrefs[i];
      var next := links;
      if Contains(href, LinkedInMarker) {
        var clean := Clean(href);
        if clean !in links && StartsWith(clean, "http") {
          next := links + [clean];
        }
      }
      HarvestStep(hrefs, maxResults, i, links, next);
      links := next;
      if |links| >= maxResults {
        return;
      }
      i := i + 1;
    }
  }

  /** A page with a single anchor yields that anchor's cleaned form exactly when it qualifies. */
  lemma HarvestOfOne(href: string, maxResults: int)
    ensures Harvest([href], maxResults) == if Qualifies(href) then [Clean(href)] else []
  {
    var hs := [href];
    var e := if Qualifies(href) then [Clean(href)] else [];
    assert hs[..1] == hs;
    assert hs[..|hs| - 1] == [];
    assert Candidates(hs) == e;
    assert Dedup(e) == e by {
      if e != [] {
        assert e[..|e| - 1] == [];
      }
    }
    assert Found(hs, 1) == e;
    assert StopFrom(hs, maxResults, 0) == 1;
  }

  /**
   * The marker is looked for in the raw href, and the query string is cut off afterwards,
   * so a collected link need not itself contain "linkedin.com/in/": an anchor
   * `p?q` whose marker sits only in the query `q` is harvested as `p`.
   */
  lemma HarvestedLinkMayLackMarker(p: string, q: string, maxResults: int)
    requires StartsWith(p, "http") && '?' !in p && '#' !in p
    requires !Contains(p, LinkedInMarker) && Contains(q, LinkedInMarker)
    ensures Harvest([p + "?" + q], maxResults) == [p]
  {
    var href := p + ['?'] + q;
    assert href == p + "?" + q;
    assert href == (p + "?") + q;
    ContainsInSuffix(p + "?", q, LinkedInMarker);
    BeforeCharOfJoin(p, '?', q);
    BeforeCharOfJoin(p, '#', []);
    assert p + ['#'] + [] == p + ['#'];
    assert BeforeChar(p, '#') == p by {
      assert '#' !in p;
    }
    assert Clean(href) == p;
    HarvestOfOne(href, maxResults);
  }

  /** An anchor of that shape exists: "http://x?linkedin.com/in/jane" is harvested as "http://x". */
  lemma MarkerOnlyInQueryExists(maxResults: int)
    ensures !Contains("http://x", LinkedInMarker) && Contains(LinkedInMarker + "jane", LinkedInMarker)
    ensures Harvest(["http://x" + "?" + (LinkedInMarker + "jane")], maxResults) == ["http://x"]
  {
    ShortHasNoOccurrence("http://x", LinkedInMarker);
    ContainsIff(LinkedInMarker + "jane", LinkedInMarker);
    assert LinkedInMarker <= (LinkedInMarker + "jane")[0..];
    HarvestedLinkMayLackMarker("http://x", LinkedInMarker + "jane", maxResults);
  }

  // ---------------------------------------------------------------------------
  // The generic people search

  /** An anchor the people-search loop keeps: absolute and not a DuckDuckGo link. */
  predicate PeopleQualifies(href: string) {
    StartsWith(href, "http") && !Contains(href, "duckduckgo.com")
  }

  /**
   * The anchors `keep` accepts, in document order, repeats included. The test is a
   * parameter so that the lemmas about the scan need not look inside it.
   */
  function Filter(hrefs: seq<string>, keep: string -> bool): (r: seq<string>)
    ensures forall l :: l in r ==> keep(l)
  {
    if hrefs == [] then []
    else
      var last := hrefs[|hrefs| - 1];
      Filter(hrefs[..|hrefs| - 1], keep) + (if keep(last) then [last] else [])
  }

  /** The anchors the people-search loop keeps, in document order, repeats included. */
  function PeopleCandidates(hrefs: seq<string>): (r: seq<string>)
    ensures forall l :: l in r ==> PeopleQualifies(l)
  {
    Filter(hrefs, PeopleQualifies)
  }

  lemma {:induction false} FilterKeepsRepeats(hrefs: seq<string>, keep: string -> bool, h: string)
    requires keep(h)
    ensures multiset(Filter(hrefs, keep))[h] == multiset(hrefs)[h]
  {
    if hrefs != [] {
      var init := hrefs[..|hrefs| - 1];
      assert hrefs == init + [hrefs[|hrefs| - 1]];
      FilterKeepsRepeats(init, keep, h);
    }
  }

  /** Repeats are not removed: each qualifying href is kept as often as the page has it. */
  lemma PeopleCandidatesKeepRepeats(hrefs: seq<string>, h: string)
    requires PeopleQualifies(h)
    ensures multiset(PeopleCandidates(hrefs))[h] == multiset(hrefs)[h]
  {
    FilterKeepsRepeats(hrefs, PeopleQualifies, h);
  }

  /** Scanning a prefix of the page keeps a prefix of the links. */
  lemma {:induction false} FilterPrefix(hrefs: seq<string>, keep: string -> bool, k: nat)
    requires k <= |hrefs|
    ensures Filter(hrefs[..k], keep) <= Filter(hrefs, keep)
    decreases |hrefs|
  {
    if k < |hrefs| {
      var init := hrefs[..|hrefs| - 1];
      assert init[..k] == hrefs[..k];
      FilterPrefix(init, keep, k);
    } else {
      assert hrefs[..k] == hrefs;
    }
  }

  /** One more anchor scanned: it is added when `keep` accepts it; once five are held, they are the first five. */
  lemma FilterStep(hrefs: seq<string>, keep: string -> bool, i: nat, links: seq<string>, next: seq<string>)
    requires i < |hrefs| && links == Filter(hrefs[..i], keep) && |links| < 5
    requires next == if keep(hrefs[i]) then links + [hrefs[i]] else links
    ensures next == Filter(hrefs[..i + 1], keep)
    ensures |next| >= 5 ==> next == FirstFive(Filter(hrefs, keep))
  {
    FilterSnoc(hrefs, keep, i);
    if |next| >= 5 {
      FilterPrefix(hrefs, keep, i + 1);
      FirstFiveOfPrefix(next, Filter(hrefs, keep));
    }
  }

  lemma FilterSnoc(hrefs: seq<string>, keep: string -> bool, i: nat)
    requires i < |hrefs|
    ensures Filter(hrefs[..i + 1], keep) == Filter(hrefs[..i], keep) + if keep(hrefs[i]) then [hrefs[i]] else []
  {
    var seen := hrefs[..i + 1];
    assert seen[..|seen| - 1] == hrefs[..i];
  }

  lemma FirstFiveOfPrefix(p: seq<string>, s: seq<string>)
    requires p <= s && |p| == 5
    ensures FirstFive(s) == p
  {
  }

  /** `links[:5]` in the people-search loop's terms. */
  function FirstFive(s: seq<string>): (r: seq<string>)
    ensures r <= s && |r| <= 5
  {
    if |s| < 5 then s else s[..5]
  }

  /** The first five qualifying anchors are absolute, not DuckDuckGo links, and keep their repeats. */
  lemma PeopleLinksQualify(hrefs: seq<string>)
    ensures forall l :: l in FirstFive(PeopleCandidates(hrefs)) ==>
      StartsWith(l, "http") && !Contains(l, "duckduckgo.com")
  {
    var all := PeopleCandidates(hrefs);
    assert forall l :: l in FirstFive(all) ==> l in all;
  }

  /** One turn of the people-search loop; once five links are held, they are the answer. */
  lemma PeopleStep(hrefs: seq<string>, i: nat, links: seq<string>, next: seq<string>)
    requires i < |hrefs| && links == PeopleCandidates(hrefs[..i]) && |links| < 5
    requires next == if PeopleQualifies(hrefs[i]) then links + [hrefs[i]] else links
    ensures next == PeopleCandidates(hrefs[..i + 1])
    ensures |next| >= 5 ==> next == FirstFive(PeopleCandidates(hrefs))
  {
    FilterStep(hrefs, PeopleQualifies, i, links, next);
  }

  /**
   * The href loop of `fallback_people_search`: the first five qualifying anchors (fewer
   * if the page has fewer), in document order and without removing repeats.
   */
  method CollectPeopleLinks(hrefs: seq<string>) returns (links: seq<string>)
    ensures links == FirstFive(PeopleCandidates(hrefs))
  {
    links := [];
    var i := 0;
    while i < |hrefs|
      invariant 0 <= i <= |hrefs|
      invariant links == PeopleCandidates(hrefs[..i]) && |links| < 5
    {
      var href := hrefs[i];
      var next := links;
      if StartsWith(href, "http") && !Contains(href, "duckduckgo.com") {
        next := links + [href];
      }
      PeopleStep(hrefs, i, links, next);
      links := next;
      if |links| >= 5 {
        return;
      }
      i := i + 1;
    }
    assert hrefs[..i] == hrefs;
  }

  /** `fallback_people_search`: nothing from a failed or blocked page, otherwise the harvested links. */
  method FallbackPeopleSearch(page: Fetched<seq<string>>) returns (links: seq<string>)
    ensures !Ok(page) || IsCaptchaPageText(page.text) ==> links == []
    ensures Ok(page) && !IsCaptchaPageText(page.text) ==> links == FirstFive(PeopleCandidates(page.body))
    ensures |links| <= 5
  {
    if !Ok(page) || IsCaptchaPageText(page.text) {
      return [];
    }
    links := CollectPeopleLinks(page.body);
  }
}
