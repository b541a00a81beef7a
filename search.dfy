/**
 * The LinkedIn search cascade of `search_linkedin_footprints`: DuckDuckGo first, then Bing,
 * then a profile URL guessed from the name. Each engine's reply is an abstract
 * `Fetched` value whose body is the page's anchor hrefs in document order.
 */
module Search {
  import opened Text
  import opened Fetch
  import opened Links

  const ProfileBase := "https://www.linkedin.com/in/"

  /** `name.lower().replace(" ", "-").replace(".", "")`: the guessed profile slug. */
  function Slug(name: string): (r: string)
    ensures ' ' !in r && '.' !in r
  {
    var dashed := ReplaceChar(Lower(name), ' ', "-");
    ReplaceChar(dashed, '.', "")
  }

  /** The slug of a concatenation is the concatenation of the slugs. */
  lemma SlugAppend(a: string, b: string)
    ensures Slug(a + b) == Slug(a) + Slug(b)
  {
    LowerAppend(a, b);
    ReplaceCharAppend(Lower(a), Lower(b), ' ', "-");
    ReplaceCharAppend(ReplaceChar(Lower(a), ' ', "-"), ReplaceChar(Lower(b), ' ', "-"), '.', "");
  }

  /** One character of the name: a space becomes '-', a '.' is dropped, anything else is lower-cased. */
  lemma SlugOfChar(x: char)
    ensures Slug([x]) == if x == ' ' then "-" else if x == '.' then "" else [LowerChar(x)]
  {
    assert Lower([x]) == [LowerChar(x)];
    ReplaceCharOne(LowerChar(x), ' ', "-");
    if LowerChar(x) == ' ' {
      assert ReplaceChar("-", '.', "") == "-" by {
        ReplaceCharOne('-', '.', "");
      }
    } else {
      ReplaceCharOne(LowerChar(x), '.', "");
    }
  }

  /** A name with no upper-case letter, space or '.' is its own slug. */
  lemma {:induction false} SlugKeepsPlainName(s: string)
    requires HasNoUpper(s) && ' ' !in s && '.' !in s
    ensures Slug(s) == s
    decreases |s|
  {
    if s != [] {
      var tail := s[1..];
      assert s == [s[0]] + tail;
      assert s[0] in s;
      assert HasNoUpper(tail) && ' ' !in tail && '.' !in tail by {
        assert forall c :: c in tail ==> c in s;
      }
      SlugAppend([s[0]], tail);
      SlugOfChar(s[0]);
      SlugKeepsPlainName(tail);
    }
  }

  /** Two words joined by a space give their slugs joined by a dash. */
  lemma SlugOfTwoWords(a: string, b: string)
    ensures Slug(a + " " + b) == Slug(a) + "-" + Slug(b)
  {
    SlugAppend(a + " ", b);
    SlugAppend(a, " ");
    SlugOfChar(' ');
  }

  /** The first guessed profile URL, the only one the cascade ever returns. */
  function DirectUrl(name: string): (r: string)
    ensures StartsWith(r, "http")
  {
    ProfileBase + Slug(name) + "/"
  }

  /** Python's `a or b` on two lists. */
  function OrElse(a: seq<string>, b: seq<string>): (r: seq<string>)
    ensures a != [] ==> r == a
    ensures a == [] ==> r == b
  {
    if a != [] then a else b
  }

  /**
   * `_bing_search_for_linkedin`: no links when the request fails or the page is a CAPTCHA
   * page, otherwise the harvest of the page's anchors.
   */
  method BingSearchForLinkedIn(page: Fetched<seq<string>>, maxResults: int) returns (links: seq<string>)
    ensures !Ok(page) || IsCaptchaPageText(page.text) ==> links == []
    ensures Ok(page) && !IsCaptchaPageText(page.text) ==> links == Harvest(page.body, maxResults)
  {
    if !Ok(page) || IsCaptchaPageText(page.text) {
      return [];
    }
    links := CollectLinkedInLinks(page.body, maxResults);
  }

  /** What `_bing_search_for_linkedin` returns, as a value. */
  function BingLinks(page: Fetched<seq<string>>, maxResults: int): seq<string> {
    if !Ok(page) || IsCaptchaPageText(page.text) then [] else Harvest(page.body, maxResults)
  }

  /** The reference definition of the whole cascade. */
  function Footprints(name: string, maxResults: int, ddg: Fetched<seq<string>>, bing: Fetched<seq<string>>): seq<string> {
    var fallback := [DirectUrl(name)];
    if !Ok(ddg) then OrElse(BingLinks(bing, maxResults), fallback)
    else if IsCaptchaPageText(ddg.text) then fallback
    else OrElse(Harvest(ddg.body, maxResults), OrElse(BingLinks(bing, maxResults), fallback))
  }

  /**
   * `search_linkedin_footprints`. A failed DuckDuckGo request falls through to Bing and then
   * to the guessed URL; a DuckDuckGo CAPTCHA goes straight to the guessed URL; an empty
   * DuckDuckGo harvest falls through to Bing and then to the guessed URL.
   */
  method SearchLinkedInFootprints(name: string, maxResults: int, ddg: Fetched<seq<string>>, bing: Fetched<seq<string>>)
    returns (urls: seq<string>)
    ensures urls == Footprints(name, maxResults, ddg, bing)
    ensures urls != []
  {
    var fallback := [DirectUrl(name)];
    if !Ok(ddg) {
      var b := BingSearchForLinkedIn(bing, maxResults);
      return OrElse(b, fallback);
    }
    if IsCaptchaPageText(ddg.text) {
      return fallback;
    }
    var links := CollectLinkedInLinks(ddg.body, maxResults);
    if links != [] {
      return links;
    }
    var b := BingSearchForLinkedIn(bing, maxResults);
    if b == [] {
      return fallback;
    }
    return b;
  }

  /**
   * The cascade never comes back empty, and every URL it returns is absolute: either a
   * harvested link or the guessed profile URL.
   */
  lemma FootprintsAreUrls(name: string, maxResults: int, ddg: Fetched<seq<string>>, bing: Fetched<seq<string>>)
    ensures var urls := Footprints(name, maxResults, ddg, bing);
      && urls != []
      && forall u :: u in urls ==> StartsWith(u, "http")
  {
    var fallback := [DirectUrl(name)];
    var fromBing := BingLinks(bing, maxResults);
    if Ok(bing) {
      HarvestIsUrls(bing.body, maxResults);
    }
    var afterBing := OrElse(fromBing, fallback);
    assert afterBing != [] && forall u :: u in afterBing ==> StartsWith(u, "http");
    if Ok(ddg) {
      HarvestIsUrls(ddg.body, maxResults);
    }
  }

  lemma HarvestIsUrls(hrefs: seq<string>, maxResults: int)
    ensures forall u :: u in Harvest(hrefs, maxResults) ==> StartsWith(u, "http")
  {
    HarvestLinksAreProfiles(hrefs, maxResults);
  }
}
