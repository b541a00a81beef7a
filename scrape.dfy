/**
 * The field cascade of `scrape_linkedin_public`. The parsed page is abstract: a
 * `ProfileDom` answers exactly the lookups the scraper makes, with every text already
 * taken with `get_text(strip=True)`.
 */
module Scrape {
  import opened Wrappers
  import opened Text
  import opened Fetch

  /** A `soup.find(tag, {"class": cls})` query; `cls == None` is the attribute-free `("h2", {})`. */
  datatype Selector = Selector(tag: string, cls: Option<string>)

  const NameSelectors: seq<Selector> := [
    Selector("div", Some("pv-text-details__left-panel")),
    Selector("div", Some("top-card-layout__entity-info")),
    Selector("div", Some("pv-top-card")),
    Selector("section", Some("top-card-layout"))
  ]

  const TitleSelectors: seq<Selector> := [
    Selector("div", Some("text-body-medium")),
    Selector("div", Some("pv-top-card--list-bullet")),
    Selector("h2", None)
  ]

  /**
   * The answers of a parsed page:
   *  - `h1Under(sel)`: the text of the first `<h1>` inside the first element matching `sel`,
   *    `None` when there is no such element or it holds no `<h1>`;
   *  - `textOf(sel)`: the text of the first element matching `sel`;
   *  - `ogTitle`, `ogDescription`: the `content` of the `og:title` / `og:description` meta tag;
   *  - `jobTag`: the text of the first `<h3>` (or hidden `<span>`) of the experience section;
   *  - `titleTag`: the text of the `<title>` element.
   */
  datatype ProfileDom = ProfileDom(
    h1Under: Selector -> Option<string>,
    textOf: Selector -> Option<string>,
    ogTitle: Option<string>,
    ogDescription: Option<string>,
    jobTag: Option<string>,
    titleTag: Option<string>)

  /** The result dictionary of `scrape_linkedin_public`. */
  datatype Profile = Profile(
    profileUrl: string,
    fullName: Option<string>,
    title: Option<string>,
    jobTitle: Option<string>,
    talksAbout: Option<string>,
    error: Option<string>)

  const RequestFailed := "request_failed"
  const CaptchaError := "captcha"
  const LoginRequired := "login_required_or_profile_not_found"

  /** The record returned early: every field `None` except the error. */
  function Failed(profileUrl: string, error: string): Profile {
    Profile(profileUrl, None, None, None, None, Some(error))
  }

  /** The name loop from selector `i` on: the first selector whose element has an `<h1>`, even an empty one. */
  function NameFrom(h1Under: Selector -> Option<string>, i: nat): Option<string>
    requires i <= |NameSelectors|
    decreases |NameSelectors| - i
  {
    if i == |NameSelectors| then None
    else if h1Under(NameSelectors[i]).Some? then h1Under(NameSelectors[i])
    else NameFrom(h1Under, i + 1)
  }

  /** The title loop from selector `i` on: the first selector whose element has non-empty text. */
  function TitleFrom(textOf: Selector -> Option<string>, i: nat): (r: Option<string>)
    requires i <= |TitleSelectors|
    ensures r.Some? ==> r.value != []
    decreases |TitleSelectors| - i
  {
    if i == |TitleSelectors| then None
    else if Truthy(textOf(TitleSelectors[i])) then textOf(TitleSelectors[i])
    else TitleFrom(textOf, i + 1)
  }

  /** An `og:title` content that the meta-tag step uses: non-empty and containing " - ". */
  predicate OgUsable(og: Option<string>) {
    Truthy(og) && Contains(og.value, " - ")
  }

  /** The `<title>` fallback: the text before " - ", else before "|", else all of it, stripped. */
  function TitleFallback(text: string): string {
    if Contains(text, " - ") then Strip(Before(text, " - "))
    else if '|' in text then Strip(BeforeChar(text, '|'))
    else Strip(text)
  }

  /** The `og:title` step for the name: the text before " - ", when no selector gave a name. */
  function NameAfterOg(name: Option<string>, og: Option<string>): Option<string> {
    if OgUsable(og) && !Truthy(name) then Some(Strip(Before(og.value, " - "))) else name
  }

  /** The `og:title` step for the title: the text between the first two " - ", when no selector gave a title. */
  function TitleAfterOg(title: Option<string>, og: Option<string>): Option<string> {
    if OgUsable(og) && !Truthy(title) then Some(Strip(SecondPart(og.value, " - "))) else title
  }

  /** The `<title>` step: a still-empty name is taken from the page title. */
  function NameAfterTitleTag(name: Option<string>, titleTag: Option<string>): Option<string> {
    if !Truthy(name) && titleTag.Some? then Some(TitleFallback(titleTag.value)) else name
  }

  /** The reference definition of the cascade on a parsed page. */
  function Extract(profileUrl: string, dom: ProfileDom): Profile {
    var name := NameAfterTitleTag(NameAfterOg(NameFrom(dom.h1Under, 0), dom.ogTitle), dom.titleTag);
    var title := TitleAfterOg(TitleFrom(dom.textOf, 0), dom.ogTitle);
    var about := if Truthy(dom.ogDescription) then Some(Strip(dom.ogDescription.value)) else None;
    var error := if !Truthy(name) && !Truthy(title) then Some(LoginRequired) else None;
    Profile(profileUrl, name, title, dom.jobTag, about, error)
  }

  /** The name-selector loop: the first selector whose element holds an `<h1>` gives the name. */
  method FindName(h1Under: Selector -> Option<string>) returns (fullName: Option<string>)
    ensures fullName == NameFrom(h1Under, 0)
  {
    fullName := None;
    var i := 0;
    while i < |NameSelectors|
      invariant i <= |NameSelectors|
      invariant NameFrom(h1Under, i) == NameFrom(h1Under, 0)
    {
      var h1 := h1Under(NameSelectors[i]);
      if h1.Some? {
        fullName := h1;
        return;
      }
      i := i + 1;
    }
  }

  /** The title-selector loop: the first selector whose element has non-empty text gives the title. */
  method FindTitle(textOf: Selector -> Option<string>) returns (title: Option<string>)
    ensures title == TitleFrom(textOf, 0)
  {
    title := None;
    var j := 0;
    while j < |TitleSelectors|
      invariant j <= |TitleSelectors|
      invariant TitleFrom(textOf, j) == TitleFrom(textOf, 0)
    {
      var text := textOf(TitleSelectors[j]);
      if Truthy(text) {
        title := text;
        return;
      }
      j := j + 1;
    }
  }

  /** The selector loops and fallbacks on a parsed page, filling the record field by field. */
  method ExtractFields(profileUrl: string, dom: ProfileDom) returns (result: Profile)
    ensures result == Extract(profileUrl, dom)
  {
    var fullName := FindName(dom.h1Under);
    var title: Option<string> := None;
    if !Truthy(title) {
      title := FindTitle(dom.textOf);
    }

    ghost var name0, title0 := fullName, title;
    var og := dom.ogTitle;
    if Truthy(og) {
      if !Truthy(fullName) && Contains(og.value, " - ") {
        fullName := Some(Strip(Before(og.value, " - ")));
      }
      if !Truthy(title) && Contains(og.value, " - ") {
        title := Some(Strip(SecondPart(og.value, " - ")));
      }
    }
    assert fullName == NameAfterOg(name0, og) && title == TitleAfterOg(title0, og);

    var talksAbout: Option<string> := None;
    if Truthy(dom.ogDescription) {
      talksAbout := Some(Strip(dom.ogDescription.value));
    }

    var jobTitle: Option<string> := None;
    if dom.jobTag.Some? {
      jobTitle := dom.jobTag;
    }

    ghost var name1 := fullName;
    if !Truthy(fullName) && dom.titleTag.Some? {
      fullName := Some(TitleFallback(dom.titleTag.value));
    }
    assert fullName == NameAfterTitleTag(name1, dom.titleTag);

    var error: Option<string> := None;
    if !Truthy(fullName) && !Truthy(title) {
      error := Some(LoginRequired);
    }
    result := Profile(profileUrl, fullName, title, jobTitle, talksAbout, error);
  }

  /**
   * `scrape_linkedin_public`. A non-empty `htmlOverride` is parsed as it is, with no CAPTCHA
   * test; otherwise `response` is the profile request's outcome, and a failed request or a
   * CAPTCHA page returns the record with every field `None` and the error set.
   * `parse` stands for the HTML parser.
   */
  method ScrapeLinkedInPublic(profileUrl: string, htmlOverride: Option<string>, response: Fetched<()>,
                              parse: string -> ProfileDom) returns (result: Profile)
    ensures Truthy(htmlOverride) ==> result == Extract(profileUrl, parse(htmlOverride.value))
    ensures !Truthy(htmlOverride) && !Ok(response) ==> result == Failed(profileUrl, RequestFailed)
    ensures !Truthy(htmlOverride) && Ok(response) && IsCaptchaPageText(response.text) ==>
      result == Failed(profileUrl, CaptchaError)
    ensures !Truthy(htmlOverride) && Ok(response) && !IsCaptchaPageText(response.text) ==>
      result == Extract(profileUrl, parse(response.text))
  {
    var html: string;
    if Truthy(htmlOverride) {
      html := htmlOverride.value;
    } else {
      if !Ok(response) {
        return Failed(profileUrl, RequestFailed);
      }
      if IsCaptchaPageText(response.text) {
        return Failed(profileUrl, CaptchaError);
      }
      html := response.text;
    }
    result := ExtractFields(profileUrl, parse(html));
  }

  /**
   * The login-required marker is set exactly when every source of a name and every source
   * of a title came up empty: no selector hit, no usable part of `og:title`, and a `<title>`
   * that is missing or whose fallback text is empty.
   */
  lemma LoginRequiredWhenNothingFound(profileUrl: string, dom: ProfileDom)
    ensures var p := Extract(profileUrl, dom);
      var og := dom.ogTitle;
      && (p.error.Some? ==> p.error == Some(LoginRequired))
      && (p.error.Some? <==>
          && !Truthy(NameFrom(dom.h1Under, 0))
          && TitleFrom(dom.textOf, 0).None?
          && (OgUsable(og) ==> Strip(Before(og.value, " - ")) == [] && Strip(SecondPart(og.value, " - ")) == [])
          && (dom.titleTag.Some? ==> TitleFallback(dom.titleTag.value) == []))
  {
  }

  /** A record with a name or a title never carries an error. */
  lemma FoundFieldsMeanNoError(profileUrl: string, dom: ProfileDom)
    ensures var p := Extract(profileUrl, dom);
      Truthy(p.fullName) || Truthy(p.title) <==> p.error.None?
  {
  }

  /** An `og:title` without " - " changes nothing: the page behaves as if it had none. */
  lemma OgTitleNeedsSeparator(profileUrl: string, dom: ProfileDom)
    requires !OgUsable(dom.ogTitle)
    ensures Extract(profileUrl, dom) == Extract(profileUrl, dom.(ogTitle := None))
  {
  }

  /** Stripping keeps only characters of the text, and adds no occurrence of a pattern. */
  lemma StripAddsNothing(piece: string, sep: string)
    requires !Contains(piece, sep)
    ensures !Contains(Strip(piece), sep)
  {
    var i := StripIsSlice(piece);
    var r := Strip(piece);
    var k := i + |r|;
    assert r == piece[i..k];
    if Contains(r, sep) {
      ContainsInSlice(piece, i, k, sep);
    }
  }

  lemma StripKeepsChars(piece: string)
    ensures forall c :: c in Strip(piece) ==> c in piece
  {
    var i := StripIsSlice(piece);
    assert forall c :: c in piece[i..i + |Strip(piece)|] ==> c in piece;
  }

  /**
   * The `<title>` fallback cuts at the first separator: with " - " in the text the name
   * holds no " - "; otherwise, with "|" in the text, the name holds no "|". Either way the
   * name is made of the text's characters.
   */
  lemma TitleFallbackCutsAtSeparator(text: string)
    ensures var r := TitleFallback(text);
      && (Contains(text, " - ") ==> !Contains(r, " - "))
      && (!Contains(text, " - ") && '|' in text ==> '|' !in r)
      && (forall c :: c in r ==> c in text)
  {
    if Contains(text, " - ") {
      var piece := Before(text, " - ");
      BeforeHasNoSep(text, " - ");
      StripAddsNothing(piece, " - ");
      StripKeepsChars(piece);
      assert forall c :: c in piece ==> c in text;
    } else if '|' in text {
      var piece := BeforeChar(text, '|');
      StripKeepsChars(piece);
      assert forall c :: c in piece ==> c in text;
    } else {
      StripKeepsChars(text);
    }
  }

  /**
   * The value of the `<title>` fallback: the stripped text before the first " - "; without
   * one, the stripped text before the first "|"; without either, the whole text stripped.
   */
  lemma TitleFallbackValue(text: string)
    ensures Contains(text, " - ") ==>
      var i := Find(text, " - ").value;
      && (forall j :: 0 <= j < i ==> !(" - " <= text[j..]))
      && TitleFallback(text) == Strip(text[..i])
    ensures !Contains(text, " - ") && '|' in text ==>
      var i := |BeforeChar(text, '|')|;
      && i < |text| && text[i] == '|' && '|' !in text[..i]
      && TitleFallback(text) == Strip(text[..i])
    ensures !Contains(text, " - ") && '|' !in text ==> TitleFallback(text) == Strip(text)
  {
    FindIsFirst(text, " - ");
    if !Contains(text, " - ") && '|' in text {
      var piece := BeforeChar(text, '|');
      assert text[..|piece|] == piece;
    }
  }
}
