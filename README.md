# Harvey: a verified model of the evidence pipeline, the chat agent and the token file

Harvey gathers public signals about a named person. It searches DuckDuckGo and Bing for
LinkedIn profile links, scrapes the profiles it finds, looks the person up on GitHub, picks
a portfolio link, and assembles everything into a "professional snapshot" with a table of
rows. A rule-based chat agent (`HarveyAgent`) turns messages into tool calls and keeps the
investigation state. A small configuration module reads and writes the GitHub token in a
`.env` file.

This project models that core in Dafny and proves properties of it. Every network reply,
parsed page and tool result is an input to the model.

- `wrappers.dfy` (`Wrappers`): the `Option` type.
- `text.dfy` (`Text`): the Python `str` operations the code relies on. These are the
  `isspace` class, `strip`, `split`, `in`, `startswith`, ASCII `lower`/`title` and `str(n)`.
- `fetch.dfy` (`Fetch`): what a GET yields (no response, or a status, body text and parsed
  body), the truthiness of a `requests.Response`, and the CAPTCHA phrase test.
- `links.dfy` (`Links`): the anchor loops of the DuckDuckGo/Bing LinkedIn searches and of
  the people search.
- `search.dfy` (`Search`): the DuckDuckGo → Bing → guessed-slug cascade.
- `scrape.dfy` (`Scrape`): the field cascade of the LinkedIn profile scraper.
- `github.dfy` (`GitHub`): the username rule (including the path that `urlparse` computes),
  the stable star sort with truncation, the user and repository replies, and the user search.
- `portfolio.dfy` (`Portfolio`): the blog-first priority rule and the `https?://[^\s]+`
  match.
- `assembly.dfy` (`Assembly`): `build_professional_snapshot` over an abstract `World` of
  replies.
- `agent.dfy` (`Agent`): name extraction, the ordered decision rules, the tool dispatcher,
  the report, and the `HarveyAgent` class that holds the three state fields and the message
  list.
- `config.dfy` (`Config`): the line logic of loading and saving the token, including
  universal-newline reading, and the acceptance checks of the interactive setup.

The code does less than some of its names suggest:

- The code has no GitHub-validation status.
- It has no LinkedIn-from-bio extraction.
- It removes no trailing slashes.
- It never replaces search candidates with a GitHub-derived profile.
- The agent reads `validation_status` and `linkedin_from_github` (agent.py:167, agent.py:178),
  but nothing ever writes them, so the model has neither.
- The search cascade never returns an empty list, so the people-search record at
  tools.py:392-395 is never added. `BuildProfessionalSnapshot` proves that every record is a
  scraped profile.

The collected LinkedIn links do not always contain `"linkedin.com/in/"`. The code tests the
marker on the raw href and only then cuts off the query string. An anchor
`http://x?linkedin.com/in/jane` is therefore collected as `http://x`. The lemmas
`HarvestedLinkMayLackMarker` and `MarkerOnlyInQueryExists` prove this. `HarvestLinksAreProfiles`
states the property that does hold: each link comes from an href that contains the marker.

## Model

| member | source | states |
|---|---|---|
| Fetch.IsCaptchaPageText | tools.py:51-54 | true exactly when the lower-cased text contains one of the five phrases |
| Fetch.CaptchaIgnoresCase | tools.py:51-54 | lower-casing the page first does not change the verdict |
| Links.Clean | tools.py:87 | the cleaned href is a prefix of the href and has no '?' and no '#' |
| Links.CollectLinkedInLinks | tools.py:83-91 | the loop computes the reference harvest (distinct cleaned links of qualifying anchors up to the stopping point); it holds at most `max_results` links, or one when the bound is below 1 |
| Links.HarvestLinksAreProfiles | tools.py:84-91 | every harvested link is distinct, absolute, free of '?' and '#', and was cut from an href that contains "linkedin.com/in/" |
| Links.HarvestStep | tools.py:84-91 | one loop turn either stops with the harvest (within the bound) or keeps the loop invariant |
| Links.HarvestOfOne | tools.py:84-91 | a page with one anchor yields its cleaned form exactly when the anchor qualifies |
| Links.HarvestedLinkMayLackMarker | tools.py:86-88 | an anchor whose marker sits only in the query string is harvested without the marker |
| Links.MarkerOnlyInQueryExists | tools.py:86-88 | such an anchor exists: "http://x?linkedin.com/in/jane" holds the marker only in its query and is harvested as "http://x" |
| Links.CollectPeopleLinks | tools.py:138-144 | the loop returns the first five absolute, non-DuckDuckGo hrefs in document order |
| Links.PeopleCandidatesKeepRepeats | tools.py:139-142 | repeats are not removed: a qualifying href appears as often as on the page |
| Links.PeopleLinksQualify | tools.py:139-144 | every people-search link starts with "http" and does not contain "duckduckgo.com" |
| Links.FallbackPeopleSearch | tools.py:128-146 | no links for a failed or CAPTCHA page; otherwise the first five qualifying hrefs in page order; never more than five |
| Search.Slug | tools.py:64 | the guessed slug has no space and no '.' |
| Search.SlugAppend | tools.py:64 | the slug works character by character: the slug of a concatenation is the concatenation of the slugs |
| Search.SlugOfChar | tools.py:64 | a space becomes '-', a '.' is dropped, any other character is lower-cased |
| Search.SlugKeepsPlainName | tools.py:64 | a name with no upper-case letter, space or '.' is its own slug |
| Search.SlugOfTwoWords | tools.py:64 | "First Last" gives the slug of the first word, '-', then the slug of the last |
| Search.BingSearchForLinkedIn | tools.py:105-125 | empty for a failed or CAPTCHA reply, otherwise the harvest of the page |
| Search.SearchLinkedInFootprints | tools.py:61-102 | the cascade follows the reference definition (DuckDuckGo, then Bing, then the guessed URL) and never returns an empty list |
| Search.FootprintsAreUrls | tools.py:64-102 | every URL the cascade returns is absolute, and the list is never empty |
| Scrape.FindName | tools.py:223-229 | the name is the `<h1>` of the first name selector whose element holds one |
| Scrape.FindTitle | tools.py:232-242 | the title is the first non-empty text among the title selectors |
| Scrape.ExtractFields | tools.py:213-283 | the field-by-field fill equals the reference cascade: selectors, then `og:title`, then `<title>`, then the error marker |
| Scrape.ScrapeLinkedInPublic | tools.py:173-211 | a failed request or a CAPTCHA page gives the all-`None` record with `error` set; an override or a usable page goes through the cascade |
| Scrape.LoginRequiredWhenNothingFound | tools.py:278-280 | the error is "login_required_or_profile_not_found", and it is set exactly when every name and title source came up empty |
| Scrape.FoundFieldsMeanNoError | tools.py:279-280 | a record has no error exactly when it has a name or a title |
| Scrape.OgTitleNeedsSeparator | tools.py:245-253 | an `og:title` that is missing, empty or without " - " has no effect on the record |
| Scrape.TitleFallbackCutsAtSeparator | tools.py:266-276 | with " - " in the text the name holds no " - "; otherwise, with "\|" in the text, it holds no "\|"; it uses only the text's characters |
| Scrape.TitleFallbackValue | tools.py:266-276 | the name is the stripped text before the first " - "; without one, the stripped text before the first "\|"; without either, the whole text stripped |
| GitHub.SortIsDescending | tools.py:341 | the sorted repositories have non-increasing star counts (a missing count is 0) |
| GitHub.SortIsPermutation | tools.py:341 | the sort is a permutation of its input |
| GitHub.SortIsStable | tools.py:341 | repositories with equal star counts keep their input order |
| GitHub.TakeCount | tools.py:345 | the slice length is `min(max_repos, len(repos))`, with Python's rule for a negative bound |
| GitHub.TopReposAreBest | tools.py:341-346 | `top_repos` has the slice length, is a prefix of the sorted list, is descending, and draws each entry from the input |
| GitHub.UsernameOfUrl | tools.py:297-301 | the username of "scheme://host/name" is `name` |
| GitHub.UsernameWithoutScheme | tools.py:297-301 | without a scheme, the username of "host/name" is the host |
| GitHub.UsernameHasNoSlash | tools.py:297-299 | a username taken from a URL contains no '/' |
| GitHub.FetchGitHubProfile | tools.py:286-349 | an error exactly when the user reply is missing, not 200 or not JSON; otherwise the username rule and the top repositories of a 200 list reply (none for anything else) |
| GitHub.FetchGitHubProfileAsWritten | tools.py:309-311 | the code as written errs in the same cases as the corrected form |
| GitHub.NotFoundReadsAsNoResponse | tools.py:311 | as written, a 404 reply is reported as "github_status_no_response"; the corrected rule reports "github_status_404" |
| GitHub.StatusErrorNamesMissingReply | tools.py:311 | the corrected error says "no_response" exactly when no reply arrived |
| GitHub.FindGitHubByName | tools.py:153-171 | raises exactly when a 200 reply's body is not JSON (`r.json()` at tools.py:165); returns the first login exactly when a 200 reply has items, and `None` for a missing or non-200 reply or no items |
| Portfolio.TextUrl | tools.py:365-374 | a URL found in text starts with "http", has no whitespace and does not end in '.', ',' or ';' |
| Portfolio.SearchFindsLeftmost | tools.py:372 | the search finds nothing exactly when no match starts anywhere; otherwise it returns the match at the leftmost position where one starts, and no match starts before it |
| Portfolio.UsableBlog | tools.py:359-361 | a usable blog is non-empty, not "null" and starts with "http" |
| Portfolio.FindPortfolioLink | tools.py:352-379 | the nested loops compute the reference rule (blog loop first, then sources by key order) |
| Portfolio.BlogWins | tools.py:358-363 | the first usable blog is the answer whatever the text fields hold |
| Portfolio.TextScanOrder | tools.py:366-376 | without a usable blog, the answer is the URL of the first field in scan order: source by source, and within a source talks_about, title, bio, full_name |
| Portfolio.NoneWhenNothingMatches | tools.py:358-379 | the result is `None` exactly when no blog is usable and no field holds a URL |
| Portfolio.LinkShape | tools.py:358-376 | every answer is absolute and not "null"; a text answer has no whitespace and no trailing '.', ',' or ';' |
| Assembly.Sources | tools.py:423 | one portfolio source per record, plus one for the GitHub profile when there is one |
| Assembly.ScrapeAll | tools.py:397-404 | one scraped record per URL, in order |
| Assembly.LinkedInRecords | tools.py:388-404 | with search on, one scraped record per footprint URL, in order; with search off, no records. The people-search record never arises, because the cascade never returns an empty list |
| Assembly.LookUpGitHub | tools.py:406-414 | raises when the name search raises; otherwise the profile is the hint, or else the name search's login, fetched and kept only when the fetch gives no error |
| Assembly.TableRows | tools.py:426-449 | one row per record in order, then the GitHub row when there is a profile |
| Assembly.BuildProfessionalSnapshot | tools.py:381-453 | raises exactly when the GitHub lookup raises, with its message; otherwise one record per searched URL; profiles-found parallel to the records; the GitHub lookup's profile; the portfolio over GitHub first, then the records; `len(results)` rows plus one for GitHub |
| Assembly.HintSkipsNameSearch | tools.py:408 | a given hint is used, nothing is raised, and the name search plays no part |
| Assembly.BadSearchReplyRaises | tools.py:406-409 | the snapshot's GitHub lookup raises exactly when there is no hint and the user search gives a 200 reply whose body is not JSON; the message is the parse error's |
| Assembly.GitHubErrorsAreDropped | tools.py:407-414 | no GitHub profile when there is no candidate or its fetch errs; a kept profile belongs to the candidate's username |
| Assembly.GitHubBlogComesFirst | tools.py:423 | a usable GitHub blog beats every URL in the LinkedIn records |
| Agent.CommandIndex | agent.py:24 | the index of the first command alternative that is followed by whitespace |
| Agent.StripFirst | agent.py:24 | with no command (followed by whitespace) at the start, the text is unchanged |
| Agent.StripFirstIsSuffix | agent.py:24 | what is left is a suffix of the text |
| Agent.StripFirstRemovesFirst | agent.py:24 | when alternative k is the first that matches, exactly it and the whitespace run after it are removed |
| Agent.CleanedInput | agent.py:24-25 | the stripped remainder of a lower-case text is lower-case and has no whitespace at either end |
| Agent.StripAfterCommand | agent.py:24-25 | stripped, the remainder is the text after the first matching command, stripped |
| Agent.ExtractName | agent.py:22-29 | the name has the length of the lower-cased input once the leading command is removed and the rest is stripped |
| Agent.ExtractNameShape | agent.py:22-29 | lower-cased, the name is the cleaned input; it is title-cased and has no whitespace at either end |
| Agent.ExtractNameAfterCommand | agent.py:22-29 | after the first matching command, the name is the rest of the input, stripped (up to case) |
| Agent.ExtractNameWithoutCommand | agent.py:22-29 | with no command at the start, the name is the whole input, stripped (up to case) |
| Text.TitleCases | agent.py:27-29 | `title()` changes letter case only: it keeps the lower-cased text and the whitespace, and leaves each run of letters upper-case first, lower-case after |
| Agent.TwoAlphaWordsOfSplit | agent.py:40 | letters, whitespace, letters always match the bare-name pattern |
| Agent.NameShapeHasTwoWords | agent.py:40-41 | the word-count half of the test adds nothing to the pattern |
| Agent.CuesAreWellFormed | agent.py:40-43 | a bare name never gives an empty target |
| Agent.BareNameStartsInvestigation | agent.py:40-44 | two letter words (and no report request with data) start an investigation of the title-cased input |
| Agent.ReportNeedsData | agent.py:35-37 | the report is chosen exactly when a report phrase is present and there is data |
| Agent.LateNameRuleIsDead | agent.py:65-68 | the second bare-name rule never fires |
| Agent.TriggerTurnsModeOn | agent.py:46-51 | a trigger phrase sets investigation mode even when no name is found; the target changes exactly when the name has two words |
| Agent.ModeStaysOn | agent.py:31-69 | investigation mode, once on, stays on |
| Agent.FollowUpUsesTarget | agent.py:53-59 | follow-ups need mode and a target, run on that target, and prefer GitHub, then LinkedIn, then portfolio/website |
| Agent.OtherwiseFinish | agent.py:61-69 | with no other rule applying, the action is "finish" and the target is kept |
| Agent.Lookup | agent.py:76 | the tool found carries the name; `None` only when no tool does |
| Agent.LookupFindsTool | agent.py:76 | every registered tool is found under its own name |
| Agent.ToolNamesDiffer | tools.py:456-464 | the registered tool names are distinct |
| Agent.ToolNameIsNotReport | agent.py:73-76 | no registered tool is called "generate_report" |
| Agent.StepNameRunsStep | agent.py:136-139 | running a decided step by its name runs that step |
| Agent.Report | agent.py:105-116 | an error exactly when there is no data; otherwise the report holds the target and the data |
| Agent.UnknownToolChangesNothing | agent.py:76-78 | an unknown name gives an error and changes no data |
| Agent.SnapshotReplacesData | agent.py:82-85 | a returned snapshot replaces the data and is the reply |
| Agent.FailedCallChangesNothing | agent.py:79-103 | a call with unusable arguments, or one whose tool raises, gives an error reply and leaves the data as it was |
| Agent.FollowUpToolsSetOneKey | agent.py:89-92 | the GitHub and LinkedIn follow-up tools set only their own key; the people search sets none |
| Agent.DataIsNeverLost | agent.py:82-92 | once there is data, no step empties it |
| Agent.DecisionKeepsConsistency | agent.py:31-103 | a decision plus its step keep the agent state consistent: a non-empty target only in investigation mode, data only with a target |
| Agent.MessageKeepsConsistency | agent.py:118-153 | the same for one message, from its text |
| Agent.HarveyAgent.constructor | agent.py:15-20 | a new agent is not in investigation mode, has no target and no data |
| Agent.HarveyAgent.SimpleAiDecision | agent.py:31-69 | the action, mode and target follow the ordered rules; the data is unchanged |
| Agent.HarveyAgent.DecideOnCues | agent.py:35-69 | the rule cascade in the source's order on the cues of the message |
| Agent.HarveyAgent.GenerateComprehensiveReport | agent.py:105-116 | the reply is the report of the current target and data |
| Agent.HarveyAgent.RunTool | agent.py:71-103 | the reply and new data are the dispatcher's; mode and target are unchanged |
| Agent.Format | agent.py:141-150 | the reply is rendered, except that the LinkedIn formatter raises on an error reply (agent.py:209 slices the error dictionary), which gives `None` |
| Agent.LinkedInFailureRaises | agent.py:143-144 | a decided LinkedIn step (agent.py:53-59) runs on the current target; formatting raises exactly when that tool call raises, and then the data is unchanged |
| Agent.HarveyAgent.Respond | agent.py:126-153 | a finish is answered by the fixed texts with no data change; any other step is run and its result formatted, `None` when the formatter raises |
| Agent.HarveyAgent.Answer | agent.py:124-150 | the state follows the decision and the step, the answer is the finish text or the formatted reply, and consistency is kept |
| Agent.Conversation.Log | agent.py:122 | appends exactly the given message |
| Agent.Conversation.LogReply | agent.py:152 | appends the assistant's answer (here and at agent.py:133) when there is one, and nothing otherwise |
| Agent.HarveyAgent.ProcessMessage | agent.py:118-153 | appends the user message, then the assistant reply unless formatting raised; the state follows the decision and the step; consistency is kept |
| Config.Lines | harvey/config.py:38 | iterating a file yields non-empty lines, each ending in its only newline except possibly the last |
| Config.ConcatOfLines | harvey/config.py:59 | the lines, joined again, are exactly the text: nothing is lost or added |
| Config.Load | harvey/config.py:26-48 | a non-empty environment value wins; with no file the result is "" |
| Config.LoadGitHubToken | harvey/config.py:26-48 | the line loop with early return computes the reference load |
| Config.FirstValueIsFirst | harvey/config.py:38-44 | a found value comes from the first line that passes the key test, and no earlier line passes it |
| Config.NoKeyLineNoValue | harvey/config.py:38-48 | with no such line there is no token |
| Config.LoadIsFirstToken | harvey/config.py:33-48 | a non-empty result needs a token line; with none the result is "" |
| Config.KeyLineValue | harvey/config.py:39-41 | a written token line is a token line whose value is the stripped token, even when it contains '=' |
| Config.Without | harvey/config.py:59 | the kept lines are lines of the file and none is a token line |
| Config.WithoutAppend | harvey/config.py:59 | the filter works line by line: filtering a concatenation concatenates the filtered parts, so order is kept |
| Config.WithoutOne | harvey/config.py:59 | a single line is dropped exactly when it passes the key test |
| Config.WithoutNoKey | harvey/config.py:59 | with no line passing the key test, every line is kept |
| Config.KeptAroundLine | harvey/config.py:59 | a non-token line is kept, in its place between what is kept before and after it |
| Config.SaveWithoutTokenLines | harvey/config.py:55-65 | saving into a file with no token line writes the file's text back unchanged (with newlines translated), then the token line |
| Config.SaveGitHubToken | harvey/config.py:50-74 | writes the kept lines, then `GITHUB_TOKEN=<token>\n`, and sets the environment value |
| Config.ReadBack | harvey/config.py:38 | lines that end in a newline and have no '\r' read back as the same lines after being written out |
| Config.LoadAfterSave | harvey/config.py:38-65 | loading after saving gives the stripped token, if the token has no line break and the last kept line ends with a newline |
| Config.SaveLeavesOneTokenLine | harvey/config.py:55-65 | after saving, the token line is the only one and the last, after the kept lines |
| Config.SaveCanLoseToken | harvey/config.py:59-65 | a file holding one line with no final newline (not starting with whitespace or 'G') gets the token line glued onto that line, and loading the saved file gives "" |
| Config.LoadAfterFixedSave | harvey/config.py:59-65 | with a newline added to an unterminated last line, loading always gives back the stripped token |
| Config.SetupGitHubToken | harvey/config.py:94-138 | a token is saved exactly when setup proceeds and the stripped entry has at least 20 characters; the result is the token test's verdict, or whether an existing token was kept |

## Findings

| source | as written | input that shows it | evidently intended | confidence | as-written member | corrected member |
|---|---|---|---|---|---|---|
| tools.py:311 | `r.status_code if r else 'no_response'`: a `Response` is falsy for every status from 400 to 599 | the user reply has status 404 | "github_status_404" | high (not executed) | GitHub.NotFoundReadsAsNoResponse | GitHub.StatusErrorNamesMissingReply |
| harvey/config.py:59-65 | the kept lines are written as they are, then the token line | an `.env` holding just "A=b" with no final newline, saved with token "t": the file becomes "A=bGITHUB_TOKEN=t\n" and loads as "" | the token line on a line of its own | medium (not executed) | Config.SaveCanLoseToken | Config.LoadAfterFixedSave |

`GitHub.FetchGitHubProfile`, which the snapshot uses, reports the status with the corrected
rule. `Config.SaveGitHubToken` stays as written. The round-trip `Config.LoadAfterSave`
states the condition under which that written form is still correct.

## Left out

- HTTP is not modelled: `requests.get`, the retry loop of `_safe_get`, timeouts, `time.sleep`
  and `random`. Each reply is an input: no response, or a status, body text and parsed body.
- HTML parsing (BeautifulSoup/lxml) is not modelled. Each selector lookup is an abstract
  `Option<string>` answer of a `ProfileDom`, and a results page is its list of anchor hrefs.
  The experience-section lookup for `job_title` is one such answer.
- `quote_plus` and the search and API URLs built from the name are not modelled, because the
  reply to each request is an input.
- JSON decoding is abstract. A reply is decoded JSON or a parse error; the parse error raises
  in the user search and the snapshot, and is caught by the agent's dispatcher. Malformed items, such
  as a search item without "login" or a repository entry that is not a dict, are not modelled.
- `GitHub.Repo`: a present-but-null `stargazers_count` is not modelled. The model has only a
  present or a missing count, and a missing one sorts as 0. In the code a null count is read
  as `None`, and the sort at tools.py:341 (outside the `try` of tools.py:334-339) raises a
  `TypeError` when it compares that `None` with a number; the model has no such raise.
- pandas is not modelled: the DataFrame is a sequence of `Row` records.
- The text of the `_format_*` reply formatters is left out: where they return, they are the
  parameter `render`. The one case where a formatter raises (the LinkedIn formatter on an
  error reply) is modelled by `Agent.Format`.
- Exceptions raised inside the snapshot's scrape loop (tools.py:399-404) are not modelled,
  because the scraper already turns request failures into error records.
- Python's full Unicode case mapping is not modelled: `lower()` and `title()` act on ASCII
  letters only.
- `urlparse` is modelled only as far as the path component. IPv6 hosts and other netloc
  validation are not modelled.
- GitHub.Username: does not model the clean-up that `urlsplit` applies first in recent Python
  versions (deleting tab, CR and LF; stripping leading C0 controls and spaces), so for
  " https://github.com/octocat" the model gives " https:" where such a Python gives "octocat".
- Config: the config directory, `mkdir`, `chmod`, the writes to `os.environ`, the Rich
  prompts and panels, and read or write exceptions are left out. A file is its text, or
  `None` when it does not exist.
- The `offline_htmls` parameter of `build_professional_snapshot` (tools.py:385) is accepted but
  never read, so the model has no such parameter.
- `Config.SetupGitHubToken` assumes the save succeeds. `test_github_token` is a network call,
  so its verdict is an input.
- `harvey/cli.py`, `main.py`, `setup.py`, `harvey/__init__.py` and `harvey/utils.py` are not
  part of this model. They are the terminal loop, the entry point, packaging, re-exports and
  file loading.
