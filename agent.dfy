/**
 * `HarveyAgent`: the rule-based decision of what to do with one chat message, the tool
 * dispatcher with the investigation state it keeps, the on-demand report and the
 * conversation bookkeeping of `process_message`. The tools themselves and the reply
 * formatters are parameters.
 */
module Agent {
  import opened Wrappers
  import opened Text
  import opened Fetch
  import opened Assembly

  // ---------------------------------------------------------------------------------------
  // Name recognition
  // ---------------------------------------------------------------------------------------

  /** The command words `_extract_name_from_input` removes, in the regex's order of alternatives. */
  const CommandPhrases: seq<string> :=
    ["research", "investigate", "analyze", "find info on", "look up", "search for", "find",
     "report on", "make report on"]

  /** The alternative `p` of `^(...)\s+` matches at the start of `s`: `p` followed by whitespace. */
  predicate CommandAt(s: string, p: string) {
    p <= s && |p| < |s| && IsSpace(s[|p|])
  }

  /** The index of the first phrase of `ps` that starts `s` and is followed by whitespace (`|ps|` if none). */
  function CommandIndex(s: string, ps: seq<string>): (k: nat)
    ensures k <= |ps|
    ensures k < |ps| ==> CommandAt(s, ps[k])
    ensures forall j :: 0 <= j < k ==> !CommandAt(s, ps[j])
  {
    if ps == [] then 0
    else if CommandAt(s, ps[0]) then 0
    else 1 + CommandIndex(s, ps[1..])
  }

  /**
   * `re.sub(r'^(p0|p1|...)\s+', '', s)` for the alternatives `ps`: the first alternative that
   * is followed by whitespace is removed together with the whole whitespace run after it;
   * with no such alternative `s` is unchanged.
   */
  function StripFirst(s: string, ps: seq<string>): (r: string)
    ensures (forall j :: 0 <= j < |ps| ==> !CommandAt(s, ps[j])) ==> r == s
  {
    var k := CommandIndex(s, ps);
    if k < |ps| then LStrip(s[|ps[k]|..]) else s
  }

  /** What is left is a suffix of the text. */
  lemma StripFirstIsSuffix(s: string, ps: seq<string>) returns (n: nat)
    ensures n <= |s| && StripFirst(s, ps) == s[n..]
  {
    var k := CommandIndex(s, ps);
    n := 0;
    if k < |ps| {
      var t := s[|ps[k]|..];
      var r := LStrip(t);
      n := |ps[k]| + |t| - |r|;
      assert r == t[|t| - |r|..];
    }
  }

  /** When alternative `k` is the first that matches, it and the whitespace after it are what is removed. */
  lemma StripFirstRemovesFirst(s: string, ps: seq<string>, k: nat)
    requires k < |ps| && CommandAt(s, ps[k])
    requires forall j :: 0 <= j < k ==> !CommandAt(s, ps[j])
    ensures StripFirst(s, ps) == LStrip(s[|ps[k]|..])
  {
    var c := CommandIndex(s, ps);
    assert c == k;
    assert StripFirst(s, ps) == LStrip(s[|ps[c]|..]);
  }

  /** The substitution of `_extract_name_from_input`, with its nine command phrases. */
  function StripCommand(s: string): string {
    StripFirst(s, CommandPhrases)
  }

  /** A text without upper-case letters, its command removed and stripped: still without them, and with no whitespace at either end. */
  lemma CleanedInput(s: string, ps: seq<string>)
    requires HasNoUpper(s)
    ensures var c := Strip(StripFirst(s, ps));
      HasNoUpper(c) && (c == [] || (!IsSpace(c[0]) && !IsSpace(c[|c| - 1])))
  {
    var cmd := StripFirst(s, ps);
    var i := StripIsSlice(cmd);
    var n := StripFirstIsSuffix(s, ps);
    SliceHasNoUpper(s, n, |s|);
    SliceHasNoUpper(cmd, i, i + |Strip(cmd)|);
    StripEnds(cmd);
  }

  /** Stripping after the command is removed is stripping what follows the command. */
  lemma StripAfterCommand(s: string, ps: seq<string>, k: nat)
    requires k < |ps| && CommandAt(s, ps[k])
    requires forall j :: 0 <= j < k ==> !CommandAt(s, ps[j])
    ensures Strip(StripFirst(s, ps)) == Strip(s[|ps[k]|..])
  {
    var l := LStrip(s[|ps[k]|..]);
    StripFirstRemovesFirst(s, ps, k);
    assert l == [] || !IsSpace(l[0]);
    assert LStrip(l) == l;
  }

  /**
   * `_extract_name_from_input`: lower-case, remove one leading command, strip, title-case.
   * The source's two return statements give the same value, so there is one path.
   * `ExtractNameShape` characterises the result.
   */
  function ExtractName(input: string): (r: string)
    ensures |r| == |Strip(StripCommand(Lower(input)))|
  {
    Title(Strip(StripCommand(Lower(input))))
  }

  /**
   * Up to letter case the extracted name is the cleaned input; it is title-cased and has no
   * whitespace at either end.
   */
  lemma ExtractNameShape(input: string)
    ensures var r := ExtractName(input);
      && Lower(r) == Strip(StripCommand(Lower(input)))
      && IsTitleCased(r)
      && (r == [] || (!IsSpace(r[0]) && !IsSpace(r[|r| - 1])))
  {
    var cleaned := Strip(StripCommand(Lower(input)));
    LowerHasNoUpper(input);
    CleanedInput(Lower(input), CommandPhrases);
    LowerHasNoUpper(cleaned);
    TitleCases(cleaned);
  }

  /** Removing the first command that matches leaves the rest of the input, stripped, as the name (up to case). */
  lemma ExtractNameAfterCommand(input: string, k: nat)
    requires k < |CommandPhrases| && CommandAt(Lower(input), CommandPhrases[k])
    requires forall j :: 0 <= j < k ==> !CommandAt(Lower(input), CommandPhrases[j])
    ensures Lower(ExtractName(input)) == Strip(Lower(input)[|CommandPhrases[k]|..])
  {
    ExtractNameShape(input);
    StripAfterCommand(Lower(input), CommandPhrases, k);
  }

  /** With no command at the start, the name is the whole input, stripped (up to case). */
  lemma ExtractNameWithoutCommand(input: string)
    requires forall j :: 0 <= j < |CommandPhrases| ==> !CommandAt(Lower(input), CommandPhrases[j])
    ensures Lower(ExtractName(input)) == Strip(Lower(input))
  {
    assert StripCommand(Lower(input)) == Lower(input);
    ExtractNameShape(input);
  }

  /** The length of the run of ASCII letters at the start of `s`. */
  function LetterRun(s: string): (n: nat)
    ensures n <= |s|
    ensures AllLetters(s[..n])
    ensures n < |s| ==> !IsAsciiLetter(s[n])
  {
    if s == [] || !IsAsciiLetter(s[0]) then 0 else 1 + LetterRun(s[1..])
  }

  /** The length of the run of whitespace at the start of `s`. */
  function SpaceRun(s: string): (n: nat)
    ensures n <= |s|
    ensures forall i :: 0 <= i < n ==> IsSpace(s[i])
    ensures n < |s| ==> !IsSpace(s[n])
  {
    if s == [] || !IsSpace(s[0]) then 0 else 1 + SpaceRun(s[1..])
  }

  /** `re.match(r'^[a-zA-Z]+\s+[a-zA-Z]+$', s)` on a stripped string (which has no final newline). */
  predicate TwoAlphaWords(s: string) {
    var n := LetterRun(s);
    var m := SpaceRun(s[n..]);
    0 < n && 0 < m && n + m < |s| && AllLetters(s[n + m..])
  }

  /** The test of `_simple_ai_decision` for a bare name: the regex on the stripped input and at least two words. */
  predicate NameLike(input: string) {
    TwoAlphaWords(Strip(input)) && |Words(input)| >= 2
  }

  // ---------------------------------------------------------------------------------------
  // Decision
  // ---------------------------------------------------------------------------------------

  const ReportTriggers: seq<string> :=
    ["make report", "generate report", "show report", "give me the report", "what did you find"]
  const InvestigationTriggers: seq<string> :=
    ["research", "investigate", "analyze", "find info", "look up", "search for", "find", "report on"]
  const GreetingTriggers: seq<string> := ["hello", "hi", "hey", "greetings"]

  /** The registered tools. */
  datatype Tool =
    | SearchLinkedInFootprints | ScrapeLinkedInPublic | FetchGitHubProfile | FindPortfolioLink
    | FindGitHubByName | FallbackPeopleSearch | BuildProfessionalSnapshot

  /** The registry, in order. */
  const Registry: seq<Tool> :=
    [SearchLinkedInFootprints, ScrapeLinkedInPublic, FetchGitHubProfile, FindPortfolioLink,
     FindGitHubByName, FallbackPeopleSearch, BuildProfessionalSnapshot]

  /** A tool's registered name. */
  function ToolName(t: Tool): string {
    match t
    case SearchLinkedInFootprints => "search_linkedin_footprints"
    case ScrapeLinkedInPublic => "scrape_linkedin_public"
    case FetchGitHubProfile => "fetch_github_profile"
    case FindPortfolioLink => "find_portfolio_link"
    case FindGitHubByName => "find_github_by_name"
    case FallbackPeopleSearch => "fallback_people_search"
    case BuildProfessionalSnapshot => "build_professional_snapshot"
  }

  const ReportName := "generate_report"
  const FinishName := "finish"

  /** The "action" of a decision: the report, a registered tool, or finishing. */
  datatype Step = GenerateReport | Run(tool: Tool) | Finish

  /** The "action" value as text. */
  function StepName(s: Step): string {
    match s
    case GenerateReport => ReportName
    case Run(t) => ToolName(t)
    case Finish => FinishName
  }

  /** The keyword arguments of an action: none, or `name=...`. */
  datatype ToolArgs = NoArgs | NameArg(name: string)

  /** `{"action": step, "args": args}`; a missing "args" is `NoArgs`. */
  datatype Action = Action(step: Step, args: ToolArgs)

  /** Which rule of `_simple_ai_decision` produced the action. */
  datatype Rule = ReportRule | NameRule | TriggerRule | FollowUpRule | GreetingRule | LateNameRule | DefaultRule

  /** The action together with the investigation mode and target the decision leaves behind. */
  datatype Decision = Decision(action: Action, mode: bool, target: Option<string>, rule: Rule)

  /**
   * What the rules test in a message: the phrase families and keywords (on the lower-cased
   * text), the bare-name test, the title-cased stripped text and the extracted name.
   */
  datatype Cues = Cues(report: bool, bareName: bool, bare: string, trigger: bool, extracted: string,
                       github: bool, linkedin: bool, site: bool, greeting: bool)

  function CuesOf(input: string): Cues {
    var low := Lower(input);
    Cues(AnyContained(low, ReportTriggers), NameLike(input), Title(Strip(input)),
         AnyContained(low, InvestigationTriggers), ExtractName(input),
         Contains(low, "github"), Contains(low, "linkedin"),
         Contains(low, "portfolio") || Contains(low, "website"),
         AnyContained(low, GreetingTriggers))
  }

  /** The rules after the two investigation starters: follow-ups on the current target, greetings, the rest. */
  function FollowUp(mode: bool, target: Option<string>, c: Cues): Decision {
    if mode && Truthy(target) && c.github then
      Decision(Action(Run(FindGitHubByName), NameArg(target.value)), mode, target, FollowUpRule)
    else if mode && Truthy(target) && c.linkedin then
      Decision(Action(Run(SearchLinkedInFootprints), NameArg(target.value)), mode, target, FollowUpRule)
    else if mode && Truthy(target) && c.site then
      Decision(Action(Run(BuildProfessionalSnapshot), NameArg(target.value)), mode, target, FollowUpRule)
    else if c.greeting then
      Decision(Action(Finish, NoArgs), mode, target, GreetingRule)
    else if c.bareName then
      Decision(Action(Run(BuildProfessionalSnapshot), NameArg(c.bare)), true, Some(c.bare), LateNameRule)
    else
      Decision(Action(Finish, NoArgs), mode, target, DefaultRule)
  }

  /** The rules of `_simple_ai_decision` in order, on the cues of the message. */
  function DecideOn(mode: bool, target: Option<string>, hasData: bool, c: Cues): Decision {
    if c.report && hasData then
      Decision(Action(GenerateReport, NoArgs), mode, target, ReportRule)
    else if c.bareName then
      Decision(Action(Run(BuildProfessionalSnapshot), NameArg(c.bare)), true, Some(c.bare), NameRule)
    else if c.trigger && c.extracted != [] && |Words(c.extracted)| >= 2 then
      Decision(Action(Run(BuildProfessionalSnapshot), NameArg(c.extracted)), true, Some(c.extracted), TriggerRule)
    else
      FollowUp(mode || c.trigger, target, c)
  }

  /** `_simple_ai_decision`, given the mode, the target and whether any investigation data is held. */
  function Decide(mode: bool, target: Option<string>, hasData: bool, input: string): Decision {
    DecideOn(mode, target, hasData, CuesOf(input))
  }

  // ---------------------------------------------------------------------------------------
  // Tools and the investigation state
  // ---------------------------------------------------------------------------------------

  /** `next((t for t in tools if t["name"] == name), None)`. */
  function Lookup(name: string, reg: seq<Tool>): (r: Option<Tool>)
    ensures r.Some? ==> r.value in reg && ToolName(r.value) == name
    ensures r.None? ==> forall t :: t in reg ==> ToolName(t) != name
  {
    if reg == [] then None
    else if ToolName(reg[0]) == name then Some(reg[0])
    else Lookup(name, reg[1..])
  }

  /** `investigation_data`: a snapshot dictionary, plus the keys the two follow-up tools set. */
  datatype InvestigationData = InvestigationData(
    snapshot: Option<Snapshot>,
    githubSearch: Option<Option<string>>,
    linkedinSearch: Option<seq<string>>)

  const NoData := InvestigationData(None, None, None)

  /** The dictionary is truthy: it has at least one key (a key whose value is `None` counts). */
  predicate HasData(d: InvestigationData) {
    d.snapshot.Some? || d.githubSearch.Some? || d.linkedinSearch.Some?
  }

  /** What `_run_tool` returns. */
  datatype ToolReply =
    | ReportReply(target: Option<string>, timestamp: string, summary: string, data: InvestigationData)
    | ErrorReply(error: string)
    | SnapshotReply(snapshot: Snapshot)
    | OutputReply(output: string)
    | NoneReply
    | LinksReply(links: seq<string>)

  /**
   * The registered tools as functions of the `name` argument, the message of the
   * `TypeError` a call raises when the tool does not take the given keyword arguments, and
   * the message of any other exception a call with a name raises (`None` when it returns).
   */
  datatype ToolBox = ToolBox(
    snapshot: string -> (Snapshot, seq<Row>),
    githubByName: string -> Option<string>,
    linkedinSearch: string -> seq<string>,
    peopleSearch: string -> seq<string>,
    callError: (Tool, ToolArgs) -> string,
    raises: (Tool, string) -> Option<string>)

  const NoDataMessage := "No investigation data available. Please research someone first."

  /** The tools whose only required parameter is `name`, so that `tool(name=...)` is a valid call. */
  predicate TakesName(t: Tool) {
    t == SearchLinkedInFootprints || t == FindGitHubByName || t == FallbackPeopleSearch || t == BuildProfessionalSnapshot
  }

  /** `_generate_comprehensive_report`. */
  function Report(target: Option<string>, data: InvestigationData): (r: ToolReply)
    ensures r.ErrorReply? <==> !HasData(data)
    ensures r.ReportReply? ==> r.target == target && r.data == data
  {
    if !HasData(data) then ErrorReply(NoDataMessage)
    else ReportReply(target, "Generated on demand", "Comprehensive OSINT Report", data)
  }

  /** Calling a registered tool: the reply and the investigation data afterwards. */
  function Call(t: Tool, args: ToolArgs, data: InvestigationData, tb: ToolBox): (ToolReply, InvestigationData) {
    if !(TakesName(t) && args.NameArg?) then (ErrorReply(tb.callError(t, args)), data)
    else if tb.raises(t, args.name).Some? then (ErrorReply(tb.raises(t, args.name).value), data)
    else if t == BuildProfessionalSnapshot then
      var s := tb.snapshot(args.name).0;
      (SnapshotReply(s), InvestigationData(Some(s), None, None))
    else if t == FindGitHubByName then
      var login := tb.githubByName(args.name);
      (if login.Some? then OutputReply(login.value) else NoneReply, data.(githubSearch := Some(login)))
    else if t == SearchLinkedInFootprints then
      var links := tb.linkedinSearch(args.name);
      (LinksReply(links), data.(linkedinSearch := Some(links)))
    else
      (LinksReply(tb.peopleSearch(args.name)), data)
  }

  /** `_run_tool`: the reply and the investigation data afterwards. */
  function RunToolSpec(name: string, args: ToolArgs, target: Option<string>, data: InvestigationData,
                       tb: ToolBox): (ToolReply, InvestigationData)
  {
    if name == ReportName then (Report(target, data), data)
    else match Lookup(name, Registry)
      case None => (ErrorReply("Unknown tool '" + name + "'"), data)
      case Some(t) => Call(t, args, data, tb)
  }

  /** What running a decided step (other than finishing) does. */
  function RunStep(s: Step, args: ToolArgs, target: Option<string>, data: InvestigationData,
                   tb: ToolBox): (ToolReply, InvestigationData)
  {
    match s
    case GenerateReport => (Report(target, data), data)
    case Run(t) => Call(t, args, data, tb)
    case Finish => (NoneReply, data)
  }

  /**
   * `_format_linkedin_response` slices its argument, so an error dictionary (which is
   * truthy) makes it raise; every other formatter returns for every reply it can be given.
   */
  predicate FormatRaises(s: Step, reply: ToolReply) {
    s == Run(SearchLinkedInFootprints) && reply.ErrorReply?
  }

  /** The formatted answer to a step's reply, `None` when the formatter raises. */
  function Format(s: Step, reply: ToolReply, target: Option<string>,
                  render: (string, ToolReply, Option<string>) -> string): (r: Option<string>)
    ensures r.None? <==> FormatRaises(s, reply)
    ensures r.Some? ==> r.value == render(StepName(s), reply, target)
  {
    if FormatRaises(s, reply) then None else Some(render(StepName(s), reply, target))
  }

  const CompletedIntro := "I've completed the investigation on "
  const CompletedTail :=
    ". Say 'make report' to see the full findings, or ask about specific details like GitHub or LinkedIn."
  const ReadyIntro := "I'm ready to investigate "
  const ReadyMiddle := ". Say 'research "
  const ReadyTail := "' to begin, or 'make report' if you already have data."
  const Welcome :=
    "Hello! I'm Harvey, your OSINT assistant. I can help you research people using public data from " +
    "LinkedIn, GitHub, and other sources. Just tell me who you'd like me to investigate!"

  /** The reply of `process_message` when the action is to finish. */
  function FinishText(mode: bool, target: Option<string>, hasData: bool): string {
    if mode && Truthy(target) && hasData then CompletedIntro + target.value + CompletedTail
    else if mode && Truthy(target) then ReadyIntro + target.value + ReadyMiddle + target.value + ReadyTail
    else Welcome
  }

  /** A chat message. */
  datatype Message = Message(role: string, content: string)

  /** The message list `process_message` appends to. */
  class Conversation {
    var messages: seq<Message>

    constructor()
      ensures messages == []
    {
      messages := [];
    }

    /** `messages.append(m)`. */
    method Log(m: Message)
      modifies this
      ensures messages == old(messages) + [m]
    {
      messages := messages + [m];
    }

    /** Logs the assistant's answer, when there is one. */
    method LogReply(response: Option<string>)
      modifies this
      ensures messages == old(messages) + if response.Some? then [Message("assistant", response.value)] else []
    {
      if response.Some? {
        messages := messages + [Message("assistant", response.value)];
      } else {
        assert messages + [] == messages;
      }
    }
  }

  /**
   * The state the agent keeps between messages: a target only in investigation mode and
   * never empty, and investigation data only once there is a target.
   */
  predicate Consistent(mode: bool, target: Option<string>, data: InvestigationData) {
    && (target.Some? ==> mode && target.value != [])
    && (HasData(data) ==> target.Some?)
  }

  /**
   * One message's effect: the mode and target follow the decision; a finish keeps the data
   * and answers with the fixed text, any other step runs and its reply is formatted.
   */
  predicate Answers(mode: bool, target: Option<string>, data: InvestigationData, input: string, tb: ToolBox,
                    render: (string, ToolReply, Option<string>) -> string,
                    mode': bool, target': Option<string>, data': InvestigationData, response: Option<string>)
  {
    var d := Decide(mode, target, HasData(data), input);
    && mode' == d.mode && target' == d.target
    && (d.action.step.Finish? ==>
          && data' == data
          && response == Some(FinishText(d.mode, d.target, HasData(data))))
    && (!d.action.step.Finish? ==>
          var run := RunStep(d.action.step, d.action.args, d.target, data, tb);
          data' == run.1 && response == Format(d.action.step, run.0, d.target, render))
  }

  class HarveyAgent {
    var investigationMode: bool
    var currentTarget: Option<string>
    var investigationData: InvestigationData

    predicate Valid()
      reads this
    {
      Consistent(investigationMode, currentTarget, investigationData)
    }

    constructor()
      ensures !investigationMode && currentTarget == None && investigationData == NoData
      ensures Valid()
    {
      investigationMode := false;
      currentTarget := None;
      investigationData := NoData;
    }

    /** `_simple_ai_decision`: the action, and the mode and target it leaves behind. */
    method SimpleAiDecision(userInput: string) returns (action: Action)
      modifies this
      ensures var d := Decide(old(investigationMode), old(currentTarget), HasData(old(investigationData)), userInput);
        action == d.action && investigationMode == d.mode && currentTarget == d.target
      ensures investigationData == old(investigationData)
    {
      var cues := CuesOf(userInput);
      action := DecideOnCues(cues);
    }

    /** The rules of `_simple_ai_decision` in order, once the message's cues are known. */
    method DecideOnCues(cues: Cues) returns (action: Action)
      modifies this
      ensures var d := DecideOn(old(investigationMode), old(currentTarget), HasData(old(investigationData)), cues);
        action == d.action && investigationMode == d.mode && currentTarget == d.target
      ensures investigationData == old(investigationData)
    {
      if cues.report && HasData(investigationData) {
        return Action(GenerateReport, NoArgs);
      }
      if cues.bareName {
        investigationMode := true;
        currentTarget := Some(cues.bare);
        return Action(Run(BuildProfessionalSnapshot), NameArg(cues.bare));
      }
      if cues.trigger {
        investigationMode := true;
        if cues.extracted != [] && |Words(cues.extracted)| >= 2 {
          currentTarget := Some(cues.extracted);
          return Action(Run(BuildProfessionalSnapshot), NameArg(cues.extracted));
        }
      }
      if investigationMode && Truthy(currentTarget) {
        if cues.github {
          return Action(Run(FindGitHubByName), NameArg(currentTarget.value));
        } else if cues.linkedin {
          return Action(Run(SearchLinkedInFootprints), NameArg(currentTarget.value));
        } else if cues.site {
          return Action(Run(BuildProfessionalSnapshot), NameArg(currentTarget.value));
        }
      }
      if cues.greeting {
        return Action(Finish, NoArgs);
      }
      if cues.bareName {
        // The second bare-name rule: unreachable, since the first one already returned.
        assert false;
      }
      return Action(Finish, NoArgs);
    }

    /** `_generate_comprehensive_report`. */
    method GenerateComprehensiveReport() returns (reply: ToolReply)
      ensures reply == Report(currentTarget, investigationData)
    {
      if !HasData(investigationData) {
        return ErrorReply(NoDataMessage);
      }
      reply := ReportReply(currentTarget, "Generated on demand", "Comprehensive OSINT Report", investigationData);
    }

    /** `_run_tool`: dispatch by name; only the snapshot and the two follow-up tools change the data. */
    method RunTool(name: string, args: ToolArgs, tb: ToolBox) returns (reply: ToolReply)
      modifies this
      ensures (reply, investigationData) == RunToolSpec(name, args, currentTarget, old(investigationData), tb)
      ensures investigationMode == old(investigationMode) && currentTarget == old(currentTarget)
    {
      if name == ReportName {
        reply := GenerateComprehensiveReport();
        return;
      }
      var found := Lookup(name, Registry);
      if found.None? {
        return ErrorReply("Unknown tool '" + name + "'");
      }
      var tool := found.value;
      if !(TakesName(tool) && args.NameArg?) {
        return ErrorReply(tb.callError(tool, args));
      }
      var raised := tb.raises(tool, args.name);
      if raised.Some? {
        return ErrorReply(raised.value);
      }
      if tool == BuildProfessionalSnapshot {
        var (snapshot, _) := tb.snapshot(args.name);
        investigationData := InvestigationData(Some(snapshot), None, None);
        return SnapshotReply(snapshot);
      } else if tool == FindGitHubByName {
        var login := tb.githubByName(args.name);
        investigationData := investigationData.(githubSearch := Some(login));
        reply := if login.Some? then OutputReply(login.value) else NoneReply;
      } else if tool == SearchLinkedInFootprints {
        var links := tb.linkedinSearch(args.name);
        investigationData := investigationData.(linkedinSearch := Some(links));
        reply := LinksReply(links);
      } else {
        reply := LinksReply(tb.peopleSearch(args.name));
      }
    }

    /**
     * The second half of `process_message`: a finish is answered directly, any other step is
     * run by its name and its result formatted. `None` is the exception the LinkedIn
     * formatter raises on an error reply.
     */
    method Respond(action: Action, tb: ToolBox, render: (string, ToolReply, Option<string>) -> string)
      returns (response: Option<string>)
      modifies this
      ensures investigationMode == old(investigationMode) && currentTarget == old(currentTarget)
      ensures action.step.Finish? ==>
        && investigationData == old(investigationData)
        && response == Some(FinishText(investigationMode, currentTarget, HasData(investigationData)))
      ensures !action.step.Finish? ==>
        var run := RunStep(action.step, action.args, currentTarget, old(investigationData), tb);
        && investigationData == run.1
        && response == Format(action.step, run.0, currentTarget, render)
    {
      if action.step == Finish {
        response := Some(FinishText(investigationMode, currentTarget, HasData(investigationData)));
      } else {
        StepNameRunsStep(action.step, action.args, currentTarget, investigationData, tb);
        var result := RunTool(StepName(action.step), action.args, tb);
        if StepName(action.step) == ToolName(SearchLinkedInFootprints) && result.ErrorReply? {
          response := None;
        } else {
          response := Some(render(StepName(action.step), result, currentTarget));
        }
      }
    }

    /**
     * The middle of `process_message`: decide, then act and answer. `None` stands for the
     * exception a reply formatter raises.
     */
    method Answer(userInput: string, tb: ToolBox, render: (string, ToolReply, Option<string>) -> string)
      returns (response: Option<string>)
      modifies this
      ensures Answers(old(investigationMode), old(currentTarget), old(investigationData), userInput, tb, render,
                      investigationMode, currentTarget, investigationData, response)
      ensures old(Valid()) ==> Valid()
    {
      ghost var mode0, target0, data0 := investigationMode, currentTarget, investigationData;
      var action := SimpleAiDecision(userInput);
      response := Respond(action, tb, render);
      if Consistent(mode0, target0, data0) {
        MessageKeepsConsistency(mode0, target0, data0, userInput, tb);
      }
    }

    /**
     * `process_message`: log the user's message, decide, respond, then log the answer.
     * `render` stands for the reply formatters where they return; when formatting raises
     * (`response` is `None`) the exception leaves the method after the user's message alone
     * was logged.
     */
    method ProcessMessage(conversation: Conversation, userInput: string, tb: ToolBox,
                          render: (string, ToolReply, Option<string>) -> string)
      returns (response: Option<string>)
      modifies this, conversation
      ensures Answers(old(investigationMode), old(currentTarget), old(investigationData), userInput, tb, render,
                      investigationMode, currentTarget, investigationData, response)
      ensures conversation.messages ==
        old(conversation.messages) + [Message("user", userInput)] +
        (if response.Some? then [Message("assistant", response.value)] else [])
      ensures old(Valid()) ==> Valid()
    {
      conversation.Log(Message("user", userInput));
      response := Answer(userInput, tb, render);
      conversation.LogReply(response);
    }
  }

  // ---------------------------------------------------------------------------------------
  // Properties of name recognition
  // ---------------------------------------------------------------------------------------

  /** A letter is never whitespace, so the two runs of `TwoAlphaWords` are determined. */
  lemma LettersAreNotSpace(c: char)
    requires IsAsciiLetter(c)
    ensures !IsSpace(c)
  {
  }

  /** `WordLen` stops exactly at the first whitespace character. */
  lemma {:induction false} WordLenAt(t: string, n: nat)
    requires n < |t| && NoSpace(t[..n]) && IsSpace(t[n])
    ensures WordLen(t) == n
    decreases n
  {
    if n > 0 {
      assert t[..n][0] == t[0];
      assert t[1..][..n - 1] == t[..n][1..];
      WordLenAt(t[1..], n - 1);
    }
  }

  /** `lstrip()` leaves something when some character is not whitespace. */
  lemma {:induction false} LStripKeepsNonSpace(x: string, k: nat)
    requires k < |x| && !IsSpace(x[k])
    ensures LStrip(x) != []
    decreases k
  {
    if IsSpace(x[0]) {
      LStripKeepsNonSpace(x[1..], k - 1);
    }
  }

  lemma {:induction false} LetterRunAt(s: string, n: nat)
    requires n < |s| && AllLetters(s[..n]) && !IsAsciiLetter(s[n])
    ensures LetterRun(s) == n
    decreases n
  {
    if n > 0 {
      assert s[..n][0] == s[0];
      assert s[1..][..n - 1] == s[..n][1..];
      LetterRunAt(s[1..], n - 1);
    }
  }

  lemma {:induction false} SpaceRunAt(s: string, n: nat)
    requires n < |s| && (forall i :: 0 <= i < n ==> IsSpace(s[i])) && !IsSpace(s[n])
    ensures SpaceRun(s) == n
    decreases n
  {
    if n > 0 {
      SpaceRunAt(s[1..], n - 1);
    }
  }

  /**
   * Any split into letters, whitespace and letters is a match of the name regex: the
   * regex's meaning, stated on its three parts.
   */
  lemma TwoAlphaWordsOfSplit(a: string, b: string, c: string)
    requires a != [] && AllLetters(a) && b != [] && (forall i :: 0 <= i < |b| ==> IsSpace(b[i]))
    requires c != [] && AllLetters(c)
    ensures TwoAlphaWords(a + b + c)
  {
    var s := a + b + c;
    assert s[..|a|] == a;
    LetterRunAt(s, |a|);
    assert s[|a|..] == b + c;
    assert (b + c)[|b|] == c[0];
    LettersAreNotSpace(c[0]);
    SpaceRunAt(b + c, |b|);
    assert s[|a| + |b|..] == c;
  }

  /**
   * The `len(user_input.split()) >= 2` half of the bare-name test adds nothing: a stripped
   * input of the form letters, whitespace, letters already splits into two words.
   */
  lemma NameShapeHasTwoWords(input: string)
    requires TwoAlphaWords(Strip(input))
    ensures |Words(input)| >= 2
    ensures NameLike(input)
  {
    var t := LStrip(input);
    var u := Strip(input);
    assert u <= t;
    var n := LetterRun(u);
    var m := SpaceRun(u[n..]);
    assert t != [];
    forall i | 0 <= i < n ensures !IsSpace(t[..n][i]) {
      assert t[..n][i] == u[..n][i];
      LettersAreNotSpace(u[..n][i]);
    }
    assert t[n] == u[n..][0];
    WordLenAt(t, n);
    assert u[n + m..][0] == u[n + m];
    LettersAreNotSpace(u[n + m]);
    assert t[n..][m] == u[n + m];
    LStripKeepsNonSpace(t[n..], m);
  }

  /** A bare name is never empty, so neither is the target it sets. */
  lemma CuesAreWellFormed(input: string)
    ensures CuesOf(input).bareName ==> CuesOf(input).bare != []
  {
    if NameLike(input) {
      assert LetterRun(Strip(input)) > 0;
    }
  }

  // ---------------------------------------------------------------------------------------
  // Properties of the decision
  // ---------------------------------------------------------------------------------------

  /** A stripped input of two letter words starts an investigation of its title-cased form. */
  lemma BareNameStartsInvestigation(mode: bool, target: Option<string>, hasData: bool, input: string)
    requires !(AnyContained(Lower(input), ReportTriggers) && hasData)
    requires TwoAlphaWords(Strip(input))
    ensures Decide(mode, target, hasData, input) ==
      Decision(Action(Run(BuildProfessionalSnapshot), NameArg(Title(Strip(input)))), true,
               Some(Title(Strip(input))), NameRule)
  {
    NameShapeHasTwoWords(input);
  }

  /** The report is produced exactly when a report phrase is present and there is data to report. */
  lemma ReportNeedsData(mode: bool, target: Option<string>, hasData: bool, c: Cues)
    ensures DecideOn(mode, target, hasData, c).action.step == GenerateReport <==> (c.report && hasData)
  {
  }

  /**
   * The second bare-name rule can never fire: any input it would accept has already been
   * taken by the first.
   */
  lemma LateNameRuleIsDead(mode: bool, target: Option<string>, hasData: bool, c: Cues)
    ensures DecideOn(mode, target, hasData, c).rule != LateNameRule
  {
  }

  /**
   * An investigation phrase always turns investigation mode on, whether or not a name is
   * found; without a report request or a bare name, the extracted name becomes the target
   * exactly when it has two or more words.
   */
  lemma TriggerTurnsModeOn(mode: bool, target: Option<string>, hasData: bool, c: Cues)
    requires c.trigger && !(c.report && hasData)
    ensures DecideOn(mode, target, hasData, c).mode
    ensures !c.bareName ==>
      ((c.extracted != [] && |Words(c.extracted)| >= 2) <==> DecideOn(mode, target, hasData, c).rule == TriggerRule)
    ensures DecideOn(mode, target, hasData, c).rule == TriggerRule ==>
      DecideOn(mode, target, hasData, c).target == Some(c.extracted)
  {
  }

  /** Investigation mode, once on, stays on. */
  lemma ModeStaysOn(target: Option<string>, hasData: bool, c: Cues)
    ensures DecideOn(true, target, hasData, c).mode
  {
  }

  /**
   * A follow-up needs investigation mode and a non-empty target, and runs on that target;
   * GitHub is preferred to LinkedIn, and LinkedIn to the portfolio snapshot.
   */
  lemma FollowUpUsesTarget(mode: bool, target: Option<string>, hasData: bool, c: Cues)
    ensures var d := DecideOn(mode, target, hasData, c);
      d.rule == FollowUpRule ==>
        && Truthy(target) && (mode || c.trigger) && d.target == target && d.action.args == NameArg(target.value)
        && (d.action.step == Run(FindGitHubByName) <==> c.github)
        && (d.action.step == Run(SearchLinkedInFootprints) <==> !c.github && c.linkedin)
  {
  }

  /**
   * The LinkedIn follow-up runs the search on the current target, and its answer is lost
   * (the formatter raises) exactly when the search itself raised.
   */
  lemma LinkedInFailureRaises(mode: bool, target: Option<string>, hasData: bool, c: Cues,
                              data: InvestigationData, tb: ToolBox,
                              render: (string, ToolReply, Option<string>) -> string)
    requires DecideOn(mode, target, hasData, c).action.step == Run(SearchLinkedInFootprints)
    ensures var d := DecideOn(mode, target, hasData, c);
      var run := RunStep(d.action.step, d.action.args, d.target, data, tb);
      && Truthy(target) && d.target == target
      && (Format(d.action.step, run.0, d.target, render).None? <==> tb.raises(SearchLinkedInFootprints, target.value).Some?)
      && (Format(d.action.step, run.0, d.target, render).None? ==> run.1 == data)
  {
    FollowUpUsesTarget(mode, target, hasData, c);
  }

  /** Without a report request, a name or a follow-up, a greeting or anything else finishes. */
  lemma OtherwiseFinish(mode: bool, target: Option<string>, hasData: bool, c: Cues)
    requires !(c.report && hasData) && !c.bareName
    requires !(c.trigger && c.extracted != [] && |Words(c.extracted)| >= 2)
    requires !((mode || c.trigger) && Truthy(target) && (c.github || c.linkedin || c.site))
    ensures DecideOn(mode, target, hasData, c).action == Action(Finish, NoArgs)
    ensures DecideOn(mode, target, hasData, c).target == target
  {
  }

  // ---------------------------------------------------------------------------------------
  // Properties of the tools
  // ---------------------------------------------------------------------------------------

  /** Different tools have different names. */
  lemma ToolNamesDiffer(t1: Tool, t2: Tool)
    requires t1 != t2
    ensures ToolName(t1) != ToolName(t2)
  {
    var a, b := ToolName(t1), ToolName(t2);
    if |a| == |b| {
      assert a[0] != b[0] || a[5] != b[5];
    }
  }

  /** The linear search finds the first entry with the name. */
  lemma {:induction false} LookupFindsFirst(name: string, reg: seq<Tool>, i: nat)
    requires i < |reg| && ToolName(reg[i]) == name
    requires forall j :: 0 <= j < i ==> ToolName(reg[j]) != name
    ensures Lookup(name, reg) == Some(reg[i])
    decreases i
  {
    if i > 0 {
      assert ToolName(reg[0]) != name;
      LookupFindsFirst(name, reg[1..], i - 1);
    }
  }

  /** The position of a tool in the registry. */
  function RegistryIndex(t: Tool): (i: nat)
    ensures i < |Registry| && Registry[i] == t
  {
    match t
    case SearchLinkedInFootprints => 0
    case ScrapeLinkedInPublic => 1
    case FetchGitHubProfile => 2
    case FindPortfolioLink => 3
    case FindGitHubByName => 4
    case FallbackPeopleSearch => 5
    case BuildProfessionalSnapshot => 6
  }

  /** Every registered tool is found under its own name. */
  lemma LookupFindsTool(t: Tool)
    ensures Lookup(ToolName(t), Registry) == Some(t)
  {
    var i := RegistryIndex(t);
    forall j | 0 <= j < i ensures ToolName(Registry[j]) != ToolName(t) {
      ToolNamesDiffer(Registry[j], t);
    }
    LookupFindsFirst(ToolName(t), Registry, i);
  }

  /** No registered tool is called "generate_report", so the report is never looked up in the registry. */
  lemma ToolNameIsNotReport(t: Tool)
    ensures ToolName(t) != ReportName
  {
    assert |ReportName| == 15;
    if |ToolName(t)| == 15 {
      assert false;
    }
  }

  /** Running a decided step by its name is running that step. */
  lemma StepNameRunsStep(s: Step, args: ToolArgs, target: Option<string>, data: InvestigationData, tb: ToolBox)
    requires !s.Finish?
    ensures RunToolSpec(StepName(s), args, target, data, tb) == RunStep(s, args, target, data, tb)
  {
    if s.Run? {
      LookupFindsTool(s.tool);
      ToolNameIsNotReport(s.tool);
    }
  }

  /** A name outside the registry is reported and changes nothing. */
  lemma UnknownToolChangesNothing(name: string, args: ToolArgs, target: Option<string>,
                                  data: InvestigationData, tb: ToolBox)
    requires name != ReportName && forall t: Tool :: ToolName(t) != name
    ensures RunToolSpec(name, args, target, data, tb) == (ErrorReply("Unknown tool '" + name + "'"), data)
  {
  }

  /** A snapshot that is returned replaces all earlier investigation data with itself. */
  lemma SnapshotReplacesData(name: string, data: InvestigationData, tb: ToolBox)
    requires tb.raises(BuildProfessionalSnapshot, name).None?
    ensures var run := Call(BuildProfessionalSnapshot, NameArg(name), data, tb);
      && run.1 == InvestigationData(Some(tb.snapshot(name).0), None, None)
      && run.0 == SnapshotReply(tb.snapshot(name).0)
  {
  }

  /**
   * A call that raises, because the tool does not take the arguments or because the tool
   * itself fails, is reported as an error and changes nothing.
   */
  lemma FailedCallChangesNothing(t: Tool, args: ToolArgs, data: InvestigationData, tb: ToolBox)
    ensures !(TakesName(t) && args.NameArg?) ==> Call(t, args, data, tb) == (ErrorReply(tb.callError(t, args)), data)
    ensures TakesName(t) && args.NameArg? && tb.raises(t, args.name).Some? ==>
      Call(t, args, data, tb) == (ErrorReply(tb.raises(t, args.name).value), data)
  {
  }

  /** Investigation data is never lost: every step keeps the dictionary non-empty once it is. */
  lemma DataIsNeverLost(s: Step, args: ToolArgs, target: Option<string>, data: InvestigationData, tb: ToolBox)
    requires HasData(data)
    ensures HasData(RunStep(s, args, target, data, tb).1)
  {
  }

  /** The follow-up tools update only their own key, and only when they return. */
  lemma FollowUpToolsSetOneKey(name: string, data: InvestigationData, tb: ToolBox)
    ensures Call(FindGitHubByName, NameArg(name), data, tb).1 ==
      if tb.raises(FindGitHubByName, name).Some? then data
      else data.(githubSearch := Some(tb.githubByName(name)))
    ensures Call(SearchLinkedInFootprints, NameArg(name), data, tb).1 ==
      if tb.raises(SearchLinkedInFootprints, name).Some? then data
      else data.(linkedinSearch := Some(tb.linkedinSearch(name)))
    ensures Call(FallbackPeopleSearch, NameArg(name), data, tb).1 == data
  {
  }

  /**
   * One message keeps the agent consistent: whatever is decided and whichever step runs,
   * a target comes with investigation mode and data comes with a target.
   */
  lemma DecisionKeepsConsistency(mode: bool, target: Option<string>, data: InvestigationData, c: Cues, tb: ToolBox)
    requires Consistent(mode, target, data)
    requires c.bareName ==> c.bare != []
    ensures var d := DecideOn(mode, target, HasData(data), c);
      var after := if d.action.step.Finish? then data
                   else RunStep(d.action.step, d.action.args, d.target, data, tb).1;
      Consistent(d.mode, d.target, after)
  {
  }

  /** The same for one message, from its text. */
  lemma MessageKeepsConsistency(mode: bool, target: Option<string>, data: InvestigationData, input: string, tb: ToolBox)
    requires Consistent(mode, target, data)
    ensures var d := Decide(mode, target, HasData(data), input);
      var after := if d.action.step.Finish? then data
                   else RunStep(d.action.step, d.action.args, d.target, data, tb).1;
      Consistent(d.mode, d.target, after)
  {
    CuesAreWellFormed(input);
    DecisionKeepsConsistency(mode, target, data, CuesOf(input), tb);
  }
}
