/** One report call (`chocofactory-core/src/mcp.rs`, lines 147 to 171 and 344 to
  * 555) and a whole session of the tool server (`choco/src/mcp.rs`, lines 105 to 259).
  */
module ReportSession {
  import opened Wrappers
  import opened JsonValues
  import opened ReportHeading
  import opened ReportSections
  import opened Text
  import ReportForms

  const MAX_SECTION_REJECTIONS: nat := 2

  const REPORT_OUTCOME_TOOL_NAME := "report_outcome"

  datatype StageReport = StageReport(outcomes: seq<string>, requiredSections: seq<string>)

  /** What a reply says; how it reads is the server's. */
  datatype Message =
    | OutcomeRequired(outcomes: seq<string>)
    | OutcomeOffList(outcome: string, outcomes: seq<string>)
    | SummaryRequired
    | SectionsMissing(missing: seq<string>, required: seq<string>)
    | RecordedThin(outcome: string, missing: seq<string>, attempt: nat)
    | Recorded(outcome: string)

  datatype ReportCheck = ReportCheck(message: Message, isError: bool)

  // ---- One call ------------------------------------------------------------------

  /** What is wrong with a call, the cheapest problem first. */
  datatype Verdict =
    | NoOutcome
    | OffList(outcome: string)
    | NoSummary
    | Thin(outcome: string, missing: seq<string>)
    | Complete(outcome: string)

  ghost function Judge(u: Unicode, stage: StageReport, arguments: Json): Verdict {
    match GetStr(arguments, "outcome")
    case None => NoOutcome
    case Some(raw) => JudgeOutcome(u, stage, Trim(u, raw), GetStr(arguments, "summary"))
  }

  ghost function JudgeOutcome(u: Unicode, stage: StageReport, outcome: string, summary: Option<string>): Verdict {
    if outcome == "" then NoOutcome
    else if stage.outcomes != [] && outcome !in stage.outcomes then OffList(outcome)
    else if summary.None? then NoSummary
    else JudgeSummary(u, stage, outcome, summary.value)
  }

  ghost function JudgeSummary(u: Unicode, stage: StageReport, outcome: string, summary: string): Verdict {
    JudgeMissing(outcome, Missing(u, summary, stage.requiredSections))
  }

  function JudgeMissing(outcome: string, missing: seq<string>): Verdict {
    if missing != [] then Thin(outcome, missing) else Complete(outcome)
  }

  /** The reply to a verdict when `thin` thin reports have come in, this one included. */
  function Reply(stage: StageReport, verdict: Verdict, thin: nat): ReportCheck {
    match verdict
    case NoOutcome =>
      ReportCheck(OutcomeRequired(stage.outcomes), true)
    case OffList(outcome) =>
      ReportCheck(OutcomeOffList(outcome, stage.outcomes), true)
    case NoSummary =>
      ReportCheck(SummaryRequired, true)
    case Thin(outcome, missing) =>
      if thin <= MAX_SECTION_REJECTIONS then
        ReportCheck(SectionsMissing(missing, stage.requiredSections), true)
      else ReportCheck(RecordedThin(outcome, missing, thin), false)
    case Complete(outcome) => ReportCheck(Recorded(outcome), false)
  }

  /** A report with sections missing is counted, and turned away the first times only. */
  method CheckMissing(stage: StageReport, thinBefore: nat, outcome: string, missing: seq<string>)
    returns (check: ReportCheck, thinReports: nat)
    ensures thinReports == thinBefore + (if missing != [] then 1 else 0)
    ensures check == Reply(stage, JudgeMissing(outcome, missing), thinReports)
  {
    thinReports := thinBefore;
    if missing != [] {
      thinReports := thinReports + 1;
      if thinReports <= MAX_SECTION_REJECTIONS {
        return ReportCheck(SectionsMissing(missing, stage.requiredSections), true), thinReports;
      }
      return ReportCheck(RecordedThin(outcome, missing, thinReports), false), thinReports;
    }
    check := ReportCheck(Recorded(outcome), false);
  }

  /** One call, from its trimmed outcome on. */
  method CheckOutcome(u: Unicode, stage: StageReport, thinBefore: nat, outcome: string, summary: Option<string>)
    returns (check: ReportCheck, thinReports: nat)
    ensures var verdict := JudgeOutcome(u, stage, outcome, summary);
      && thinReports == thinBefore + (if verdict.Thin? then 1 else 0)
      && check == Reply(stage, verdict, thinReports)
  {
    thinReports := thinBefore;
    if outcome == "" {
      return ReportCheck(OutcomeRequired(stage.outcomes), true), thinReports;
    }
    if stage.outcomes != [] && outcome !in stage.outcomes {
      return ReportCheck(OutcomeOffList(outcome, stage.outcomes), true), thinReports;
    }
    if summary.None? {
      return ReportCheck(SummaryRequired, true), thinReports;
    }
    var missing := MissingSections(u, summary.value, stage.requiredSections);
    check, thinReports := CheckMissing(stage, thinReports, outcome, missing);
  }

  // ---- The verdict, spelled out

  predicate AllWhite(u: Unicode, t: string) {
    forall i :: 0 <= i < |t| ==> u.white(t[i])
  }

  /** `inner` is `raw` without the blanks at its ends. */
  ghost predicate IsTrimmed(u: Unicode, raw: string, inner: string) {
    && (exists a, b :: raw == a + inner + b && AllWhite(u, a) && AllWhite(u, b))
    && (inner != "" ==> !u.white(inner[0]) && !u.white(inner[|inner| - 1]))
  }

  lemma Around(raw: string, k: nat, n: nat)
    requires k <= |raw| && n <= |raw[k..]|
    ensures raw == raw[..k] + raw[k..][..n] + raw[k..][n..]
  {
  }

  lemma Wrapped(u: Unicode, raw: string, k: nat, n: nat)
    requires k <= |raw| && n <= |raw[k..]| && AllWhite(u, raw[..k]) && AllWhite(u, raw[k..][n..])
    requires n > 0 ==> !u.white(raw[k..][0]) && !u.white(raw[k..][n - 1])
    ensures IsTrimmed(u, raw, raw[k..][..n])
  {
    Around(raw, k, n);
  }

  lemma TrimParts(u: Unicode, raw: string) returns (k: nat, n: nat)
    ensures k <= |raw| && n <= |raw[k..]| && AllWhite(u, raw[..k]) && Trim(u, raw) == raw[k..][..n]
    ensures n > 0 ==> !u.white(raw[k..][0]) && !u.white(raw[k..][n - 1])
    ensures forall i :: n <= i < |raw[k..]| ==> u.white(raw[k..][i])
  {
    k := ReportForms.Start(u, raw);
    ReportForms.TrimStartDrops(u, raw);
    EndIsWhite(u.white, raw[k..]);
    n := |TrimEnd(u.white, raw[k..])|;
  }

  lemma TrimIsTrimmed(u: Unicode, raw: string)
    ensures IsTrimmed(u, raw, Trim(u, raw))
  {
    var k, n := TrimParts(u, raw);
    var rest := raw[k..];
    assert AllWhite(u, rest[n..]);
    Wrapped(u, raw, k, n);
  }

  lemma BlankWhenNothingIsLeft(u: Unicode, raw: string)
    requires IsTrimmed(u, raw, "")
    ensures AllWhite(u, raw)
  {
    var a, b :| raw == a + "" + b && AllWhite(u, a) && AllWhite(u, b);
    assert raw == a + b;
  }

  lemma {:induction false} EndIsWhite(white: Blanks, t: string)
    ensures forall i :: |TrimEnd(white, t)| <= i < |t| ==> white(t[i])
  {
    if t != "" && white(t[|t| - 1]) {
      EndIsWhite(white, t[..|t| - 1]);
    }
  }

  /** The outcome a call reports: a text that is not blank, without the blanks at its ends. */
  ghost predicate Reports(u: Unicode, arguments: Json, outcome: string) {
    var raw := GetStr(arguments, "outcome");
    raw.Some? && outcome != "" && IsTrimmed(u, raw.value, outcome)
  }

  /** One the stage accepts: any, if it names none. */
  ghost predicate OnTheList(u: Unicode, stage: StageReport, arguments: Json, outcome: string) {
    Reports(u, arguments, outcome) && (|stage.outcomes| == 0 || outcome in stage.outcomes)
  }

  /** What a verdict says is so. */
  ghost predicate IsJust(u: Unicode, stage: StageReport, arguments: Json, v: Verdict) {
    var raw, summary := GetStr(arguments, "outcome"), GetStr(arguments, "summary");
    match v
    case NoOutcome => raw.None? || AllWhite(u, raw.value)
    case OffList(outcome) => Reports(u, arguments, outcome) && |stage.outcomes| > 0 && outcome !in stage.outcomes
    case NoSummary => summary.None? && exists outcome :: OnTheList(u, stage, arguments, outcome)
    case Thin(outcome, missing) =>
      && OnTheList(u, stage, arguments, outcome) && summary.Some?
      && missing == Missing(u, summary.value, stage.requiredSections) && |missing| > 0
    case Complete(outcome) =>
      && OnTheList(u, stage, arguments, outcome) && summary.Some?
      && |Missing(u, summary.value, stage.requiredSections)| == 0
  }

  lemma JustFromOutcome(u: Unicode, stage: StageReport, arguments: Json, outcome: string)
    requires Reports(u, arguments, outcome)
    ensures IsJust(u, stage, arguments, JudgeOutcome(u, stage, outcome, GetStr(arguments, "summary")))
  {
    var v := JudgeOutcome(u, stage, outcome, GetStr(arguments, "summary"));
    assert stage.outcomes == [] || outcome in stage.outcomes ==> OnTheList(u, stage, arguments, outcome);
    assert v.Thin? ==> v.missing != [];
  }

  lemma VerdictIsJust(u: Unicode, stage: StageReport, arguments: Json)
    ensures IsJust(u, stage, arguments, Judge(u, stage, arguments))
  {
    var raw := GetStr(arguments, "outcome");
    if raw.Some? {
      var outcome := Trim(u, raw.value);
      TrimIsTrimmed(u, raw.value);
      if outcome == "" {
        BlankWhenNothingIsLeft(u, raw.value);
      } else {
        JustFromOutcome(u, stage, arguments, outcome);
      }
    }
  }

  /** The reply a verdict calls for: an error, and nothing recorded, unless the report is complete
    * or thin for the third time or later.
    */
  predicate RepliesTo(stage: StageReport, v: Verdict, thin: nat, check: ReportCheck) {
    match v
    case NoOutcome => check.isError && check.message == OutcomeRequired(stage.outcomes)
    case OffList(outcome) => check.isError && check.message == OutcomeOffList(outcome, stage.outcomes)
    case NoSummary => check.isError && check.message == SummaryRequired
    case Thin(outcome, missing) =>
      if thin > 2 then !check.isError && check.message == RecordedThin(outcome, missing, thin)
      else check.isError && check.message == SectionsMissing(missing, stage.requiredSections)
    case Complete(outcome) => !check.isError && check.message == Recorded(outcome)
  }

  /** No outcome is recorded but one the call reports, and one the stage accepts. */
  lemma RecordedIsOnTheList(u: Unicode, stage: StageReport, arguments: Json, v: Verdict, thin: nat, check: ReportCheck)
    requires IsJust(u, stage, arguments, v) && RepliesTo(stage, v, thin, check)
    ensures !check.isError <==> check.message.Recorded? || check.message.RecordedThin?
    ensures !check.isError ==> OnTheList(u, stage, arguments, check.message.outcome)
  {
  }

  method CheckReportCall(u: Unicode, stage: StageReport, thinBefore: nat, arguments: Json)
    returns (check: ReportCheck, thinReports: nat)
    ensures var verdict := Judge(u, stage, arguments);
      && thinReports == thinBefore + (if verdict.Thin? then 1 else 0)
      && check == Reply(stage, verdict, thinReports)
      && IsJust(u, stage, arguments, verdict) && RepliesTo(stage, verdict, thinReports, check)
  {
    VerdictIsJust(u, stage, arguments);
    var raw := GetStr(arguments, "outcome");
    if raw.None? {
      return ReportCheck(OutcomeRequired(stage.outcomes), true), thinBefore;
    }
    check, thinReports := CheckOutcome(u, stage, thinBefore, Trim(u, raw.value), GetStr(arguments, "summary"));
  }

  // ---- A session -------------------------------------------------------------------

  /** What a request can fail with, and its JSON-RPC code. */
  datatype Fault = ParseError(err: string) | MissingParams | UnknownTool(tool: string) | UnknownMethod(name: string)

  datatype Body = Initialized(answer: Json) | Tools(tool: Json) | Checked(check: ReportCheck) | Rejected(text: string) | Pong

  datatype Response = Success(id: Json, body: Body) | Failure(id: Json, fault: Fault)

  /** What a session is given: the character table, the JSON reader, the stage, the
    * fixed parts of its replies, and how its messages read. */
  datatype Server = Server(
    u: Unicode, parse: string -> Result<Json, string>, stage: StageReport, settingsApplied: bool,
    initialized: Json -> Json, toolDefinition: Json, rejectedTool: Json, rejectedText: string,
    text: Message -> string, faultText: Fault -> string)

  function ToolResult(text: string, isError: bool): Json {
    Obj(map["content" := Arr([Obj(map["type" := Str("text"), "text" := Str(text)])]), "isError" := Bool(isError)])
  }

  function BodyJson(s: Server, body: Body): Json {
    match body
    case Initialized(answer) => answer
    case Tools(tool) => Obj(map["tools" := Arr([tool])])
    case Checked(check) => ToolResult(s.text(check.message), check.isError)
    case Rejected(text) => ToolResult(text, true)
    case Pong => Obj(map[])
  }

  function FaultCode(fault: Fault): int {
    match fault
    case ParseError(_) => -32700
    case MissingParams => -32602
    case UnknownTool(_) => -32602
    case UnknownMethod(_) => -32601
  }

  /** A response as the line written for it. */
  function Wire(s: Server, r: Response): Json {
    match r
    case Success(id, body) => Obj(map["jsonrpc" := Str("2.0"), "id" := id, "result" := BodyJson(s, body)])
    case Failure(id, fault) =>
      Obj(map["jsonrpc" := Str("2.0"), "id" := id,
              "error" := Obj(map["code" := Json.Number(Whole(FaultCode(fault))), "message" := Str(s.faultText(fault))])])
  }

  function OrEmpty(s: Option<string>): string { if s.Some? then s.value else "" }

  method CallTool(s: Server, thinBefore: nat, params: Option<Json>)
    returns (result: Result<ReportCheck, Fault>, thinReports: nat)
    ensures thinReports == thinBefore + (if IsThinParams(s, params) then 1 else 0)
    ensures result == ToolReply(s, params, thinReports)
  {
    if params.None? {
      return Err(MissingParams), thinBefore;
    }
    var name := OrEmpty(GetStr(params.value, "name"));
    if name != REPORT_OUTCOME_TOOL_NAME {
      return Err(UnknownTool(name)), thinBefore;
    }
    var check;
    check, thinReports := CheckReportCall(s.u, s.stage, thinBefore, ArgumentsOf(params.value));
    result := Ok(check);
  }

  function ArgumentsOf(params: Json): Json {
    if params.Get("arguments").Some? then params.Get("arguments").value else Obj(map[])
  }

  predicate NamesTheTool(params: Option<Json>) {
    params.Some? && GetStr(params.value, "name") == Some("report_outcome")
  }

  ghost predicate IsThinParams(s: Server, params: Option<Json>) {
    NamesTheTool(params) && Judge(s.u, s.stage, ArgumentsOf(params.value)).Thin?
  }

  ghost function ToolReply(s: Server, params: Option<Json>, thin: nat): Result<ReportCheck, Fault> {
    if params.None? then Err(MissingParams)
    else if !NamesTheTool(params) then Err(UnknownTool(OrEmpty(GetStr(params.value, "name"))))
    else Ok(Reply(s.stage, Judge(s.u, s.stage, ArgumentsOf(params.value)), thin))
  }

  /** A report call that reaches the check and is thin. */
  ghost predicate IsThinCall(s: Server, line: string) {
    && !Blank(s.u, line) && s.settingsApplied
    && s.parse(line).Ok?
    && var request := s.parse(line).value;
    && request.Get("id").Some?
    && GetStr(request, "method") == Some("tools/call")
    && IsThinParams(s, request.Get("params"))
  }

  /** A line that is owed a response: it shows something, and either does not parse or has an id. */
  predicate IsAnswered(s: Server, line: string) {
    !Blank(s.u, line) && (s.parse(line).Err? || s.parse(line).value.Get("id").Some?)
  }

  /** The id a response to this line carries. */
  function EchoedId(s: Server, line: string): Json
    requires IsAnswered(s, line)
  {
    if s.parse(line).Err? then Null else s.parse(line).value.Get("id").value
  }

  ghost function Answer(s: Server, line: string, thin: nat): Response
    requires IsAnswered(s, line)
  {
    match s.parse(line)
    case Err(err) => Failure(Null, ParseError(err))
    case Ok(request) =>
      AnswerTo(s, request, OrEmpty(GetStr(request, "method")), request.Get("id").value, ToolReply(s, request.Get("params"), thin))
  }

  /** The answer to a request by its method; `reply` is what a tool call would get. */
  function AnswerTo(s: Server, request: Json, name: string, id: Json, reply: Result<ReportCheck, Fault>): Response {
    if name == "initialize" then Success(id, Initialized(s.initialized(request)))
    else if name == "tools/list" then Success(id, Tools(if s.settingsApplied then s.toolDefinition else s.rejectedTool))
    else if name == "tools/call" then
      if !s.settingsApplied then Success(id, Rejected(s.rejectedText))
      else
        (match reply
         case Ok(check) => Success(id, Checked(check))
         case Err(fault) => Failure(id, fault))
    else if name == "ping" then Success(id, Pong)
    else Failure(id, UnknownMethod(name))
  }

  lemma AnswerToEchoes(s: Server, request: Json, name: string, id: Json, reply: Result<ReportCheck, Fault>)
    ensures AnswerTo(s, request, name, id, reply).id == id
  {
  }

  lemma AnswerToCall(s: Server, request: Json, id: Json, check: ReportCheck)
    requires s.settingsApplied
    ensures AnswerTo(s, request, "tools/call", id, Ok(check)) == Success(id, Checked(check))
  {
    assert "tools/call"[0] == 't' && |"tools/call"| == |"tools/list"| && "tools/call"[6] != "tools/list"[6];
  }

  /** What a line is owed when `thin` thin calls have come in, this line included. */
  ghost function Owe(s: Server, line: string, thin: nat): Option<Response> {
    if IsAnswered(s, line) then Some(Answer(s, line, thin)) else None
  }

  method HandleLine(s: Server, thinBefore: nat, line: string) returns (response: Option<Response>, thinReports: nat)
    requires !Blank(s.u, line)
    ensures thinReports == thinBefore + (if IsThinCall(s, line) then 1 else 0)
    ensures response == Owe(s, line, thinReports)
  {
    thinReports := thinBefore;
    var parsed := s.parse(line);
    if parsed.Err? {
      return Some(Failure(Null, ParseError(parsed.error))), thinReports;
    }
    var request := parsed.value;
    var name := OrEmpty(GetStr(request, "method"));
    var id := request.Get("id");
    if id.None? {
      return None, thinReports;
    }
    if name == "initialize" {
      return Some(Success(id.value, Initialized(s.initialized(request)))), thinReports;
    } else if name == "tools/list" && !s.settingsApplied {
      return Some(Success(id.value, Tools(s.rejectedTool))), thinReports;
    } else if name == "tools/list" {
      return Some(Success(id.value, Tools(s.toolDefinition))), thinReports;
    } else if name == "tools/call" && !s.settingsApplied {
      return Some(Success(id.value, Rejected(s.rejectedText))), thinReports;
    } else if name == "tools/call" {
      var result;
      result, thinReports := CallTool(s, thinReports, request.Get("params"));
      match result {
        case Ok(check) => return Some(Success(id.value, Checked(check))), thinReports;
        case Err(fault) => return Some(Failure(id.value, fault)), thinReports;
      }
    } else if name == "ping" {
      return Some(Success(id.value, Pong)), thinReports;
    }
    response := Some(Failure(id.value, UnknownMethod(name)));
  }

  /** How many of the first `k` lines are thin calls. */
  ghost function ThinCalls(s: Server, lines: seq<string>, k: nat): nat
    requires k <= |lines|
  {
    if k == 0 then 0 else ThinCalls(s, lines, k - 1) + (if IsThinCall(s, lines[k - 1]) then 1 else 0)
  }

  /** What each line is owed: each thin call is judged by how many thin calls
    * have come in up to and including it. */
  ghost function AllOwed(s: Server, lines: seq<string>): (owed: seq<Option<Response>>)
    ensures |owed| == |lines| && forall i :: 0 <= i < |lines| ==> owed[i] == Owe(s, lines[i], ThinCalls(s, lines, i + 1))
  {
    seq(|lines|, i requires 0 <= i < |lines| => Owe(s, lines[i], ThinCalls(s, lines, i + 1)))
  }

  function Given<T>(xs: seq<Option<T>>): seq<T> {
    if xs == [] then []
    else Given(xs[..|xs| - 1]) + GivenOne(xs[|xs| - 1])
  }

  function GivenOne<T>(x: Option<T>): seq<T> { if x.Some? then [x.value] else [] }

  lemma GivenNext<T>(xs: seq<Option<T>>, i: nat)
    requires i < |xs|
    ensures Given(xs[..i + 1]) == Given(xs[..i]) + GivenOne(xs[i])
  {
    assert xs[..i + 1][..i] == xs[..i];
  }

  lemma BlankIsOwedNothing(s: Server, line: string, thin: nat)
    requires Blank(s.u, line)
    ensures Owe(s, line, thin) == None && !IsThinCall(s, line)
  {
  }

  /** One line of the session: a blank one is skipped. */
  method ServeLine(s: Server, thinBefore: nat, line: string) returns (response: Option<Response>, thinReports: nat)
    ensures thinReports == thinBefore + (if IsThinCall(s, line) then 1 else 0)
    ensures response == Owe(s, line, thinReports)
  {
    if Blank(s.u, line) {
      BlankIsOwedNothing(s, line, thinBefore);
      return None, thinBefore;
    }
    response, thinReports := HandleLine(s, thinBefore, line);
  }

  method ServeChecked(s: Server, lines: seq<string>) returns (output: seq<Response>)
    ensures output == Given(AllOwed(s, lines))
  {
    output := [];
    var thinReports := 0;
    ghost var owed := AllOwed(s, lines);
    for i := 0 to |lines|
      invariant thinReports == ThinCalls(s, lines, i)
      invariant output == Given(owed[..i])
    {
      GivenNext(owed, i);
      var response;
      response, thinReports := ServeLine(s, thinReports, lines[i]);
      assert thinReports == ThinCalls(s, lines, i + 1);
      assert response == owed[i];
      output := output + GivenOne(response);
    }
    assert owed[..|lines|] == owed;
  }

  // ---- What a session guarantees ------------------------------------------------------

  /** How many of the first `k` are given. */
  function GivenBefore<T>(xs: seq<Option<T>>, k: nat): nat
    requires k <= |xs|
  {
    if k == 0 then 0 else GivenBefore(xs, k - 1) + (if xs[k - 1].Some? then 1 else 0)
  }

  lemma {:induction false} GivenInOrder<T>(xs: seq<Option<T>>, k: nat, i: nat)
    requires k <= |xs|
    ensures |Given(xs[..k])| == GivenBefore(xs, k)
    ensures i < k && xs[i].Some? ==>
              GivenBefore(xs, i) < |Given(xs[..k])| && Given(xs[..k])[GivenBefore(xs, i)] == xs[i].value
    decreases k
  {
    if k > 0 {
      GivenNext(xs, k - 1);
      GivenInOrder(xs, k - 1, i);
    }
  }

  lemma AnswerEchoesId(s: Server, line: string, thin: nat)
    requires IsAnswered(s, line)
    ensures Answer(s, line, thin).id == EchoedId(s, line)
  {
    match s.parse(line)
    case Err(_) =>
    case Ok(request) =>
      AnswerToEchoes(s, request, OrEmpty(GetStr(request, "method")), request.Get("id").value,
                     ToolReply(s, request.Get("params"), thin));
  }

  lemma OwedWhenAnswered(s: Server, lines: seq<string>, i: nat)
    requires i < |lines|
    ensures AllOwed(s, lines)[i].Some? <==> IsAnswered(s, lines[i])
    ensures IsAnswered(s, lines[i]) ==>
              AllOwed(s, lines)[i] == Some(Answer(s, lines[i], ThinCalls(s, lines, i + 1)))
  {
  }

  /** Where in the output the response to line `i` stands: after as many as
    * lines before it are owed one. */
  lemma ResponseAt(s: Server, lines: seq<string>, i: nat)
    requires i < |lines| && IsAnswered(s, lines[i])
    ensures var owed, output := AllOwed(s, lines), Given(AllOwed(s, lines));
      && |output| == GivenBefore(owed, |lines|)
      && GivenBefore(owed, i) < |output|
      && output[GivenBefore(owed, i)] == Answer(s, lines[i], ThinCalls(s, lines, i + 1))
  {
    var owed := AllOwed(s, lines);
    OwedWhenAnswered(s, lines, i);
    GivenInOrder(owed, |lines|, i);
    assert owed[..|lines|] == owed;
  }

  /** A response object of JSON-RPC 2.0, section 5, for the request `id`: of the
    * version, and with a result or an error, never both. */
  predicate IsResponse(j: Json, id: Json) {
    && j.Get("jsonrpc") == Some(Str("2.0")) && j.Get("id") == Some(id)
    && (j.Get("result").Some? <==> j.Get("error").None?)
  }

  lemma WireIsAResponse(s: Server, r: Response)
    ensures IsResponse(Wire(s, r), r.id) && (Wire(s, r).Get("error").Some? <==> r.Failure?)
    ensures r.Failure? ==> Wire(s, r).Get("error").value.Get("code") == Some(Json.Number(Whole(
      match r.fault case ParseError(_) => -32700 case UnknownMethod(_) => -32601 case _ => -32602)))
  {
    assert |"id"| < |"error"| < |"result"| < |"jsonrpc"| && |"code"| < |"message"|;
  }

  /** The answer to a report call says what was found, and whether it is an error. */
  lemma CheckReachesTheWire(s: Server, id: Json, check: ReportCheck)
    ensures var result := Wire(s, Success(id, Checked(check))).Get("result");
      && result.Some? && result.value.Get("isError") == Some(Bool(check.isError))
      && result.value.Get("content") == Some(Arr([Obj(map["type" := Str("text"), "text" := Str(s.text(check.message))])]))
  {
    assert |"id"| < |"result"| < |"jsonrpc"|;
    assert |"content"| == 7 == |"isError"| && "content"[0] == 'c' && "isError"[0] == 'i';
  }

  /** The output holds one response per unparseable or id-bearing line and no
    * other, in the order of the lines, each carrying its line's id (null for a
    * line that does not parse), as JSON-RPC 2.0, sections 4.1 and 5, asks. */
  lemma OneResponsePerRequest(s: Server, lines: seq<string>, i: nat)
    requires i < |lines|
    ensures var owed, output := AllOwed(s, lines), Given(AllOwed(s, lines));
      && |output| == GivenBefore(owed, |lines|)
      && (owed[i].Some? <==> IsAnswered(s, lines[i]))
      && (IsAnswered(s, lines[i]) ==>
            && GivenBefore(owed, i) < |output|
            && IsResponse(Wire(s, output[GivenBefore(owed, i)]), EchoedId(s, lines[i])))
  {
    var owed := AllOwed(s, lines);
    OwedWhenAnswered(s, lines, i);
    GivenInOrder(owed, |lines|, i);
    assert owed[..|lines|] == owed;
    if IsAnswered(s, lines[i]) {
      var r := Given(owed)[GivenBefore(owed, i)];
      AnswerEchoesId(s, lines[i], ThinCalls(s, lines, i + 1));
      WireIsAResponse(s, r);
    }
  }

  /** The verdict on a line that is a thin call. */
  ghost function ThinVerdict(s: Server, line: string): Verdict
    requires IsThinCall(s, line)
  {
    Judge(s.u, s.stage, ArgumentsOf(s.parse(line).value.Get("params").value))
  }

  /** The first two thin reports are turned away; every later one is recorded
    * with the number of the attempt it is. */
  lemma ThinCallsAreNumbered(s: Server, lines: seq<string>, i: nat)
    requires i < |lines| && IsThinCall(s, lines[i])
    ensures var owed, output, n := AllOwed(s, lines), Given(AllOwed(s, lines)), ThinCalls(s, lines, i + 1);
      && IsAnswered(s, lines[i]) && GivenBefore(owed, i) < |output|
      && output[GivenBefore(owed, i)] == Success(EchoedId(s, lines[i]), Checked(ThinReply(s, lines[i], n)))
  {
    ResponseAt(s, lines, i);
    ThinCallReply(s, lines[i], ThinCalls(s, lines, i + 1));
  }

  lemma ThinCallReply(s: Server, line: string, n: nat)
    requires IsThinCall(s, line) && n > 0
    ensures IsAnswered(s, line)
    ensures Answer(s, line, n) == Success(EchoedId(s, line), Checked(ThinReply(s, line, n)))
  {
    var request := s.parse(line).value;
    ThinToolReply(s, line, n);
    AnswerToCall(s, request, request.Get("id").value, ThinReply(s, line, n));
  }

  lemma ThinToolReply(s: Server, line: string, n: nat)
    requires IsThinCall(s, line) && n > 0
    ensures ToolReply(s, s.parse(line).value.Get("params"), n) == Ok(ThinReply(s, line, n))
  {
    var v := ThinVerdict(s, line);
    ReplyToThin(s.stage, v, n);
  }

  lemma ReplyToThin(stage: StageReport, v: Verdict, n: nat)
    requires v.Thin? && n > 0
    ensures Reply(stage, v, n) ==
      if n == 1 || n == 2 then ReportCheck(SectionsMissing(v.missing, stage.requiredSections), true)
      else ReportCheck(RecordedThin(v.outcome, v.missing, n), false)
  {
  }

  ghost function ThinReply(s: Server, line: string, attempt: nat): ReportCheck
    requires IsThinCall(s, line)
  {
    var v := ThinVerdict(s, line);
    if attempt == 1 || attempt == 2 then ReportCheck(SectionsMissing(v.missing, s.stage.requiredSections), true)
    else ReportCheck(RecordedThin(v.outcome, v.missing, attempt), false)
  }

  /** How many of the first `k` lines were turned away for missing sections. */
  ghost function TurnedAway(s: Server, lines: seq<string>, k: nat): nat
    requires k <= |lines|
  {
    if k == 0 then 0
    else TurnedAway(s, lines, k - 1) +
         (if IsThinCall(s, lines[k - 1]) &&
             Reply(s.stage, ThinVerdict(s, lines[k - 1]), ThinCalls(s, lines, k)).isError then 1 else 0)
  }

  /** A session turns away at most two reports, and fewer only if fewer were thin. */
  lemma {:induction false} AtMostTwoAreTurnedAway(s: Server, lines: seq<string>, k: nat)
    requires k <= |lines|
    ensures TurnedAway(s, lines, k) == if ThinCalls(s, lines, k) < 2 then ThinCalls(s, lines, k) else 2
  {
    if k > 0 {
      AtMostTwoAreTurnedAway(s, lines, k - 1);
    }
  }

  /** A line that is not a thin call, put anywhere into a session, spends nothing:
    * every other line is judged as it would have been without it. */
  lemma {:induction false} OtherLinesSpendNothing(s: Server, before: seq<string>, x: string, after: seq<string>, k: nat)
    requires !IsThinCall(s, x) && k <= |after|
    ensures ThinCalls(s, before + [x] + after, |before| + 1 + k) == ThinCalls(s, before + after, |before| + k)
    decreases k
  {
    var long, short := before + [x] + after, before + after;
    if k == 0 {
      assert long[|before|] == x;
      SameStart(s, long, short, |before|);
    } else {
      assert long[|before| + k] == after[k - 1] == short[|before| + k - 1];
      OtherLinesSpendNothing(s, before, x, after, k - 1);
    }
  }

  lemma {:induction false} SameStart(s: Server, a: seq<string>, b: seq<string>, k: nat)
    requires k <= |a| && k <= |b| && a[..k] == b[..k]
    ensures ThinCalls(s, a, k) == ThinCalls(s, b, k)
  {
    if k > 0 {
      assert a[k - 1] == a[..k][k - 1] == b[..k][k - 1] == b[k - 1];
      assert a[..k - 1] == a[..k][..k - 1] == b[..k][..k - 1] == b[..k - 1];
      SameStart(s, a, b, k - 1);
    }
  }
}
