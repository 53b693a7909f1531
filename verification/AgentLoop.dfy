/** The tool-calling loop that investigates one incident. The model, the tools and the two
    parsers are arbitrary: a `World` answers every call the loop makes to them. */
module AgentLoop {
  import opened PythonText
  import opened Json
  import JsonPrinter
  import opened CacheKey
  import opened ReportParser
  import opened Wrappers

  // ---------- Messages and tool calls ----------

  datatype RawArguments = DictArguments(members: seq<Member>) | TextArguments(text: Str) | OtherArguments

  datatype CalledFunction = CalledFunction(name: Str, arguments: RawArguments)

  /** A call as the model's reply carries it. */
  datatype RawCall = RawCall(id: Str, called: Option<CalledFunction>)

  /** An extracted call; `given` is what the reply held as its arguments. */
  datatype ToolCall = ToolCall(id: Str, name: Str, args: seq<Member>, rawArguments: Str, given: RawArguments)

  /** A call as an assistant message repeats it: `arguments` is the text sent for what was `given`. */
  datatype CallRef = CallRef(id: Str, name: Str, arguments: Str, given: RawArguments)

  datatype Prompt = CollectTools | CorrectOutput | ShortenOutput

  datatype Message =
    | System
    | IncidentDescription
    | Instruction(prompt: Prompt)
    | Assistant(content: Str, calls: seq<CallRef>)
    | ToolReply(callId: Str, result: ToolResult)

  /** A handler's payload with its `error` entry, if it has one; or the notice for a repeated call. */
  datatype ToolResult = Payload(body: Str, error: Option<Str>) | CachedNotice(tool: Str)

  function ErrorOf(result: ToolResult): Option<Str> {
    if result.Payload? then result.error else None
  }

  /** What the arguments text stands for: the dict `json.loads` makes of it, or an empty one. */
  function ParsedText(text: Str, loads: Str -> Option<Json>): seq<Member> {
    match loads(text) case Some(Object(members)) => members case _ => []
  }

  function ParseToolArguments(raw: RawArguments, loads: Str -> Option<Json>): (seq<Member>, Str) {
    match raw
    case DictArguments(members) => (members, JsonPrinter.Print(Object(members)))
    case TextArguments(text) => (ParsedText(text, loads), text)
    case OtherArguments => ([], [123, 125])
  }

  function ExtractToolCall(call: RawCall, loads: Str -> Option<Json>): ToolCall {
    var name := if call.called.Some? then call.called.value.name else [];
    var raw := if call.called.Some? then call.called.value.arguments else TextArguments([123, 125]);
    var (args, text) := ParseToolArguments(raw, loads);
    ToolCall(call.id, name, args, text, raw)
  }

  function ExtractToolCalls(calls: seq<RawCall>, loads: Str -> Option<Json>): seq<ToolCall> {
    seq(|calls|, i requires 0 <= i < |calls| => ExtractToolCall(calls[i], loads))
  }

  function AssistantMessage(content: Str, calls: seq<ToolCall>): Message {
    Assistant(content, seq(|calls|, i requires 0 <= i < |calls| =>
      CallRef(calls[i].id, calls[i].name, calls[i].rawArguments, calls[i].given)))
  }

  // ---------- The outside world ----------

  datatype Finish = Stop | ToolCalls | Length | OtherFinish

  datatype Response = NoChoices | NoMessage | Choice(finish: Finish, content: Str, calls: seq<RawCall>)

  /** One attempt at the completion endpoint. */
  datatype Attempt = RateLimited | TimedOut | ApiFailed | Responded(response: Response)

  datatype HandlerOutcome = Returned(body: Str, error: Option<Str>) | Raised(text: Str)

  /** `api(n)` is the n-th attempt at the endpoint, `handler(n)` what the n-th dispatched tool does. */
  datatype World = World(api: nat -> Attempt, handler: nat -> HandlerOutcome,
                         loads: Str -> Option<Json>, judge: Str -> Verdict)

  datatype Settings = Settings(maxIterations: int, rateLimitRetries: int)

  /** The failing table and the time the fallback report gives its event. */
  datatype Subject = Subject(tableFqn: Str, eventTime: int)

  const MAX_ATTEMPTS: nat := 3

  /** Retries every API error twice; the last error is raised. Returns the attempts used so far. */
  function CallLlm(w: World, start: nat, attempt: nat): (r: (Attempt, nat))
    requires 1 <= attempt <= MAX_ATTEMPTS
    ensures start < r.1 <= start + MAX_ATTEMPTS + 1 - attempt && r.0 == w.api(r.1 - 1)
    ensures forall n :: start <= n < r.1 - 1 ==> !w.api(n).Responded?
    ensures r.0.Responded? || r.1 == start + MAX_ATTEMPTS + 1 - attempt
    decreases MAX_ATTEMPTS - attempt
  {
    var a := w.api(start);
    if a.Responded? || attempt == MAX_ATTEMPTS then (a, start + 1) else CallLlm(w, start + 1, attempt + 1)
  }

  method CallLlmWithRetry(w: World, start: nat) returns (a: Attempt, used: nat)
    ensures (a, used) == CallLlm(w, start, 1)
  {
    var attempt := 1;
    a, used := w.api(start), start + 1;
    while !a.Responded? && attempt < MAX_ATTEMPTS
      invariant 1 <= attempt <= MAX_ATTEMPTS && used == start + attempt && a == w.api(used - 1)
      invariant CallLlm(w, used - 1, attempt) == CallLlm(w, start, 1)
      decreases MAX_ATTEMPTS - attempt
    {
      attempt := attempt + 1;
      a, used := w.api(used), used + 1;
    }
  }

  // ---------- Tools ----------

  const HANDLERS: set<Str> := {
    Text("get_upstream_lineage"), Text("get_dq_test_results"), Text("get_pipeline_entity_status"),
    Text("get_entity_owners"), Text("calculate_blast_radius"), Text("find_past_incidents")
  }

  /** Dispatch is total: an unknown tool or a raising handler yields an error payload. */
  function DispatchResult(name: Str, outcome: HandlerOutcome): (r: ToolResult)
    ensures r.Payload? && (name !in HANDLERS || outcome.Raised? ==> r.error.Some?)
  {
    if name !in HANDLERS then Payload([], Some(Text("Unknown tool: ") + name))
    else match outcome
      case Returned(body, error) => Payload(body, error)
      case Raised(text) => Payload(name, Some(text))
  }

  /** The registry with its counter, one label per tool name. */
  class ToolRegistry {
    var ticks: multiset<Str>

    constructor ()
      ensures ticks == multiset{}
    {
      ticks := multiset{};
    }

    method DispatchTool(name: Str, outcome: HandlerOutcome) returns (result: ToolResult)
      modifies this
      ensures ticks == old(ticks) + multiset{name}
      ensures result == DispatchResult(name, outcome)
    {
      ticks := ticks + multiset{name};
      if name !in HANDLERS {
        return Payload([], Some(Text("Unknown tool: ") + name));
      }
      match outcome {
        case Returned(body, error) => result := Payload(body, error);
        case Raised(text) => result := Payload(name, Some(text));
      }
    }
  }

  // ---------- The loop's state ----------

  datatype LogRow = LogRow(toolName: Str, args: seq<Member>, result: ToolResult, success: bool,
                           error: Option<Str>, iteration: nat)

  datatype Dispatch = Dispatch(name: Str, args: seq<Member>, result: ToolResult)

  /** The loop's variables, and what an observer of the run has seen: the transcript at every model
      call, the attempts made, the dispatches in order, and for every stop reply that failed to
      parse the tool calls made before it. */
  datatype State = State(
    iteration: nat, toolCallsMade: nat, correctionSent: bool, collectionSent: bool, rateLimitRetries: nat,
    cache: map<Str, ToolResult>, messages: seq<Message>, log: seq<LogRow>,
    requests: seq<seq<Message>>, apiAttempts: nat, dispatches: seq<Dispatch>, failures: seq<nat>)

  function Initial(): State {
    State(0, 0, false, false, 0, map[], [System, IncidentDescription], [], [], 0, [], [])
  }

  function FallbackReport(subject: Subject, reason: Reason, toolCallsMade: nat, iteration: nat): Report {
    Report(Unable(reason), 0.2, LOW,
           [TimelineEvent(subject.eventTime, Text("dq_test_failure"), subject.tableFqn, Text("table"),
                          Text("Fallback report generated due to loop termination."), 1)],
           [], toolCallsMade, iteration)
  }

  // ---------- The loop as a transition function ----------

  /** The shared end of a tool call: log row, tool message, count. */
  function RecordCall(hasDb: bool, st: State, call: ToolCall, result: ToolResult, error: Option<Str>): State {
    var row := LogRow(call.name, call.args, result, error.None?, error, st.iteration);
    st.(log := if hasDb then st.log + [row] else st.log,
        messages := st.messages + [ToolReply(call.id, result)],
        toolCallsMade := st.toolCallsMade + 1)
  }

  function HandleCall(w: World, hasDb: bool, st: State, call: ToolCall): State {
    var key := ToolCacheKey(call.name, call.args);
    if key in st.cache then
      RecordCall(hasDb, st, call, CachedNotice(call.name), ErrorOf(st.cache[key]))
    else
      var result := DispatchResult(call.name, w.handler(|st.dispatches|));
      RecordCall(hasDb, st.(cache := st.cache[key := result],
                            dispatches := st.dispatches + [Dispatch(call.name, call.args, result)]),
                 call, result, ErrorOf(result))
  }

  function HandleCalls(w: World, hasDb: bool, st: State, calls: seq<ToolCall>): State
    decreases calls
  {
    if calls == [] then st else HandleCalls(w, hasDb, HandleCall(w, hasDb, st, calls[0]), calls[1..])
  }

  lemma HandleNext(w: World, hasDb: bool, st: State, calls: seq<ToolCall>, i: nat)
    requires i < |calls|
    ensures HandleCalls(w, hasDb, st, calls[i..])
      == HandleCalls(w, hasDb, HandleCall(w, hasDb, st, calls[i]), calls[i + 1..])
  {
    hide HandleCall;
    assert calls[i..][1..] == calls[i + 1..];
  }

  lemma HandleNone(w: World, hasDb: bool, st: State, calls: seq<ToolCall>)
    ensures HandleCalls(w, hasDb, st, calls[|calls|..]) == st
  {
  }

  /** The state after a turn, and the report if the turn ended the run. */
  datatype Progress = Progress(st: State, ended: Option<Report>)

  function Going(st: State): Progress {
    Progress(st, None)
  }

  function Ended(st: State, report: Report): Progress {
    Progress(st, Some(report))
  }

  function Max(a: int, b: int): int {
    if a >= b then a else b
  }

  /** A stop reply: a parsed report ends the run, else one of two prompts is tried. */
  function OnStop(w: World, subject: Subject, st: State, content: Str): Progress {
    match ParseReport(content, w.judge)
    case Some(report) =>
      Ended(st, report.(toolCallsMade := Max(report.toolCallsMade, st.toolCallsMade),
                        agentIterations := Max(report.agentIterations, st.iteration + 1)))
    case None =>
      var failed := st.(failures := st.failures + [st.toolCallsMade]);
      if st.toolCallsMade == 0 && !st.collectionSent then
        Going(failed.(collectionSent := true, messages := st.messages + [Instruction(CollectTools)],
                      iteration := st.iteration + 1))
      else if st.correctionSent then
        Ended(failed, FallbackReport(subject, UnparsedAfterCorrection, st.toolCallsMade, st.iteration + 1))
      else
        Going(failed.(correctionSent := true, messages := st.messages + [Instruction(CorrectOutput)],
                      iteration := st.iteration + 1))
  }

  function OnToolCalls(w: World, hasDb: bool, st: State, content: Str, raw: seq<RawCall>): State {
    var calls := ExtractToolCalls(raw, w.loads);
    var after := HandleCalls(w, hasDb, st.(messages := st.messages + [AssistantMessage(content, calls)]), calls);
    after.(iteration := after.iteration + 1)
  }

  function OnResponse(w: World, hasDb: bool, subject: Subject, st: State, response: Response): Progress {
    match response
    case NoChoices => Ended(st, FallbackReport(subject, EmptyChoices, st.toolCallsMade, st.iteration + 1))
    case NoMessage => Ended(st, FallbackReport(subject, MissingMessage, st.toolCallsMade, st.iteration + 1))
    case Choice(Stop, content, _) => OnStop(w, subject, st, content)
    case Choice(ToolCalls, content, raw) => Going(OnToolCalls(w, hasDb, st, content, raw))
    case Choice(Length, _, _) =>
      Going(st.(messages := st.messages + [Instruction(ShortenOutput)], iteration := st.iteration + 1))
    case Choice(OtherFinish, _, _) => Going(st.(iteration := st.iteration + 1))
  }

  /** A rate limit is waited out while its budget lasts; any other error ends the run. */
  function OnApiError(cfg: Settings, subject: Subject, st: State, attempt: Attempt): Progress
    requires !attempt.Responded?
  {
    match attempt
    case RateLimited =>
      var counted := st.(rateLimitRetries := st.rateLimitRetries + 1);
      if counted.rateLimitRetries <= cfg.rateLimitRetries then Going(counted)
      else Ended(counted, FallbackReport(subject, RateLimitExceeded, st.toolCallsMade, st.iteration + 1))
    case TimedOut => Ended(st, FallbackReport(subject, LlmTimeout, st.toolCallsMade, st.iteration + 1))
    case ApiFailed => Ended(st, FallbackReport(subject, ApiCallFailed, st.toolCallsMade, st.iteration + 1))
  }

  /** One pass of the loop body. */
  function Turn(w: World, cfg: Settings, hasDb: bool, subject: Subject, before: State): Progress {
    var (attempt, used) := CallLlm(w, before.apiAttempts, 1);
    var st := before.(apiAttempts := used, requests := before.requests + [before.messages]);
    if attempt.Responded? then OnResponse(w, hasDb, subject, st, attempt.response)
    else OnApiError(cfg, subject, st, attempt)
  }

  /** What is left of the two budgets. */
  function Budget(cfg: Settings, st: State): nat {
    Max(0, cfg.maxIterations - st.iteration) + Max(0, cfg.rateLimitRetries - st.rateLimitRetries)
  }

  lemma {:induction false} CallsKeepIteration(w: World, hasDb: bool, st: State, calls: seq<ToolCall>)
    ensures var after := HandleCalls(w, hasDb, st, calls);
      && after.iteration == st.iteration && after.rateLimitRetries == st.rateLimitRetries
      && after.correctionSent == st.correctionSent && after.collectionSent == st.collectionSent
      && after.requests == st.requests && after.apiAttempts == st.apiAttempts && after.failures == st.failures
      && after.toolCallsMade == st.toolCallsMade + |calls|
    decreases calls
  {
    if calls != [] {
      CallsKeepIteration(w, hasDb, HandleCall(w, hasDb, st, calls[0]), calls[1..]);
    }
  }

  lemma ResponseSpendsIteration(w: World, hasDb: bool, subject: Subject, st: State, response: Response)
    ensures var p := OnResponse(w, hasDb, subject, st, response);
      p.ended.None? ==> p.st.iteration == st.iteration + 1 && p.st.rateLimitRetries == st.rateLimitRetries
  {
    if response.Choice? && response.finish.ToolCalls? {
      var calls := ExtractToolCalls(response.calls, w.loads);
      CallsKeepIteration(w, hasDb,
        st.(messages := st.messages + [AssistantMessage(response.content, calls)]), calls);
    }
  }

  lemma TurnSpendsBudget(w: World, cfg: Settings, hasDb: bool, subject: Subject, st: State)
    requires st.iteration < cfg.maxIterations
    ensures var p := Turn(w, cfg, hasDb, subject, st); p.ended.None? ==> Budget(cfg, p.st) == Budget(cfg, st) - 1
  {
    var (a, used) := CallLlm(w, st.apiAttempts, 1);
    if a.Responded? {
      ResponseSpendsIteration(w, hasDb, subject, st.(apiAttempts := used, requests := st.requests + [st.messages]),
                              a.response);
    }
  }

  /** The whole run from `st` on. */
  function Run(w: World, cfg: Settings, hasDb: bool, subject: Subject, st: State): (State, Report)
    decreases Budget(cfg, st)
  {
    if st.iteration >= cfg.maxIterations then
      (st, FallbackReport(subject, IterationLimit, st.toolCallsMade, st.iteration))
    else
      TurnSpendsBudget(w, cfg, hasDb, subject, st);
      var p := Turn(w, cfg, hasDb, subject, st);
      if p.ended.None? then Run(w, cfg, hasDb, subject, p.st) else (p.st, p.ended.value)
  }

  /** One tick per dispatch, under the tool's name. */
  function Ticked(dispatches: seq<Dispatch>): (ticks: multiset<Str>)
    ensures |ticks| == |dispatches|
  {
    if dispatches == [] then multiset{}
    else Ticked(dispatches[..|dispatches| - 1]) + multiset{dispatches[|dispatches| - 1].name}
  }

  /** One run of the agent, with the loop's variables as fields. */
  class RcaRun {
    const w: World
    const cfg: Settings
    const hasDb: bool
    const subject: Subject
    const registry: ToolRegistry

    ghost const before: multiset<Str>

    var iteration: nat
    var toolCallsMade: nat
    var correctionSent: bool
    var collectionSent: bool
    var rateLimitRetries: nat
    var cache: map<Str, ToolResult>
    var messages: seq<Message>
    var log: seq<LogRow>
    var requests: seq<seq<Message>>
    var apiAttempts: nat
    var dispatches: seq<Dispatch>
    var failures: seq<nat>

    constructor (w: World, cfg: Settings, hasDb: bool, subject: Subject, registry: ToolRegistry)
      ensures Now() == Initial() && Counted() && before == registry.ticks
      ensures this.w == w && this.cfg == cfg && this.hasDb == hasDb && this.subject == subject
      ensures this.registry == registry
    {
      this.w, this.cfg, this.hasDb, this.subject, this.registry := w, cfg, hasDb, subject, registry;
      before := registry.ticks;
      iteration, toolCallsMade, correctionSent, collectionSent, rateLimitRetries := 0, 0, false, false, 0;
      cache, messages, log := map[], [System, IncidentDescription], [];
      requests, apiAttempts, dispatches, failures := [], 0, [], [];
    }

    ghost function Now(): State
      reads this
    {
      State(iteration, toolCallsMade, correctionSent, collectionSent, rateLimitRetries, cache, messages, log,
            requests, apiAttempts, dispatches, failures)
    }

    /** The shared end of a call: log row, tool message, count. */
    method RecordToolCall(call: ToolCall, result: ToolResult, error: Option<Str>)
      modifies this
      ensures Now() == RecordCall(hasDb, old(Now()), call, result, error)
    {
      if hasDb {
        log := log + [LogRow(call.name, call.args, result, error.None?, error, iteration)];
      }
      messages := messages + [ToolReply(call.id, result)];
      toolCallsMade := toolCallsMade + 1;
    }

    /** Serves one call from the cache or by dispatch. */
    method HandleToolCall(call: ToolCall)
      modifies this, registry
      ensures Now() == HandleCall(w, hasDb, old(Now()), call)
      ensures old(Counted()) ==> Counted()
    {
      var key := ToolCacheKey(call.name, call.args);
      if key in cache {
        RecordToolCall(call, CachedNotice(call.name), ErrorOf(cache[key]));
      } else {
        var result := registry.DispatchTool(call.name, w.handler(|dispatches|));
        cache := cache[key := result];
        dispatches := dispatches + [Dispatch(call.name, call.args, result)];
        RecordToolCall(call, result, ErrorOf(result));
      }
    }

    /** Appends the assistant message and answers its calls one by one. */
    method AnswerToolCalls(content: Str, raw: seq<RawCall>)
      modifies this, registry
      ensures Now() == OnToolCalls(w, hasDb, old(Now()), content, raw)
      ensures old(Counted()) ==> Counted()
    {
      hide HandleCall, ToolCacheKey, ExtractToolCalls, AssistantMessage, Ticked;
      var calls := ExtractToolCalls(raw, w.loads);
      messages := messages + [AssistantMessage(content, calls)];
      ghost var start := Now();
      assert calls[0..] == calls;
      for i := 0 to |calls|
        invariant HandleCalls(w, hasDb, start, calls) == HandleCalls(w, hasDb, Now(), calls[i..])
        invariant old(Counted()) ==> Counted()
      {
        HandleNext(w, hasDb, Now(), calls, i);
        HandleToolCall(calls[i]);
      }
      HandleNone(w, hasDb, Now(), calls);
      iteration := iteration + 1;
    }

    /** Since the run began the counter has ticked once per dispatch. */
    ghost predicate Counted()
      reads this, registry
    {
      registry.ticks == before + Ticked(dispatches)
    }

    /** Parses a stop reply; a report ends the run. */
    method HandleStop(content: Str) returns (ended: Option<Report>)
      modifies this
      ensures Progress(Now(), ended) == OnStop(w, subject, old(Now()), content)
      ensures dispatches == old(dispatches)
    {
      hide ParseReport, FallbackReport;
      var parsed := ParseReport(content, w.judge);
      ended := None;
      if parsed.Some? {
        ended := Some(parsed.value.(toolCallsMade := Max(parsed.value.toolCallsMade, toolCallsMade),
                                    agentIterations := Max(parsed.value.agentIterations, iteration + 1)));
      } else {
        failures := failures + [toolCallsMade];
        if toolCallsMade == 0 && !collectionSent {
          collectionSent := true;
          messages := messages + [Instruction(CollectTools)];
          iteration := iteration + 1;
        } else if correctionSent {
          ended := Some(FallbackReport(subject, UnparsedAfterCorrection, toolCallsMade, iteration + 1));
        } else {
          correctionSent := true;
          messages := messages + [Instruction(CorrectOutput)];
          iteration := iteration + 1;
        }
      }
    }

    /** The body of the loop. */
    method TakeTurn() returns (ended: Option<Report>)
      modifies this, registry
      ensures Progress(Now(), ended) == Turn(w, cfg, hasDb, subject, old(Now()))
      ensures old(Counted()) ==> Counted()
    {
      requests := requests + [messages];
      var attempt;
      attempt, apiAttempts := CallLlmWithRetry(w, apiAttempts);
      if attempt.Responded? {
        ended := HandleResponse(attempt.response);
      } else {
        ended := HandleApiError(attempt);
      }
    }

    method HandleApiError(attempt: Attempt) returns (ended: Option<Report>)
      requires !attempt.Responded?
      modifies this
      ensures Progress(Now(), ended) == OnApiError(cfg, subject, old(Now()), attempt)
      ensures dispatches == old(dispatches)
    {
      match attempt {
        case RateLimited =>
          rateLimitRetries := rateLimitRetries + 1;
          ended := if rateLimitRetries <= cfg.rateLimitRetries then None
                   else Some(FallbackReport(subject, RateLimitExceeded, toolCallsMade, iteration + 1));
        case TimedOut => ended := Some(FallbackReport(subject, LlmTimeout, toolCallsMade, iteration + 1));
        case ApiFailed => ended := Some(FallbackReport(subject, ApiCallFailed, toolCallsMade, iteration + 1));
      }
    }

    method HandleResponse(response: Response) returns (ended: Option<Report>)
      modifies this, registry
      ensures Progress(Now(), ended) == OnResponse(w, hasDb, subject, old(Now()), response)
      ensures old(Counted()) ==> Counted()
    {
      ended := None;
      if response.NoChoices? {
        ended := Some(FallbackReport(subject, EmptyChoices, toolCallsMade, iteration + 1));
      } else if response.NoMessage? {
        ended := Some(FallbackReport(subject, MissingMessage, toolCallsMade, iteration + 1));
      } else if response.finish.Stop? {
        ended := HandleStop(response.content);
      } else if response.finish.ToolCalls? {
        AnswerToolCalls(response.content, response.calls);
      } else {
        if response.finish.Length? {
          messages := messages + [Instruction(ShortenOutput)];
        }
        iteration := iteration + 1;
      }
    }

    /** Loops until a turn ends the run or the iterations are used up. */
    method Investigate() returns (report: Report)
      modifies this, registry
      ensures (Now(), report) == Run(w, cfg, hasDb, subject, old(Now()))
      ensures old(Counted()) ==> Counted()
    {
      while iteration < cfg.maxIterations
        invariant Run(w, cfg, hasDb, subject, old(Now())) == Run(w, cfg, hasDb, subject, Now())
        invariant old(Counted()) ==> Counted()
        decreases Budget(cfg, Now())
      {
        TurnSpendsBudget(w, cfg, hasDb, subject, Now());
        var ended := TakeTurn();
        if ended.Some? {
          return ended.value;
        }
      }
      report := FallbackReport(subject, IterationLimit, toolCallsMade, iteration);
    }
  }
}
