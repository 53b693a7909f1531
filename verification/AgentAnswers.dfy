/** What the agent answers, in terms of what the model replied and the tools returned. */
module AgentAnswers {
  import opened PythonText
  import opened Json
  import opened CacheKey
  import opened ReportParser
  import opened AgentLoop
  import opened AgentProofs
  import opened AgentRecords
  import opened AgentTheorems
  import opened Wrappers

  // ---------- Model calls and verdicts ----------

  /** The model call that begins with attempt `start` ends with its `n`-th attempt: the first response, or
      the third error. */
  ghost predicate CallEnds(w: World, start: nat, n: nat) {
    && 1 <= n <= 3 && (forall k :: start <= k < start + n - 1 ==> !w.api(k).Responded?)
    && (n == 3 || w.api(start + n - 1).Responded?)
  }

  lemma CallIs(w: World, start: nat, n: nat)
    requires CallEnds(w, start, n)
    ensures CallLlm(w, start, 1) == (w.api(start + n - 1), start + n)
  {
    assert n > 1 ==> !w.api(start).Responded?;
    assert n > 2 ==> !w.api(start + 1).Responded?;
    assert CallLlm(w, start, 3) == CallLlm(w, start, MAX_ATTEMPTS);
  }

  lemma CallEndsSomewhere(w: World, start: nat) returns (n: nat)
    ensures CallEnds(w, start, n)
  {
    n := if w.api(start).Responded? then 1 else if w.api(start + 1).Responded? then 2 else 3;
  }

  /** The state in which the reply of a call with `n` attempts is handled. */
  function AfterCall(st: State, n: nat): State {
    st.(apiAttempts := st.apiAttempts + n, requests := st.requests + [st.messages])
  }

  /** The content holds a candidate object that the schema accepts with this verdict. */
  ghost predicate Accepts(w: World, content: Str, v: Verdict) {
    v.Accepted? && ExtractJson(content).Some? && w.judge(ExtractJson(content).value) == v
  }

  ghost predicate Rejects(w: World, content: Str) {
    ExtractJson(content).Some? ==> !w.judge(ExtractJson(content).value).Accepted?
  }

  /** The report is the model's own: its text, score, events and consumers, the label its score demands,
      and counts no smaller than what the run counted. */
  ghost predicate Reports(report: Report, v: Verdict, calls: nat, iterations: nat)
    requires v.Accepted?
  {
    && report.summary == Authored(v.summary) && report.score == v.score
    && report.timeline == v.timeline && report.consumers == v.consumers
    && (report.confidence == HIGH <==> v.score >= 0.85) && (report.confidence == LOW <==> v.score < 0.60)
    && report.toolCallsMade == (if v.toolCallsMade >= calls then v.toolCallsMade else calls)
    && report.agentIterations == (if v.agentIterations >= iterations then v.agentIterations else iterations)
  }

  /** The report the loop builds when it gives up: a low score, one event at the trigger time, and its counts. */
  ghost predicate GivesUp(report: Report, subject: Subject, reason: Reason, calls: nat, iterations: nat) {
    && report.summary == Unable(reason) && report.score == 0.2 && report.confidence == LOW
    && |report.timeline| == 1 && report.timeline[0].occurredAt == subject.eventTime
    && report.timeline[0].entityFqn == subject.tableFqn && report.timeline[0].eventType == Text("dq_test_failure")
    && report.timeline[0].entityType == Text("table") && report.timeline[0].sequence == 1
    && report.timeline[0].description == Text("Fallback report generated due to loop termination.")
    && report.consumers == [] && report.toolCallsMade == calls && report.agentIterations == iterations
  }

  lemma FallbackGivesUp(subject: Subject, reason: Reason, calls: nat, iterations: nat)
    ensures GivesUp(FallbackReport(subject, reason, calls, iterations), subject, reason, calls, iterations)
  {
  }

  // ---------- One turn, by the reply that ends its model call ----------

  /** The turn in which the call ends with that attempt. */
  ghost predicate IsTurn(w: World, cfg: Settings, hasDb: bool, subject: Subject, st: State, n: nat, last: Attempt,
                         p: Progress) {
    && CallEnds(w, st.apiAttempts, n) && w.api(st.apiAttempts + n - 1) == last
    && p == Turn(w, cfg, hasDb, subject, st)
  }

  lemma TurnHandles(w: World, cfg: Settings, hasDb: bool, subject: Subject, st: State, n: nat, last: Attempt,
                    p: Progress)
    requires IsTurn(w, cfg, hasDb, subject, st, n, last, p)
    ensures p == if last.Responded? then OnResponse(w, hasDb, subject, AfterCall(st, n), last.response)
                 else OnApiError(cfg, subject, AfterCall(st, n), last)
  {
    hide OnResponse, OnApiError, CallLlm;
    CallIs(w, st.apiAttempts, n);
  }

  /** A stop reply with an accepted report ends the run with that report; nothing else changes. */
  lemma AcceptedStopEnds(w: World, cfg: Settings, hasDb: bool, subject: Subject, st: State, n: nat, content: Str,
                         raw: seq<RawCall>, v: Verdict, p: Progress)
    requires IsTurn(w, cfg, hasDb, subject, st, n, Responded(Choice(Stop, content, raw)), p) && Accepts(w, content, v)
    ensures p.ended.Some? && Reports(p.ended.value, v, st.toolCallsMade, st.iteration + 1)
    ensures p.st == AfterCall(st, n)
  {
    hide ExtractJson, Turn;
    TurnHandles(w, cfg, hasDb, subject, st, n, Responded(Choice(Stop, content, raw)), p);
  }

  /** A stop reply without one: the collection prompt goes out if no tool was called and it has not been
      sent, else the correction prompt if that has not been sent, else the run ends in a fallback. */
  lemma RejectedStopPrompts(w: World, cfg: Settings, hasDb: bool, subject: Subject, st: State, n: nat, content: Str,
                            raw: seq<RawCall>, p: Progress)
    requires IsTurn(w, cfg, hasDb, subject, st, n, Responded(Choice(Stop, content, raw)), p) && Rejects(w, content)
    requires FlagsAgree(st.messages, st.collectionSent, st.correctionSent, st.toolCallsMade)
    ensures
      if st.toolCallsMade == 0 && Instruction(CollectTools) !in st.messages then
        && p.ended.None? && p.st.messages == st.messages + [Instruction(CollectTools)]
        && p.st.iteration == st.iteration + 1
      else if Instruction(CorrectOutput) !in st.messages then
        && p.ended.None? && p.st.messages == st.messages + [Instruction(CorrectOutput)]
        && p.st.iteration == st.iteration + 1
      else
        && p.ended.Some? && p.st.messages == st.messages && p.st.iteration == st.iteration
        && GivesUp(p.ended.value, subject, UnparsedAfterCorrection, st.toolCallsMade, st.iteration + 1)
    ensures p.st.failures == st.failures + [st.toolCallsMade]
    ensures p.st == AfterCall(st, n).(messages := p.st.messages, iteration := p.st.iteration, failures := p.st.failures,
                                 collectionSent := p.st.collectionSent, correctionSent := p.st.correctionSent)
  {
    hide ExtractJson, Turn, FallbackReport, GivesUp, FlagsAgree;
    FlagsInTranscript(st);
    TurnHandles(w, cfg, hasDb, subject, st, n, Responded(Choice(Stop, content, raw)), p);
    FallbackGivesUp(subject, UnparsedAfterCorrection, st.toolCallsMade, st.iteration + 1);
  }

  lemma FlagsInTranscript(st: State)
    requires FlagsAgree(st.messages, st.collectionSent, st.correctionSent, st.toolCallsMade)
    ensures st.collectionSent <==> Instruction(CollectTools) in st.messages
    ensures st.correctionSent <==> Instruction(CorrectOutput) in st.messages
  {
    hide *;
    SentIsIn(st.messages, CollectTools);
    SentIsIn(st.messages, CorrectOutput);
    FlagsSent(st);
  }

  lemma SentIsIn(ms: seq<Message>, p: Prompt)
    ensures (exists i :: Sent(ms, p, i)) <==> Instruction(p) in ms
  {
    if Instruction(p) in ms {
      var i :| 0 <= i < |ms| && ms[i] == Instruction(p);
      assert Sent(ms, p, i);
    }
  }

  lemma FlagsSent(st: State)
    requires FlagsAgree(st.messages, st.collectionSent, st.correctionSent, st.toolCallsMade)
    ensures st.collectionSent <==> exists i :: Sent(st.messages, CollectTools, i)
    ensures st.correctionSent <==> exists i :: Sent(st.messages, CorrectOutput, i)
  {
  }

  /** An empty reply ends the run; one that was cut off asks for a shorter one; any other is passed over. */
  lemma OtherRepliesHandled(w: World, cfg: Settings, hasDb: bool, subject: Subject, st: State, n: nat,
                            response: Response, p: Progress)
    requires IsTurn(w, cfg, hasDb, subject, st, n, Responded(response), p)
    ensures response.NoChoices? ==>
      && p.ended.Some? && p.st == AfterCall(st, n)
      && GivesUp(p.ended.value, subject, EmptyChoices, st.toolCallsMade, st.iteration + 1)
    ensures response.NoMessage? ==>
      && p.ended.Some? && p.st == AfterCall(st, n)
      && GivesUp(p.ended.value, subject, MissingMessage, st.toolCallsMade, st.iteration + 1)
    ensures response.Choice? && response.finish.Length? ==>
      p.ended.None? && p.st == AfterCall(st, n).(messages := st.messages + [Instruction(ShortenOutput)],
                                            iteration := st.iteration + 1)
    ensures response.Choice? && response.finish.OtherFinish? ==>
      p.ended.None? && p.st == AfterCall(st, n).(iteration := st.iteration + 1)
  {
    hide Turn, FallbackReport, GivesUp, OnStop, OnToolCalls;
    TurnHandles(w, cfg, hasDb, subject, st, n, Responded(response), p);
    FallbackGivesUp(subject, EmptyChoices, st.toolCallsMade, st.iteration + 1);
    FallbackGivesUp(subject, MissingMessage, st.toolCallsMade, st.iteration + 1);
  }

  /** A rate limit is waited out as long as the setting allows one more; then, and for any other error,
      the run ends. */
  lemma ErrorsHandled(w: World, cfg: Settings, hasDb: bool, subject: Subject, st: State, n: nat, last: Attempt,
                    p: Progress)
    requires IsTurn(w, cfg, hasDb, subject, st, n, last, p)
    ensures last.RateLimited? ==> p.st == AfterCall(st, n).(rateLimitRetries := st.rateLimitRetries + 1)
    ensures last.RateLimited? && st.rateLimitRetries < cfg.rateLimitRetries ==> p.ended.None?
    ensures last.RateLimited? && st.rateLimitRetries >= cfg.rateLimitRetries ==>
      p.ended.Some? && GivesUp(p.ended.value, subject, RateLimitExceeded, st.toolCallsMade, st.iteration + 1)
    ensures last.TimedOut? ==>
      && p.ended.Some? && p.st == AfterCall(st, n)
      && GivesUp(p.ended.value, subject, LlmTimeout, st.toolCallsMade, st.iteration + 1)
    ensures last.ApiFailed? ==>
      && p.ended.Some? && p.st == AfterCall(st, n)
      && GivesUp(p.ended.value, subject, ApiCallFailed, st.toolCallsMade, st.iteration + 1)
  {
    hide Turn, FallbackReport, GivesUp, OnResponse;
    TurnHandles(w, cfg, hasDb, subject, st, n, last, p);
    FallbackGivesUp(subject, RateLimitExceeded, st.toolCallsMade, st.iteration + 1);
    FallbackGivesUp(subject, LlmTimeout, st.toolCallsMade, st.iteration + 1);
    FallbackGivesUp(subject, ApiCallFailed, st.toolCallsMade, st.iteration + 1);
  }

  // ---------- Tool calls as the model made them ----------

  /** The requested call is the model's: its id, its function's name and what it was given. */
  ghost predicate IsCall(call: CallRef, raw: RawCall) {
    && call.id == raw.id
    && (raw.called.Some? ==> call.name == raw.called.value.name && call.given == raw.called.value.arguments)
    && (raw.called.None? ==> call.name == [] && call.given == TextArguments(Text("{}")))
  }

  ghost predicate AreCalls(calls: seq<CallRef>, raw: seq<RawCall>) {
    |calls| == |raw| && forall k :: 0 <= k < |calls| ==> IsCall(calls[k], raw[k])
  }

  lemma ExtractedIsCall(raw: RawCall, loads: Str -> Option<Json>)
    ensures var c := ExtractToolCall(raw, loads); IsCall(CallRef(c.id, c.name, c.rawArguments, c.given), raw)
  {
    assert Text("{}") == [123, 125];
  }

  /** A reply with tool calls: the assistant message repeats the model's calls, one tool message answers
      each under its id, and the next iteration begins. */
  lemma ToolCallsAnswered(w: World, cfg: Settings, hasDb: bool, subject: Subject, st: State, n: nat, content: Str,
                          raw: seq<RawCall>, p: Progress) returns (calls: seq<CallRef>, replies: seq<Message>)
    requires IsTurn(w, cfg, hasDb, subject, st, n, Responded(Choice(ToolCalls, content, raw)), p)
    ensures p.ended.None? && p.st.messages == st.messages + [Assistant(content, calls)] + replies
    ensures AreCalls(calls, raw) && |replies| == |raw|
    ensures forall k :: 0 <= k < |raw| ==> replies[k].ToolReply? && replies[k].callId == raw[k].id
    ensures p.st.iteration == st.iteration + 1 && p.st.toolCallsMade == st.toolCallsMade + |raw|
    ensures p.st.apiAttempts == st.apiAttempts + n
  {
    hide Turn, ExtractToolCall, HandleCalls, IsCall, RowAnswers;
    TurnHandles(w, cfg, hasDb, subject, st, n, Responded(Choice(ToolCalls, content, raw)), p);
    var extracted := ExtractToolCalls(raw, w.loads);
    var a := AssistantMessage(content, extracted);
    calls := a.calls;
    forall k | 0 <= k < |raw| ensures IsCall(calls[k], raw[k]) && extracted[k].id == raw[k].id {
      ExtractedIsCall(raw[k], w.loads);
      ExtractedId(raw[k], w.loads);
    }
    var mid := AfterCall(st, n).(messages := st.messages + [a]);
    var rows;
    replies, rows := CallsAnswer(w, hasDb, mid, extracted);
    CallsKeepIteration(w, hasDb, mid, extracted);
  }

  lemma ExtractedId(raw: RawCall, loads: Str -> Option<Json>)
    ensures ExtractToolCall(raw, loads).id == raw.id
  {
  }

  /** What each of the six tools, and any other name, answers. */
  lemma ToolAnswers(name: Str, outcome: HandlerOutcome)
    ensures var result := DispatchResult(name, outcome);
      if name == Text("get_upstream_lineage") || name == Text("get_dq_test_results")
        || name == Text("get_pipeline_entity_status") || name == Text("get_entity_owners")
        || name == Text("calculate_blast_radius") || name == Text("find_past_incidents")
      then
        && (outcome.Returned? ==> result == Payload(outcome.body, outcome.error))
        && (outcome.Raised? ==> result == Payload(name, Some(outcome.text)))
      else result == Payload([], Some(Text("Unknown tool: ") + name))
  {
  }

  // ---------- Whole runs ----------

  /** All calls of the tool-call replies among the first `n` attempts, in order. */
  ghost function CallsAsked(w: World, n: nat): seq<RawCall> {
    if n == 0 then []
    else
      CallsAsked(w, n - 1) + (
        match w.api(n - 1)
        case Responded(Choice(ToolCalls, _, raw)) => raw
        case _ => [])
  }

  lemma {:induction false} NothingAsked(w: World, start: nat, n: nat)
    requires forall k :: start <= k < n ==> !w.api(k).Responded?
    requires start <= n
    ensures CallsAsked(w, n) == CallsAsked(w, start)
    decreases n
  {
    if start < n {
      NothingAsked(w, start, n - 1);
    }
  }

  lemma CallAsks(w: World, start: nat, n: nat)
    requires CallEnds(w, start, n)
    ensures CallsAsked(w, start + n) == CallsAsked(w, start) + (
      match w.api(start + n - 1)
      case Responded(Choice(ToolCalls, _, raw)) => raw
      case _ => [])
  {
    NothingAsked(w, start, start + n - 1);
  }

  /** The calls in the transcript are those the model has asked for. */
  ghost predicate AskedInv(w: World, st: State) {
    AreCalls(Requested(st.messages), CallsAsked(w, st.apiAttempts))
  }

  lemma TurnKeepsRequested(w: World, cfg: Settings, hasDb: bool, subject: Subject, st: State, p: Progress)
    requires p == Turn(w, cfg, hasDb, subject, st) && AskedInv(w, st)
    requires FlagsAgree(st.messages, st.collectionSent, st.correctionSent, st.toolCallsMade)
    ensures AskedInv(w, p.st)
  {
    hide *;
    var n := CallEndsSomewhere(w, st.apiAttempts);
    var last := w.api(st.apiAttempts + n - 1);
    TurnIs(w, cfg, hasDb, subject, st, n, p);
    match last
    case Responded(Choice(Stop, content, raw)) =>
      StopKeepsRequested(w, cfg, hasDb, subject, st, n, content, raw, p);
      SameAsked(w, st, n, p.st);
    case Responded(Choice(ToolCalls, content, raw)) =>
      var calls, replies := ToolCallsAnswered(w, cfg, hasDb, subject, st, n, content, raw, p);
      ExchangeAsked(w, st, n, content, raw, calls, replies, p.st);
    case Responded(response) =>
      OtherRepliesHandled(w, cfg, hasDb, subject, st, n, response, p);
      SentParts(st, n);
      AppendOther(st.messages, Instruction(ShortenOutput));
      SameAsked(w, st, n, p.st);
    case _ =>
      ErrorsHandled(w, cfg, hasDb, subject, st, n, last, p);
      SentParts(st, n);
      SameAsked(w, st, n, p.st);
  }

  lemma TurnIs(w: World, cfg: Settings, hasDb: bool, subject: Subject, st: State, n: nat, p: Progress)
    requires CallEnds(w, st.apiAttempts, n) && p == Turn(w, cfg, hasDb, subject, st)
    ensures n > 0 && IsTurn(w, cfg, hasDb, subject, st, n, w.api(st.apiAttempts + n - 1), p)
  {
    hide Turn;
  }

  lemma SentParts(st: State, n: nat)
    ensures AfterCall(st, n).messages == st.messages && AfterCall(st, n).apiAttempts == st.apiAttempts + n
  {
  }

  lemma SameAsked(w: World, st: State, n: nat, after: State)
    requires AskedInv(w, st) && CallEnds(w, st.apiAttempts, n) && after.apiAttempts == st.apiAttempts + n
    requires var last := w.api(st.apiAttempts + n - 1);
      last.Responded? && last.response.Choice? ==> !last.response.finish.ToolCalls?
    requires Requested(after.messages) == Requested(st.messages)
    ensures AskedInv(w, after)
  {
    hide Requested, AreCalls, CallsAsked;
    CallAsks(w, st.apiAttempts, n);
    assert CallsAsked(w, st.apiAttempts) + [] == CallsAsked(w, st.apiAttempts);
  }

  lemma ExchangeAsked(w: World, st: State, n: nat, content: Str, raw: seq<RawCall>, calls: seq<CallRef>,
                      replies: seq<Message>, after: State)
    requires AskedInv(w, st) && CallEnds(w, st.apiAttempts, n) && after.apiAttempts == st.apiAttempts + n
    requires w.api(st.apiAttempts + n - 1) == Responded(Choice(ToolCalls, content, raw))
    requires after.messages == st.messages + [Assistant(content, calls)] + replies && AreCalls(calls, raw)
    requires forall k :: 0 <= k < |replies| ==> replies[k].ToolReply?
    ensures AskedInv(w, after)
  {
    hide Requested, CallsAsked, IsCall;
    CallAsks(w, st.apiAttempts, n);
    AppendOther(st.messages, Assistant(content, calls));
    AppendReplies(st.messages + [Assistant(content, calls)], replies);
  }

  lemma StopKeepsRequested(w: World, cfg: Settings, hasDb: bool, subject: Subject, st: State, n: nat, content: Str,
                           raw: seq<RawCall>, p: Progress)
    requires IsTurn(w, cfg, hasDb, subject, st, n, Responded(Choice(Stop, content, raw)), p)
    requires FlagsAgree(st.messages, st.collectionSent, st.correctionSent, st.toolCallsMade)
    ensures Requested(p.st.messages) == Requested(st.messages) && p.st.apiAttempts == st.apiAttempts + n
  {
    hide Turn, Requested, GivesUp, FlagsAgree, Reports, ExtractJson, IsTurn;
    AppendOther(st.messages, Instruction(CollectTools));
    AppendOther(st.messages, Instruction(CorrectOutput));
    if Rejects(w, content) {
      RejectedStopPrompts(w, cfg, hasDb, subject, st, n, content, raw, p);
    } else {
      AcceptedStopEnds(w, cfg, hasDb, subject, st, n, content, raw, w.judge(ExtractJson(content).value), p);
    }
  }

  lemma FlagsHold(cfg: Settings, hasDb: bool, st: State)
    requires LoopInv(cfg, hasDb, st)
    ensures FlagsAgree(st.messages, st.collectionSent, st.correctionSent, st.toolCallsMade)
  {
    hide RecordInv, FlagsAgree;
  }

  lemma {:induction false} RunKeepsRequested(w: World, cfg: Settings, hasDb: bool, subject: Subject, st: State,
                                             final: State, report: Report)
    requires LoopInv(cfg, hasDb, st) && AskedInv(w, st) && (final, report) == Run(w, cfg, hasDb, subject, st)
    ensures AskedInv(w, final)
    decreases Budget(cfg, st)
  {
    hide LoopInv, FinalInv, ReportInv, Turn, AskedInv, FlagsAgree;
    if st.iteration < cfg.maxIterations {
      var p := Turn(w, cfg, hasDb, subject, st);
      FlagsHold(cfg, hasDb, st);
      TurnKeepsInvariant(w, cfg, hasDb, subject, st, p);
      TurnKeepsRequested(w, cfg, hasDb, subject, st, p);
      TurnSpendsBudget(w, cfg, hasDb, subject, st);
      TurnParts(cfg, hasDb, p);
      if p.ended.None? {
        RunKeepsRequested(w, cfg, hasDb, subject, p.st, final, report);
      }
    }
  }

  /** The calls the transcript asks for are exactly those of the model's tool-call replies, in order. */
  lemma RequestedAreTheModels(w: World, cfg: Settings, hasDb: bool, subject: Subject, final: State, report: Report)
    requires EndOfRun(w, cfg, hasDb, subject, final, report)
    ensures AreCalls(Requested(final.messages), CallsAsked(w, final.apiAttempts))
  {
    hide Run, LoopInv, Requested;
    InitialInvariant(cfg, hasDb, Initial());
    InitialTranscript();
    RunKeepsRequested(w, cfg, hasDb, subject, Initial(), final, report);
  }

  /** So tool messages and log rows are the model's calls', and a row's arguments are parsed from them. */
  lemma RowsAreTheModels(w: World, cfg: Settings, hasDb: bool, subject: Subject, final: State, report: Report, k: nat)
    requires EndOfRun(w, cfg, hasDb, subject, final, report) && k < |ToolReplies(final.messages)|
    ensures |CallsAsked(w, final.apiAttempts)| == |ToolReplies(final.messages)|
    ensures var raw := CallsAsked(w, final.apiAttempts)[k];
      && ToolReplies(final.messages)[k].ToolReply? && ToolReplies(final.messages)[k].callId == raw.id
      && (hasDb ==> k < |final.log| && final.log[k].result == ToolReplies(final.messages)[k].result
                    && final.log[k].toolName == (if raw.called.Some? then raw.called.value.name else []))
  {
    hide Run, Requested, ToolReplies, Denotes, CallsAsked, RowServed;
    RequestedAreTheModels(w, cfg, hasDb, subject, final, report);
    var rows := RepliesServedFromDispatch(w, cfg, hasDb, subject, final, report);
    assert RowMatches(rows[k], ToolReplies(final.messages)[k], Requested(final.messages)[k]);
    assert IsCall(Requested(final.messages)[k], CallsAsked(w, final.apiAttempts)[k]);
  }

  // ---------- Dispatches are the first calls of their keys ----------

  /** What calling every new key once, in order, dispatches for these rows. */
  ghost function FirstCalls(w: World, rows: seq<LogRow>): seq<Dispatch> {
    if rows == [] then []
    else
      var n, front := |rows| - 1, FirstCalls(w, rows[..|rows| - 1]);
      if SameKeyBefore(rows, n) then front
      else front + [Dispatch(rows[n].toolName, rows[n].args, DispatchResult(rows[n].toolName, w.handler(|front|)))]
  }

  lemma CachedIffSeen(st: State, key: Str)
    requires ServedInv(true, st)
    ensures key in st.cache <==> exists i :: 0 <= i < |st.log| && RowKey(st.log[i]) == key
  {
    hide RowKey;
    var keys := RowKeys(st.log);
    KeySetExact(keys, key);
    if key in st.cache {
      var i :| 0 <= i < |keys| && keys[i] == key;
      assert RowKey(st.log[i]) == key;
    }
    if i :| 0 <= i < |st.log| && RowKey(st.log[i]) == key {
      assert RowServed(st.cache, st.log, keys, i);
    }
  }

  lemma CallDispatches(w: World, st: State, call: ToolCall)
    requires ServedInv(true, st) && st.dispatches == FirstCalls(w, st.log)
    ensures var after := HandleCall(w, true, st, call); after.dispatches == FirstCalls(w, after.log)
  {
    hide FirstCalls, ServedInv, ToolCacheKey, DispatchResult;
    var key := ToolCacheKey(call.name, call.args);
    var after := HandleCall(w, true, st, call);
    var row := after.log[|st.log|];
    CachedIffSeen(st, key);
    FirstCallsStep(w, st.log, row);
  }

  lemma FirstCallsStep(w: World, rows: seq<LogRow>, row: LogRow)
    ensures var front := FirstCalls(w, rows);
      FirstCalls(w, rows + [row]) ==
        if exists i :: 0 <= i < |rows| && RowKey(rows[i]) == RowKey(row) then front
        else front + [Dispatch(row.toolName, row.args, DispatchResult(row.toolName, w.handler(|front|)))]
  {
    hide RowKey, DispatchResult;
    var all, n := rows + [row], |rows|;
    assert all[..n] == rows && all[n] == row;
    assert SameKeyBefore(all, n) <==> exists i :: 0 <= i < n && RowKey(rows[i]) == RowKey(row) by {
      assert forall i :: 0 <= i < n ==> all[i] == rows[i];
    }
  }

  lemma {:induction false} CallsDispatch(w: World, st: State, calls: seq<ToolCall>)
    requires CacheInv(st) && ServedInv(true, st) && st.dispatches == FirstCalls(w, st.log)
    ensures var after := HandleCalls(w, true, st, calls); after.dispatches == FirstCalls(w, after.log)
    decreases calls
  {
    hide FirstCalls, ServedInv, CacheInv, HandleCall;
    if calls != [] {
      CallDispatches(w, st, calls[0]);
      CallKeepsCache(w, true, st, calls[0]);
      CallKeepsServed(w, true, st, calls[0]);
      CallsDispatch(w, HandleCall(w, true, st, calls[0]), calls[1..]);
    }
  }

  lemma TurnDispatches(w: World, cfg: Settings, subject: Subject, st: State, p: Progress)
    requires p == Turn(w, cfg, true, subject, st) && CacheInv(st) && ServedInv(true, st)
    requires st.dispatches == FirstCalls(w, st.log)
    ensures p.st.dispatches == FirstCalls(w, p.st.log)
  {
    hide FirstCalls, ServedInv, CacheInv, HandleCalls, ExtractToolCalls, AssistantMessage, ParseReport, FallbackReport;
    var (attempt, used) := CallLlm(w, st.apiAttempts, 1);
    if attempt.Responded? && attempt.response.Choice? && attempt.response.finish.ToolCalls? {
      var calls := ExtractToolCalls(attempt.response.calls, w.loads);
      var a := AssistantMessage(attempt.response.content, calls);
      var mid := st.(apiAttempts := used, requests := st.requests + [st.messages], messages := st.messages + [a]);
      CacheUntouched(true, st, mid);
      CallsDispatch(w, mid, calls);
    }
  }

  lemma {:induction false} RunDispatches(w: World, cfg: Settings, subject: Subject, st: State, final: State,
                                         report: Report)
    requires LoopInv(cfg, true, st) && st.dispatches == FirstCalls(w, st.log)
    requires (final, report) == Run(w, cfg, true, subject, st)
    ensures final.dispatches == FirstCalls(w, final.log)
    decreases Budget(cfg, st)
  {
    hide LoopInv, FinalInv, ReportInv, Turn, FirstCalls, CacheInv, ServedInv;
    if st.iteration < cfg.maxIterations {
      var p := Turn(w, cfg, true, subject, st);
      TablesHold(cfg, st);
      TurnKeepsInvariant(w, cfg, true, subject, st, p);
      TurnDispatches(w, cfg, subject, st, p);
      TurnSpendsBudget(w, cfg, true, subject, st);
      TurnParts(cfg, true, p);
      if p.ended.None? {
        RunDispatches(w, cfg, subject, p.st, final, report);
      }
    }
  }

  lemma TablesHold(cfg: Settings, st: State)
    requires LoopInv(cfg, true, st)
    ensures CacheInv(st) && ServedInv(true, st)
  {
    hide RequestsInv, LogInv, CacheInv, ServedInv, PromptInv;
  }

  /** In every run the tools are called exactly for the first call of each key, in order: the cache does
      what a run that remembers every result would do. With a session the rows are the log. */
  lemma DispatchesAreFirstCalls(w: World, cfg: Settings, hasDb: bool, subject: Subject, final: State, report: Report)
    returns (rows: seq<LogRow>)
    requires EndOfRun(w, cfg, hasDb, subject, final, report)
    ensures hasDb ==> rows == final.log
    ensures final.dispatches == FirstCalls(w, rows)
    ensures |rows| == |ToolReplies(final.messages)| == |Requested(final.messages)|
    ensures forall k :: 0 <= k < |rows| ==>
      RowMatches(rows[k], ToolReplies(final.messages)[k], Requested(final.messages)[k])
  {
    hide Run, FirstCalls, LoopInv, ToolReplies, Requested, RowMatches, Denotes, RowServed;
    var logged, same := Run(w, cfg, true, subject, Initial()).0, Run(w, cfg, true, subject, Initial()).1;
    InitialInvariant(cfg, true, Initial());
    NothingDispatched(w);
    RunDispatches(w, cfg, subject, Initial(), logged, same);
    SessionOnlyAddsLog(w, cfg, subject, Initial());
    assert NoLog(Initial()) == Initial();
    rows := WithSession(w, cfg, subject, logged, same);
  }

  lemma NothingDispatched(w: World)
    ensures Initial().dispatches == FirstCalls(w, Initial().log)
  {
  }

  // ---------- How runs end ----------

  ghost predicate AcceptedStop(w: World, a: Attempt) {
    a.Responded? && a.response.Choice? && a.response.finish.Stop? && !Rejects(w, a.response.content)
  }

  /** A run's report, by the last attempt of the run. */
  ghost predicate EndFits(w: World, cfg: Settings, subject: Subject, final: State, report: Report) {
    var last := if final.apiAttempts == 0 then None else Some(w.api(final.apiAttempts - 1));
    if last.Some? && AcceptedStop(w, last.value) then
      exists v :: Accepts(w, last.value.response.content, v)
        && Reports(report, v, final.toolCallsMade, final.iteration + 1)
    else exists reason, iterations ::
      && GivesUp(report, subject, reason, final.toolCallsMade, iterations)
      && ReasonFits(w, cfg, final, last, reason)
      && iterations == (if reason.IterationLimit? then final.iteration else final.iteration + 1)
  }

  /** Why a run gave up. */
  ghost predicate ReasonFits(w: World, cfg: Settings, final: State, last: Option<Attempt>, reason: Reason) {
    match reason
    case RateLimitExceeded => last == Some(RateLimited) && final.rateLimitRetries > cfg.rateLimitRetries
    case LlmTimeout => last == Some(TimedOut)
    case ApiCallFailed => last == Some(ApiFailed)
    case EmptyChoices => last == Some(Responded(NoChoices))
    case MissingMessage => last == Some(Responded(NoMessage))
    case UnparsedAfterCorrection =>
      && last.Some? && last.value.Responded? && last.value.response.Choice? && last.value.response.finish.Stop?
      && Rejects(w, last.value.response.content) && Instruction(CorrectOutput) in final.messages
    case IterationLimit => final.iteration >= cfg.maxIterations
  }

  /** Neither ended nor accepted: what a turn that goes on leaves behind. */
  ghost predicate NotAccepted(w: World, st: State) {
    st.apiAttempts > 0 ==> !AcceptedStop(w, w.api(st.apiAttempts - 1))
  }

  lemma TurnEnds(w: World, cfg: Settings, hasDb: bool, subject: Subject, st: State, p: Progress)
    requires p == Turn(w, cfg, hasDb, subject, st)
    requires FlagsAgree(st.messages, st.collectionSent, st.correctionSent, st.toolCallsMade)
    ensures p.ended.None? ==> NotAccepted(w, p.st)
    ensures p.ended.Some? ==> EndFits(w, cfg, subject, p.st, p.ended.value)
  {
    hide Turn, GivesUp, FlagsAgree, Reports, Accepts, Rejects;
    var n := CallEndsSomewhere(w, st.apiAttempts);
    var last := w.api(st.apiAttempts + n - 1);
    match last
    case Responded(Choice(Stop, content, raw)) => StopEnds(w, cfg, hasDb, subject, st, n, content, raw, p);
    case Responded(Choice(ToolCalls, content, raw)) =>
      var calls, replies := ToolCallsAnswered(w, cfg, hasDb, subject, st, n, content, raw, p);
    case Responded(response) => OtherRepliesHandled(w, cfg, hasDb, subject, st, n, response, p);
    case _ => ErrorsHandled(w, cfg, hasDb, subject, st, n, last, p);
  }

  lemma StopEnds(w: World, cfg: Settings, hasDb: bool, subject: Subject, st: State, n: nat, content: Str,
                 raw: seq<RawCall>, p: Progress)
    requires IsTurn(w, cfg, hasDb, subject, st, n, Responded(Choice(Stop, content, raw)), p)
    requires FlagsAgree(st.messages, st.collectionSent, st.correctionSent, st.toolCallsMade)
    ensures p.ended.None? ==> NotAccepted(w, p.st)
    ensures p.ended.Some? ==> EndFits(w, cfg, subject, p.st, p.ended.value)
  {
    hide Turn, GivesUp, FlagsAgree, Reports, ExtractJson;
    if Rejects(w, content) {
      hide Rejects;
      RejectedStopPrompts(w, cfg, hasDb, subject, st, n, content, raw, p);
    } else {
      var v := w.judge(ExtractJson(content).value);
      AcceptedStopEnds(w, cfg, hasDb, subject, st, n, content, raw, v, p);
      assert Accepts(w, content, v);
    }
  }

  lemma {:induction false} RunFits(w: World, cfg: Settings, hasDb: bool, subject: Subject, st: State, final: State,
                                   report: Report)
    requires LoopInv(cfg, hasDb, st) && NotAccepted(w, st) && (final, report) == Run(w, cfg, hasDb, subject, st)
    ensures EndFits(w, cfg, subject, final, report)
    decreases Budget(cfg, st)
  {
    hide LoopInv, FinalInv, ReportInv, Turn, FlagsAgree, GivesUp, Accepts, AcceptedStop;
    if st.iteration < cfg.maxIterations {
      hide EndFits, NotAccepted;
      var p := Turn(w, cfg, hasDb, subject, st);
      FlagsHold(cfg, hasDb, st);
      TurnKeepsInvariant(w, cfg, hasDb, subject, st, p);
      TurnEnds(w, cfg, hasDb, subject, st, p);
      TurnSpendsBudget(w, cfg, hasDb, subject, st);
      TurnParts(cfg, hasDb, p);
      if p.ended.None? {
        RunFits(w, cfg, hasDb, subject, p.st, final, report);
      }
    } else {
      FallbackGivesUp(subject, IterationLimit, st.toolCallsMade, st.iteration);
    }
  }

  /** Every run ends with the model's own report if its last reply was an accepted stop, and otherwise
      with a fallback that names why. */
  lemma RunEndsFittingly(w: World, cfg: Settings, hasDb: bool, subject: Subject, final: State, report: Report)
    requires EndOfRun(w, cfg, hasDb, subject, final, report)
    ensures EndFits(w, cfg, subject, final, report)
  {
    hide Run, LoopInv, EndFits;
    InitialInvariant(cfg, hasDb, Initial());
    RunFits(w, cfg, hasDb, subject, Initial(), final, report);
  }

  /** A run returns a report of the model's iff its last reply was a stop whose content the schema accepts. */
  lemma AuthoredExactly(w: World, cfg: Settings, hasDb: bool, subject: Subject, final: State, report: Report)
    requires EndOfRun(w, cfg, hasDb, subject, final, report)
    ensures report.summary.Authored? <==> final.apiAttempts > 0 && AcceptedStop(w, w.api(final.apiAttempts - 1))
  {
    hide Run, AcceptedStop, ReasonFits;
    RunEndsFittingly(w, cfg, hasDb, subject, final, report);
  }
}
