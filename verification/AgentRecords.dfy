/** What the records of a run mean together: log rows and the calls they were made for, runs with and
    without a database session, and the log rows on their own. */
module AgentRecords {
  import opened PythonText
  import opened Json
  import opened CacheKey
  import opened ReportParser
  import opened AgentLoop
  import opened AgentProofs
  import opened Wrappers

  // ---------- Rows and the arguments they were called with ----------

  /** Row `k` carries the arguments that requested call `k` denotes. */
  ghost predicate ArgumentsInv(loads: Str -> Option<Json>, st: State) {
    && |st.log| <= |Requested(st.messages)|
    && forall k :: 0 <= k < |st.log| ==> Denotes(loads, Requested(st.messages)[k], st.log[k].args)
  }

  lemma ExchangeDenotes(cfg: Settings, loads: Str -> Option<Json>, hasDb: bool, st: State, a: Message,
                        replies: seq<Message>, rows: seq<LogRow>, after: State)
    requires ArgumentsInv(loads, st) && LogInv(cfg, hasDb, st) && Exchange(hasDb, st, a, replies, rows, after)
    requires forall k :: 0 <= k < |rows| ==> Denotes(loads, a.calls[k], rows[k].args)
    ensures ArgumentsInv(loads, after)
  {
    AppendOther(st.messages, a);
    AppendReplies(st.messages + [a], replies);
    RequestsAppended(loads, st.log, Requested(st.messages), rows, a.calls);
  }

  lemma RequestsAppended(loads: Str -> Option<Json>, log: seq<LogRow>, calls: seq<CallRef>,
                         rows: seq<LogRow>, more: seq<CallRef>)
    requires |rows| <= |more| && (|log| == |calls| || |rows| == 0) && |log| <= |calls|
    requires forall k :: 0 <= k < |log| ==> Denotes(loads, calls[k], log[k].args)
    requires forall k :: 0 <= k < |rows| ==> Denotes(loads, more[k], rows[k].args)
    ensures forall k :: 0 <= k < |log + rows| ==> Denotes(loads, (calls + more)[k], (log + rows)[k].args)
  {
    hide Denotes;
    forall k | 0 <= k < |log + rows| ensures Denotes(loads, (calls + more)[k], (log + rows)[k].args) {
      if k >= |log| {
        assert (log + rows)[k] == rows[k - |log|] && (calls + more)[k] == more[k - |log|];
      }
    }
  }

  /** Replies other than tool calls leave rows and requests alone. */
  lemma OtherRepliesKeepArguments(w: World, hasDb: bool, subject: Subject, st: State, response: Response, p: Progress)
    requires ArgumentsInv(w.loads, st) && p == OnResponse(w, hasDb, subject, st, response)
    requires response.Choice? ==> !response.finish.ToolCalls?
    ensures ArgumentsInv(w.loads, p.st)
  {
    hide ArgumentsInv;
    OtherRepliesShape(w, hasDb, subject, st, response, p);
    if prompt :| p.st.messages == st.messages + [Instruction(prompt)] {
      PromptKeepsArguments(w.loads, st, p.st, prompt);
    } else {
      SameArguments(w.loads, st, p.st);
    }
  }

  lemma OtherRepliesShape(w: World, hasDb: bool, subject: Subject, st: State, response: Response, p: Progress)
    requires p == OnResponse(w, hasDb, subject, st, response)
    requires response.Choice? ==> !response.finish.ToolCalls?
    ensures p.st.log == st.log
    ensures p.st.messages == st.messages || exists prompt :: p.st.messages == st.messages + [Instruction(prompt)]
  {
    hide ParseReport, FallbackReport;
  }

  lemma PromptKeepsArguments(loads: Str -> Option<Json>, st: State, after: State, prompt: Prompt)
    requires ArgumentsInv(loads, st) && after.log == st.log && after.messages == st.messages + [Instruction(prompt)]
    ensures ArgumentsInv(loads, after)
  {
    hide Denotes, Requested;
    AppendOther(st.messages, Instruction(prompt));
  }

  lemma SameArguments(loads: Str -> Option<Json>, st: State, after: State)
    requires ArgumentsInv(loads, st) && after.log == st.log && after.messages == st.messages
    ensures ArgumentsInv(loads, after)
  {
  }

  lemma TurnKeepsArguments(w: World, cfg: Settings, hasDb: bool, subject: Subject, st: State, p: Progress)
    requires LoopInv(cfg, hasDb, st) && st.iteration < cfg.maxIterations && p == Turn(w, cfg, hasDb, subject, st)
    requires ArgumentsInv(w.loads, st)
    ensures ArgumentsInv(w.loads, p.st)
  {
    hide LoopInv, Asked, OnResponse, OnToolCalls, ArgumentsInv;
    var (attempt, used) := CallLlm(w, st.apiAttempts, 1);
    var asked := st.(apiAttempts := used, requests := st.requests + [st.messages]);
    RequestKeeps(cfg, hasDb, st, used, asked);
    SameArguments(w.loads, st, asked);
    if attempt.Responded? {
      var response := attempt.response;
      if response.Choice? && response.finish.ToolCalls? {
        ToolCallsKeepArguments(w, cfg, hasDb, subject, asked, response, p);
      } else {
        OtherRepliesKeepArguments(w, hasDb, subject, asked, response, p);
      }
    } else {
      SameArguments(w.loads, asked, p.st);
    }
  }

  lemma ToolCallsKeepArguments(w: World, cfg: Settings, hasDb: bool, subject: Subject, st: State, response: Response,
                               p: Progress)
    requires Asked(cfg, hasDb, st) && ArgumentsInv(w.loads, st)
    requires response.Choice? && response.finish.ToolCalls? && p == OnResponse(w, hasDb, subject, st, response)
    ensures ArgumentsInv(w.loads, p.st)
  {
    hide Asked, OnToolCalls, OnStop, LogInv, CacheInv, ServedInv, Exchange, Denotes, ArgumentsInv;
    AskedParts(cfg, hasDb, st);
    var a, replies, rows := ToolCallsShape(w, hasDb, st, response.content, response.calls, p.st);
    ExchangeDenotes(cfg, w.loads, hasDb, st, a, replies, rows, p.st);
  }

  /** Every run ends with rows that carry the requested arguments. */
  lemma {:induction false} RunKeepsArguments(w: World, cfg: Settings, hasDb: bool, subject: Subject, st: State,
                                             final: State, report: Report)
    requires LoopInv(cfg, hasDb, st) && ArgumentsInv(w.loads, st) && (final, report) == Run(w, cfg, hasDb, subject, st)
    ensures ArgumentsInv(w.loads, final)
    decreases Budget(cfg, st)
  {
    hide LoopInv, FinalInv, ReportInv, Turn, ArgumentsInv;
    if st.iteration < cfg.maxIterations {
      var p := Turn(w, cfg, hasDb, subject, st);
      TurnKeepsInvariant(w, cfg, hasDb, subject, st, p);
      TurnKeepsArguments(w, cfg, hasDb, subject, st, p);
      TurnSpendsBudget(w, cfg, hasDb, subject, st);
      TurnParts(cfg, hasDb, p);
      if p.ended.None? {
        RunKeepsArguments(w, cfg, hasDb, subject, p.st, final, report);
      }
    }
  }

  // ---------- With and without a session ----------

  /** The state without its log rows. */
  function NoLog(st: State): State {
    st.(log := [])
  }

  lemma CallWithoutSession(w: World, st: State, call: ToolCall)
    ensures HandleCall(w, false, NoLog(st), call) == NoLog(HandleCall(w, true, st, call))
  {
    hide ToolCacheKey, DispatchResult;
  }

  lemma {:induction false} CallsWithoutSession(w: World, st: State, calls: seq<ToolCall>)
    ensures HandleCalls(w, false, NoLog(st), calls) == NoLog(HandleCalls(w, true, st, calls))
    decreases calls
  {
    hide HandleCall;
    if calls != [] {
      CallWithoutSession(w, st, calls[0]);
      CallsWithoutSession(w, HandleCall(w, true, st, calls[0]), calls[1..]);
    }
  }

  ghost predicate SameButLog(without: Progress, with: Progress) {
    without.st == NoLog(with.st) && without.ended == with.ended
  }

  lemma StopWithoutSession(w: World, subject: Subject, st: State, content: Str)
    ensures SameButLog(OnStop(w, subject, NoLog(st), content), OnStop(w, subject, st, content))
  {
    hide ParseReport, FallbackReport;
  }

  lemma ToolCallsWithoutSession(w: World, st: State, content: Str, raw: seq<RawCall>)
    ensures OnToolCalls(w, false, NoLog(st), content, raw) == NoLog(OnToolCalls(w, true, st, content, raw))
  {
    hide HandleCalls, ExtractToolCalls, AssistantMessage;
    var calls := ExtractToolCalls(raw, w.loads);
    CallsWithoutSession(w, st.(messages := st.messages + [AssistantMessage(content, calls)]), calls);
  }

  lemma ResponseWithoutSession(w: World, subject: Subject, st: State, response: Response)
    ensures SameButLog(OnResponse(w, false, subject, NoLog(st), response), OnResponse(w, true, subject, st, response))
  {
    hide OnStop, OnToolCalls, FallbackReport;
    match response
    case Choice(Stop, content, _) => StopWithoutSession(w, subject, st, content);
    case Choice(ToolCalls, content, raw) => ToolCallsWithoutSession(w, st, content, raw);
    case _ =>
  }

  lemma ApiErrorWithoutSession(cfg: Settings, subject: Subject, st: State, attempt: Attempt)
    requires !attempt.Responded?
    ensures SameButLog(OnApiError(cfg, subject, NoLog(st), attempt), OnApiError(cfg, subject, st, attempt))
  {
    hide FallbackReport;
  }

  lemma TurnWithoutSession(w: World, cfg: Settings, subject: Subject, st: State)
    ensures SameButLog(Turn(w, cfg, false, subject, NoLog(st)), Turn(w, cfg, true, subject, st))
  {
    hide OnResponse, OnApiError, CallLlm;
    var (attempt, used) := CallLlm(w, st.apiAttempts, 1);
    var asked := st.(apiAttempts := used, requests := st.requests + [st.messages]);
    if attempt.Responded? {
      ResponseWithoutSession(w, subject, asked, attempt.response);
    } else {
      ApiErrorWithoutSession(cfg, subject, asked, attempt);
    }
  }

  /** For equal replies and tool answers, a session changes nothing in a run but the log it leaves. */
  lemma {:induction false} SessionOnlyAddsLog(w: World, cfg: Settings, subject: Subject, st: State)
    ensures Run(w, cfg, false, subject, NoLog(st)).0 == NoLog(Run(w, cfg, true, subject, st).0)
    ensures Run(w, cfg, false, subject, NoLog(st)).1 == Run(w, cfg, true, subject, st).1
    decreases Budget(cfg, st)
  {
    hide Turn, FallbackReport;
    if st.iteration < cfg.maxIterations {
      var p := Turn(w, cfg, true, subject, st);
      TurnWithoutSession(w, cfg, subject, st);
      TurnSpendsBudget(w, cfg, true, subject, st);
      if p.ended.None? {
        SessionOnlyAddsLog(w, cfg, subject, p.st);
      }
    }
  }

  // ---------- The rows on their own ----------

  ghost predicate SameKeyBefore(log: seq<LogRow>, k: int)
    requires 0 <= k < |log|
  {
    exists i :: 0 <= i < k && RowKey(log[i]) == RowKey(log[k])
  }

  /** The first row of a key holds a tool's payload and its error, every later one the notice. */
  ghost predicate RowTells(log: seq<LogRow>, k: int)
    requires 0 <= k < |log|
  {
    && log[k].success == log[k].error.None?
    && if SameKeyBefore(log, k) then log[k].result == CachedNotice(log[k].toolName)
       else log[k].result.Payload? && log[k].error == log[k].result.error
  }

  /** What a log says by itself: iterations below the limit that never decrease, and one outcome per key. */
  ghost predicate LogTells(cfg: Settings, log: seq<LogRow>) {
    && (forall k :: 0 <= k < |log| ==> log[k].iteration < cfg.maxIterations && RowTells(log, k))
    && (forall j, k :: 0 <= j < k < |log| ==> log[j].iteration <= log[k].iteration)
    && (forall j, k :: 0 <= j < k < |log| && RowKey(log[j]) == RowKey(log[k]) ==> log[j].error == log[k].error)
  }

  lemma CachedPayload(st: State, key: Str)
    requires CacheInv(st) && key in st.cache
    ensures st.cache[key].Payload?
  {
    var keys := KeysOf(st.dispatches);
    KeySetExact(keys, key);
    var i :| 0 <= i < |keys| && keys[i] == key;
  }

  lemma RowsTell(hasDb: bool, st: State, k: int)
    requires CacheInv(st) && ServedInv(hasDb, st) && 0 <= k < |st.log|
    ensures RowTells(st.log, k)
    ensures RowKey(st.log[k]) in st.cache && st.log[k].error == ErrorOf(st.cache[RowKey(st.log[k])])
  {
    hide CacheInv, ToolCacheKey;
    var keys := RowKeys(st.log);
    assert RowServed(st.cache, st.log, keys, k);
    CachedPayload(st, keys[k]);
    if keys[k] in keys[..k] {
      var i :| 0 <= i < k && keys[..k][i] == keys[k];
      assert RowKey(st.log[i]) == RowKey(st.log[k]);
    }
    if SameKeyBefore(st.log, k) {
      var i :| 0 <= i < k && RowKey(st.log[i]) == RowKey(st.log[k]);
      assert keys[..k][i] == keys[k];
    }
  }

  lemma RecordTells(cfg: Settings, hasDb: bool, st: State)
    requires RecordInv(cfg, hasDb, st)
    ensures LogTells(cfg, st.log)
  {
    hide CacheInv, ServedInv, RequestsInv, RowKey, RowTells, RowMatches;
    forall k | 0 <= k < |st.log|
      ensures RowTells(st.log, k)
      ensures RowKey(st.log[k]) in st.cache && st.log[k].error == ErrorOf(st.cache[RowKey(st.log[k])])
    {
      RowsTell(hasDb, st, k);
    }
  }

  lemma EndTells(cfg: Settings, hasDb: bool, st: State)
    requires FinalInv(cfg, hasDb, st)
    ensures LogTells(cfg, st.log)
  {
    hide RecordInv;
    RecordTells(cfg, hasDb, st);
  }
}
