/** What holds at the end of every run of the agent. */
module AgentTheorems {
  import opened Json
  import JsonPrinter
  import opened CacheKey
  import opened ReportParser
  import opened AgentLoop
  import opened AgentProofs
  import opened AgentRecords

  /** `final` and `report` are how a run from the start ends. */
  ghost predicate EndOfRun(w: World, cfg: Settings, hasDb: bool, subject: Subject, final: State, report: Report) {
    (final, report) == Run(w, cfg, hasDb, subject, Initial())
  }

  lemma RunEnds(w: World, cfg: Settings, hasDb: bool, subject: Subject, final: State, report: Report)
    requires EndOfRun(w, cfg, hasDb, subject, final, report)
    ensures FinalInv(cfg, hasDb, final) && ReportInv(cfg, hasDb, final, report)
  {
    hide LoopInv, FinalInv, ReportInv, Run;
    InitialInvariant(cfg, hasDb, Initial());
    RunKeepsInvariant(w, cfg, hasDb, subject, Initial(), final, report);
  }

  /** At every model call the transcript is well formed, and it only ever grows at its end. */
  lemma TranscriptsWellFormed(w: World, cfg: Settings, hasDb: bool, subject: Subject, final: State, report: Report)
    requires EndOfRun(w, cfg, hasDb, subject, final, report)
    ensures forall i :: 0 <= i < |final.requests| ==> WellFormed(final.requests[i])
    ensures forall i, j :: 0 <= i <= j < |final.requests| ==> final.requests[i] <= final.requests[j]
    ensures forall i :: 0 <= i < |final.requests| ==> final.requests[i] <= final.messages
  {
    RunEnds(w, cfg, hasDb, subject, final, report);
  }

  /** Tool messages, requested calls and, with a session, log rows correspond one to one in order; a
      row carries its call's name and arguments and its message's result; rows carry nondecreasing
      iterations below the limit. */
  lemma LogMatchesTranscript(w: World, cfg: Settings, hasDb: bool, subject: Subject, final: State, report: Report)
    requires EndOfRun(w, cfg, hasDb, subject, final, report)
    ensures final.toolCallsMade == |ToolReplies(final.messages)| == |Requested(final.messages)|
    ensures if hasDb then |final.log| == final.toolCallsMade else final.log == []
    ensures forall k :: 0 <= k < |final.log| ==>
      && RowMatches(final.log[k], ToolReplies(final.messages)[k], Requested(final.messages)[k])
      && Denotes(w.loads, Requested(final.messages)[k], final.log[k].args)
    ensures forall j, k :: 0 <= j < k < |final.log| ==>
      final.log[j].iteration <= final.log[k].iteration < cfg.maxIterations
  {
    hide Run, Denotes, RowMatches, ToolReplies, Requested, RequestsInv, CacheInv, ServedInv;
    RunEnds(w, cfg, hasDb, subject, final, report);
    EndArguments(w, cfg, hasDb, subject, final, report);
  }

  lemma EndArguments(w: World, cfg: Settings, hasDb: bool, subject: Subject, final: State, report: Report)
    requires EndOfRun(w, cfg, hasDb, subject, final, report)
    ensures ArgumentsInv(w.loads, final)
  {
    hide LoopInv, Run;
    InitialInvariant(cfg, hasDb, Initial());
    RunKeepsArguments(w, cfg, hasDb, subject, Initial(), final, report);
  }

  /** The log by itself shows iterations below the limit that never decrease, and one outcome per key,
      told in full by the key's first row. */
  lemma LogTellsRun(w: World, cfg: Settings, hasDb: bool, subject: Subject, final: State, report: Report)
    requires EndOfRun(w, cfg, hasDb, subject, final, report)
    ensures LogTells(cfg, final.log)
  {
    hide Run, RecordInv, LogTells;
    RunEnds(w, cfg, hasDb, subject, final, report);
    RecordTells(cfg, hasDb, final);
  }

  /** The transcript alone shows it too: also without a session, the tool messages hold what the rows
      would, the dispatched result for the first call of a key and the notice for later ones. */
  lemma RepliesServedFromDispatch(w: World, cfg: Settings, hasDb: bool, subject: Subject, final: State, report: Report)
    returns (rows: seq<LogRow>)
    requires EndOfRun(w, cfg, hasDb, subject, final, report)
    ensures hasDb ==> rows == final.log
    ensures |rows| == |ToolReplies(final.messages)| == |Requested(final.messages)|
    ensures forall k :: 0 <= k < |rows| ==>
      && RowMatches(rows[k], ToolReplies(final.messages)[k], Requested(final.messages)[k])
      && Denotes(w.loads, Requested(final.messages)[k], rows[k].args)
      && RowServed(final.cache, rows, RowKeys(rows), k)
  {
    hide Run, ToolReplies, Requested, RowMatches, Denotes, RowServed;
    if hasDb {
      rows := WithSession(w, cfg, subject, final, report);
    } else {
      var logged := Run(w, cfg, true, subject, Initial()).0;
      SessionOnlyAddsLog(w, cfg, subject, Initial());
      assert NoLog(Initial()) == Initial();
      rows := WithSession(w, cfg, subject, logged, report);
    }
  }

  lemma WithSession(w: World, cfg: Settings, subject: Subject, final: State, report: Report)
    returns (rows: seq<LogRow>)
    requires EndOfRun(w, cfg, true, subject, final, report)
    ensures rows == final.log
    ensures |rows| == |ToolReplies(final.messages)| == |Requested(final.messages)|
    ensures forall k :: 0 <= k < |rows| ==>
      && RowMatches(rows[k], ToolReplies(final.messages)[k], Requested(final.messages)[k])
      && Denotes(w.loads, Requested(final.messages)[k], rows[k].args)
      && RowServed(final.cache, rows, RowKeys(rows), k)
  {
    hide Run, ToolReplies, Requested, RowMatches, Denotes, RowServed, RequestsInv, CacheInv;
    RunEnds(w, cfg, true, subject, final, report);
    LogMatchesTranscript(w, cfg, true, subject, final, report);
    rows := final.log;
  }

  /** Each key is dispatched at most once, and the cache has one entry per dispatch. */
  lemma EachKeyDispatchedOnce(w: World, cfg: Settings, hasDb: bool, subject: Subject, final: State, report: Report)
    requires EndOfRun(w, cfg, hasDb, subject, final, report)
    ensures |final.dispatches| == |final.cache|
    ensures forall i, j :: 0 <= i < j < |final.dispatches| ==> KeyOf(final.dispatches[i]) != KeyOf(final.dispatches[j])
    ensures forall i :: 0 <= i < |final.dispatches| ==>
      KeyOf(final.dispatches[i]) in final.cache && final.cache[KeyOf(final.dispatches[i])] == final.dispatches[i].result
  {
    hide ToolCacheKey;
    RunEnds(w, cfg, hasDb, subject, final, report);
    var keys := KeysOf(final.dispatches);
    forall i, j | 0 <= i < j < |final.dispatches| ensures KeyOf(final.dispatches[i]) != KeyOf(final.dispatches[j]) {
      assert keys[i] != keys[j];
    }
    forall i | 0 <= i < |final.dispatches|
      ensures KeyOf(final.dispatches[i]) in final.cache
      ensures final.cache[KeyOf(final.dispatches[i])] == final.dispatches[i].result
    {
      assert keys[i] in final.cache;
    }
  }

  /** No two dispatches of a run name the same tool with arguments equal up to key order. */
  lemma EqualCallsDispatchedOnce(w: World, cfg: Settings, hasDb: bool, subject: Subject, final: State, report: Report,
                                 i: nat, j: nat)
    requires EndOfRun(w, cfg, hasDb, subject, final, report) && i < j < |final.dispatches|
    requires DistinctKeys(Object(final.dispatches[i].args)) && DistinctKeys(Object(final.dispatches[j].args))
    ensures final.dispatches[i].name != final.dispatches[j].name
      || MeaningOf(Object(final.dispatches[i].args)) != MeaningOf(Object(final.dispatches[j].args))
  {
    hide Run, Canonical, MeaningOf, DistinctKeys;
    EachKeyDispatchedOnce(w, cfg, hasDb, subject, final, report);
    var a, b := Object(final.dispatches[i].args), Object(final.dispatches[j].args);
    SameMeaningIffSameCanonical(a, b);
    assert KeyOf(final.dispatches[i]) != KeyOf(final.dispatches[j]);
  }

  /** Every row carries the success flag and error of its key's dispatch; the first row of a key
      carries the dispatched result, every later one the notice. */
  lemma RowsServedFromDispatch(w: World, cfg: Settings, hasDb: bool, subject: Subject, final: State, report: Report,
                               k: nat)
    returns (d: nat)
    requires EndOfRun(w, cfg, hasDb, subject, final, report) && k < |final.log|
    ensures d < |final.dispatches| && KeyOf(final.dispatches[d]) == RowKey(final.log[k])
    ensures final.log[k].error == ErrorOf(final.dispatches[d].result)
    ensures final.log[k].success == final.log[k].error.None?
    ensures final.log[k].result ==
      if exists i :: 0 <= i < k && RowKey(final.log[i]) == RowKey(final.log[k])
      then CachedNotice(final.log[k].toolName) else final.dispatches[d].result
  {
    hide ToolCacheKey, Run;
    RunEnds(w, cfg, hasDb, subject, final, report);
    var rowKeys, keys := RowKeys(final.log), KeysOf(final.dispatches);
    assert RowServed(final.cache, final.log, rowKeys, k);
    KeySetExact(keys, rowKeys[k]);
    d :| 0 <= d < |keys| && keys[d] == rowKeys[k];
    if rowKeys[k] in rowKeys[..k] {
      var i :| 0 <= i < k && rowKeys[..k][i] == rowKeys[k];
      assert RowKey(final.log[i]) == RowKey(final.log[k]);
    }
    if i :| 0 <= i < k && RowKey(final.log[i]) == RowKey(final.log[k]) {
      assert rowKeys[..k][i] == rowKeys[k];
    }
  }

  /** The same tool with arguments equal up to key order, and the same outcome. */
  ghost predicate SameCall(d: Dispatch, row: LogRow) {
    && d.name == row.toolName && MeaningOf(Object(d.args)) == MeaningOf(Object(row.args))
    && row.error == ErrorOf(d.result)
  }

  /** The same tool, arguments that are printed alike, and the same outcome. */
  ghost predicate PrintedAlike(d: Dispatch, row: LogRow) {
    && d.name == row.toolName && row.error == ErrorOf(d.result)
    && JsonPrinter.Encoded(Canonical(Object(d.args))) == JsonPrinter.Encoded(Canonical(Object(row.args)))
  }

  /** Every logged call was answered by a dispatch of the same tool with arguments that are printed
      alike; they are equal up to key order if no string of the row's arguments can be respelled. */
  lemma CacheNeverMixesCalls(w: World, cfg: Settings, hasDb: bool, subject: Subject, final: State, report: Report,
                             k: nat)
    requires EndOfRun(w, cfg, hasDb, subject, final, report) && k < |final.log|
    requires DistinctKeys(Object(final.log[k].args))
    requires forall d :: 0 <= d < |final.dispatches| ==> DistinctKeys(Object(final.dispatches[d].args))
    ensures exists d :: 0 <= d < |final.dispatches| && PrintedAlike(final.dispatches[d], final.log[k])
    ensures !Respellable(Canonical(Object(final.log[k].args))) ==>
      exists d :: 0 <= d < |final.dispatches| && SameCall(final.dispatches[d], final.log[k])
  {
    hide ToolCacheKey, Run, MeaningOf, DistinctKeys, Respellable, Canonical, JsonPrinter.Encoded;
    var d := RowsServedFromDispatch(w, cfg, hasDb, subject, final, report, k);
    var dispatch, row := final.dispatches[d], final.log[k];
    KeyExact(dispatch.name, dispatch.args, row.toolName, row.args);
    assert PrintedAlike(dispatch, row);
    SharedKeyExactly(row.toolName, row.args);
    assert !Respellable(Canonical(Object(row.args))) ==> !Collides(row.toolName, row.args, dispatch.args);
    assert !Respellable(Canonical(Object(row.args))) ==> SameCall(dispatch, row);
  }

  /** After `first`, the call `second` is a different one that had no cached result before, and it is
      served without a dispatch. */
  ghost predicate Mixed(w: World, hasDb: bool, st: State, first: ToolCall, second: ToolCall) {
    && DistinctKeys(Object(second.args)) && ToolCacheKey(second.name, second.args) !in st.cache
    && (second.name != first.name || MeaningOf(Object(second.args)) != MeaningOf(Object(first.args)))
    && HandleCall(w, hasDb, HandleCall(w, hasDb, st, first), second).dispatches
       == HandleCall(w, hasDb, st, first).dispatches
  }

  /** A newly dispatched call's result is served for some other call iff its arguments can be respelled. */
  lemma CallsMixedExactly(w: World, hasDb: bool, st: State, first: ToolCall)
    requires DistinctKeys(Object(first.args)) && ToolCacheKey(first.name, first.args) !in st.cache
    ensures (exists second :: Mixed(w, hasDb, st, first, second)) <==> Respellable(Canonical(Object(first.args)))
  {
    hide ToolCacheKey, MeaningOf, DistinctKeys, Respellable, Canonical, JsonPrinter.Encoded, DispatchResult;
    SharedKeyExactly(first.name, first.args);
    if Respellable(Canonical(Object(first.args))) {
      var args :| Collides(first.name, first.args, args);
      assert Mixed(w, hasDb, st, first, first.(args := args));
    }
    forall second | Mixed(w, hasDb, st, first, second) ensures Respellable(Canonical(Object(first.args))) {
      assert ToolCacheKey(second.name, second.args) == ToolCacheKey(first.name, first.args);
      KeyExact(second.name, second.args, first.name, first.args);
      assert Collides(first.name, first.args, second.args);
    }
  }

  /** A pass of the loop body makes one model call, with the transcript so far and one to three attempts. */
  lemma TurnCallsOnce(w: World, cfg: Settings, hasDb: bool, subject: Subject, st: State)
    ensures var after := Turn(w, cfg, hasDb, subject, st).st;
      && after.requests == st.requests + [st.messages]
      && st.apiAttempts < after.apiAttempts <= st.apiAttempts + MAX_ATTEMPTS
  {
    hide HandleCalls, ParseReport, FallbackReport;
    var (attempt, used) := CallLlm(w, st.apiAttempts, 1);
    var asked := st.(apiAttempts := used, requests := st.requests + [st.messages]);
    if attempt.Responded? && attempt.response.Choice? && attempt.response.finish.ToolCalls? {
      var calls := ExtractToolCalls(attempt.response.calls, w.loads);
      var a := AssistantMessage(attempt.response.content, calls);
      CallsKeepIteration(w, hasDb, asked.(messages := asked.messages + [a]), calls);
    }
  }

  /** At most `maxIterations + rateLimitRetries` model calls, and at most three times as many attempts. */
  lemma ModelCallsBounded(w: World, cfg: Settings, hasDb: bool, subject: Subject, final: State, report: Report)
    requires EndOfRun(w, cfg, hasDb, subject, final, report)
    ensures |final.requests| <= Max(0, cfg.maxIterations) + Max(0, cfg.rateLimitRetries)
    ensures final.apiAttempts <= MAX_ATTEMPTS * |final.requests|
  {
    RunEnds(w, cfg, hasDb, subject, final, report);
  }

  /** The collection and the correction prompt go out at most once each; no tool message and no
      correction precedes the collection prompt; at most three stop replies fail to parse, and at
      most two if a tool call came before the first failure. */
  lemma PromptsSentOnce(w: World, cfg: Settings, hasDb: bool, subject: Subject, final: State, report: Report)
    requires EndOfRun(w, cfg, hasDb, subject, final, report)
    ensures SentOnce(final.messages, CollectTools) && SentOnce(final.messages, CorrectOutput)
    ensures CollectionFirst(final.messages)
    ensures |final.failures| <= 3 && (|final.failures| > 0 && final.failures[0] > 0 ==> |final.failures| <= 2)
  {
    RunEnds(w, cfg, hasDb, subject, final, report);
  }

  /** The report's label is HIGH from a score of 0.85 on, LOW below 0.60 and MEDIUM between, its call
      count covers the log, and a fallback report states exactly the calls made and no more iterations
      than the limit. */
  lemma ReportsTruthful(w: World, cfg: Settings, hasDb: bool, subject: Subject, final: State, report: Report)
    requires EndOfRun(w, cfg, hasDb, subject, final, report)
    ensures report.confidence == HIGH <==> report.score >= 0.85
    ensures report.confidence == LOW <==> report.score < 0.60
    ensures |final.log| <= |ToolReplies(final.messages)| <= report.toolCallsMade
    ensures report.summary.Unable? ==>
      report.toolCallsMade == |ToolReplies(final.messages)| && report.agentIterations <= Max(0, cfg.maxIterations)
    ensures report.summary.Unable? && hasDb ==> |final.log| == report.toolCallsMade
  {
    RunEnds(w, cfg, hasDb, subject, final, report);
  }

  /** The run as the worker calls it: its end is the transition function's, and the tool counter
      has grown by the number of cache entries. */
  method RunRcaAgent(w: World, cfg: Settings, hasDb: bool, subject: Subject, registry: ToolRegistry)
    returns (report: Report, final: State)
    modifies registry
    ensures EndOfRun(w, cfg, hasDb, subject, final, report)
    ensures registry.ticks == old(registry.ticks) + Ticked(final.dispatches)
    ensures |registry.ticks| == |old(registry.ticks)| + |final.cache|
  {
    var run := new RcaRun(w, cfg, hasDb, subject, registry);
    report := run.Investigate();
    final := State(run.iteration, run.toolCallsMade, run.correctionSent, run.collectionSent, run.rateLimitRetries,
                   run.cache, run.messages, run.log, run.requests, run.apiAttempts, run.dispatches, run.failures);
    EachKeyDispatchedOnce(w, cfg, hasDb, subject, final, report);
  }
}
