/** What every run of the agent loop keeps, whatever the model and the tools do. */
module AgentProofs {
  import opened PythonText
  import opened Json
  import JsonPrinter
  import opened CacheKey
  import opened ReportParser
  import opened AgentLoop
  import opened Wrappers

  // ---------- The transcript ----------

  /** Each call of an assistant message is answered, in order, right after the message. */
  ghost predicate Answered(ms: seq<Message>) {
    forall i, k :: 0 <= i < |ms| && ms[i].Assistant? && 0 <= k < |ms[i].calls| ==>
      Answers(ms, i + 1 + k, ms[i].calls[k])
  }

  ghost predicate Answers(ms: seq<Message>, j: int, call: CallRef) {
    0 <= j < |ms| && ms[j].ToolReply? && ms[j].callId == call.id
  }

  /** Message `j` lies in the reply block of assistant message `i`. */
  ghost predicate Owns(ms: seq<Message>, i: nat, j: nat) {
    i < j < |ms| && ms[i].Assistant? && j - i <= |ms[i].calls|
  }

  ghost predicate IsReply(ms: seq<Message>, j: int) {
    0 <= j < |ms| && ms[j].ToolReply?
  }

  ghost predicate NoOrphans(ms: seq<Message>) {
    forall j: nat :: IsReply(ms, j) ==> exists i: nat :: Owns(ms, i, j)
  }

  ghost predicate WellFormed(ms: seq<Message>) {
    && |ms| >= 2 && ms[0] == System && ms[1] == IncidentDescription
    && (forall i :: 2 <= i < |ms| ==> !ms[i].System? && !ms[i].IncidentDescription?)
    && Answered(ms)
    && NoOrphans(ms)
  }

  lemma OwnersStay(ms: seq<Message>, more: seq<Message>)
    requires NoOrphans(ms)
    ensures forall j: nat :: IsReply(ms, j) ==> exists i: nat :: Owns(ms + more, i, j)
  {
    forall j: nat | IsReply(ms, j) ensures exists i: nat :: Owns(ms + more, i, j) {
      var i: nat :| Owns(ms, i, j);
      assert Owns(ms + more, i, j);
    }
  }

  lemma AppendInstruction(ms: seq<Message>, p: Prompt)
    requires WellFormed(ms)
    ensures WellFormed(ms + [Instruction(p)])
  {
    var all := ms + [Instruction(p)];
    OwnersStay(ms, [Instruction(p)]);
    forall i, k | 0 <= i < |all| && all[i].Assistant? && 0 <= k < |all[i].calls|
      ensures Answers(all, i + 1 + k, all[i].calls[k])
    {
      assert Answers(ms, i + 1 + k, ms[i].calls[k]);
    }
    forall j: nat | IsReply(all, j) ensures exists i: nat :: Owns(all, i, j) {
      assert IsReply(ms, j);
    }
  }

  /** An assistant message followed by one reply per call. */
  ghost predicate RepliesTo(a: Message, replies: seq<Message>) {
    && a.Assistant? && |replies| == |a.calls|
    && forall k :: 0 <= k < |replies| ==> replies[k].ToolReply? && replies[k].callId == a.calls[k].id
  }

  lemma ExchangeAnswered(ms: seq<Message>, a: Message, replies: seq<Message>)
    requires Answered(ms) && RepliesTo(a, replies)
    ensures Answered(ms + [a] + replies)
  {
    var n, all := |ms|, ms + [a] + replies;
    forall i, k | 0 <= i < |all| && all[i].Assistant? && 0 <= k < |all[i].calls|
      ensures Answers(all, i + 1 + k, all[i].calls[k])
    {
      if i < n {
        assert Answers(ms, i + 1 + k, ms[i].calls[k]);
      } else {
        assert i == n && all[n + 1 + k] == replies[k];
      }
    }
  }

  lemma ExchangeOwned(ms: seq<Message>, a: Message, replies: seq<Message>)
    requires NoOrphans(ms) && RepliesTo(a, replies)
    ensures NoOrphans(ms + [a] + replies)
  {
    var n, all := |ms|, ms + [a] + replies;
    assert all == ms + ([a] + replies);
    OwnersStay(ms, [a] + replies);
    forall j: nat | IsReply(all, j) ensures exists i: nat :: Owns(all, i, j) {
      if j >= n {
        assert all[n] == a && Owns(all, n, j);
      } else {
        assert all[j] == ms[j] && IsReply(ms, j);
      }
    }
  }

  lemma AppendExchange(ms: seq<Message>, a: Message, replies: seq<Message>)
    requires WellFormed(ms) && RepliesTo(a, replies)
    ensures WellFormed(ms + [a] + replies)
  {
    hide Answered, NoOrphans;
    ExchangeAnswered(ms, a, replies);
    ExchangeOwned(ms, a, replies);
  }

  // ---------- Tool messages, requested calls and log rows ----------

  /** The tool messages in order. */
  function ToolReplies(ms: seq<Message>): seq<Message> {
    if ms == [] then []
    else ToolReplies(ms[..|ms| - 1]) + (if ms[|ms| - 1].ToolReply? then [ms[|ms| - 1]] else [])
  }

  /** The calls the assistant messages asked for, in order. */
  function Requested(ms: seq<Message>): seq<CallRef> {
    if ms == [] then []
    else Requested(ms[..|ms| - 1]) + (if ms[|ms| - 1].Assistant? then ms[|ms| - 1].calls else [])
  }

  lemma {:induction false} AppendReplies(ms: seq<Message>, replies: seq<Message>)
    requires forall k :: 0 <= k < |replies| ==> replies[k].ToolReply?
    ensures ToolReplies(ms + replies) == ToolReplies(ms) + replies
    ensures Requested(ms + replies) == Requested(ms)
  {
    if replies == [] {
      assert ms + replies == ms;
    } else {
      var n := |replies| - 1;
      assert (ms + replies)[..|ms| + n] == ms + replies[..n];
      assert replies == replies[..n] + [replies[n]];
      AppendReplies(ms, replies[..n]);
    }
  }

  lemma AppendOther(ms: seq<Message>, m: Message)
    requires !m.ToolReply?
    ensures ToolReplies(ms + [m]) == ToolReplies(ms)
    ensures Requested(ms + [m]) == Requested(ms) + (if m.Assistant? then m.calls else [])
  {
    assert (ms + [m])[..|ms|] == ms;
  }

  /** The arguments a requested call stands for. A text stands for the dict `json.loads` makes of it, if
      any, and is sent on as it is; a dict stands for itself and is sent on printed; anything else for
      an empty dict. */
  ghost predicate Denotes(loads: Str -> Option<Json>, call: CallRef, args: seq<Member>) {
    match call.given
    case TextArguments(text) =>
      call.arguments == text && if loads(text).Some? && loads(text).value.Object? then args == loads(text).value.members
                                else args == []
    case DictArguments(members) => call.arguments == JsonPrinter.Print(Object(members)) && args == members
    case OtherArguments => call.arguments == JsonPrinter.Print(Object([])) && args == []
  }

  lemma ExtractedDenotes(call: RawCall, loads: Str -> Option<Json>)
    ensures var c := ExtractToolCall(call, loads);
      Denotes(loads, CallRef(c.id, c.name, c.rawArguments, c.given), c.args)
  {
    assert JsonPrinter.Print(Object([])) == [123] + [125] == [123, 125];
  }

  /** Row, tool message and requested call number `k` belong together. */
  ghost predicate RowMatches(row: LogRow, reply: Message, call: CallRef) {
    reply.ToolReply? && row.result == reply.result && reply.callId == call.id && row.toolName == call.name
  }

  ghost predicate LogInv(cfg: Settings, hasDb: bool, st: State) {
    && st.toolCallsMade == |ToolReplies(st.messages)| == |Requested(st.messages)|
    && |st.log| == (if hasDb then st.toolCallsMade else 0)
    && (forall k :: 0 <= k < |st.log| ==> RowMatches(st.log[k], ToolReplies(st.messages)[k], Requested(st.messages)[k]))
    && (forall k :: 0 <= k < |st.log| ==>
          st.log[k].iteration <= st.iteration && st.log[k].iteration < cfg.maxIterations)
    && (forall j, k :: 0 <= j < k < |st.log| ==> st.log[j].iteration <= st.log[k].iteration)
  }

  /** What answering one call adds. */
  lemma CallAnswers(w: World, hasDb: bool, st: State, call: ToolCall) returns (result: ToolResult, row: LogRow)
    ensures var after := HandleCall(w, hasDb, st, call);
      && after.messages == st.messages + [ToolReply(call.id, result)]
      && after.log == st.log + (if hasDb then [row] else [])
      && after.iteration == st.iteration
    ensures row.toolName == call.name && row.args == call.args && row.result == result && row.iteration == st.iteration
  {
    var key := ToolCacheKey(call.name, call.args);
    var outcome := DispatchResult(call.name, w.handler(|st.dispatches|));
    result := if key in st.cache then CachedNotice(call.name) else outcome;
    var error := ErrorOf(if key in st.cache then st.cache[key] else outcome);
    row := LogRow(call.name, call.args, result, error.None?, error, st.iteration);
  }

  ghost predicate RowAnswers(row: LogRow, call: ToolCall, reply: Message, iteration: nat) {
    && reply.ToolReply? && row.toolName == call.name && row.args == call.args && row.result == reply.result
    && row.iteration == iteration
  }

  lemma Prepend<T>(s: seq<T>, front: seq<T>, rest: seq<T>)
    ensures (s + front) + rest == s + (front + rest)
  {
  }

  /** One reply and, with a session, one row per call, in order and with the calls' own ids. */
  ghost predicate InOrder(hasDb: bool, calls: seq<ToolCall>, replies: seq<Message>, rows: seq<LogRow>, iteration: nat) {
    && |replies| == |calls| && |rows| == (if hasDb then |calls| else 0)
    && (forall k :: 0 <= k < |calls| ==> replies[k].ToolReply? && replies[k].callId == calls[k].id)
    && (forall k :: 0 <= k < |rows| ==> RowAnswers(rows[k], calls[k], replies[k], iteration))
  }

  lemma FirstInOrder(hasDb: bool, calls: seq<ToolCall>, replies: seq<Message>, rows: seq<LogRow>,
                     iteration: nat, reply: Message, row: LogRow)
    requires calls != [] && InOrder(hasDb, calls[1..], replies, rows, iteration)
    requires reply.ToolReply? && reply.callId == calls[0].id && RowAnswers(row, calls[0], reply, iteration)
    ensures InOrder(hasDb, calls, [reply] + replies, (if hasDb then [row] else []) + rows, iteration)
  {
    hide RowAnswers;
  }

  lemma {:induction false} CallsAnswer(w: World, hasDb: bool, st: State, calls: seq<ToolCall>)
    returns (replies: seq<Message>, rows: seq<LogRow>)
    ensures HandleCalls(w, hasDb, st, calls).messages == st.messages + replies
    ensures HandleCalls(w, hasDb, st, calls).log == st.log + rows
    ensures InOrder(hasDb, calls, replies, rows, st.iteration)
    decreases calls
  {
    if calls == [] {
      replies, rows := [], [];
    } else {
      hide HandleCall, InOrder;
      var result, row := CallAnswers(w, hasDb, st, calls[0]);
      var reply, front := ToolReply(calls[0].id, result), if hasDb then [row] else [];
      var restReplies, restRows := CallsAnswer(w, hasDb, HandleCall(w, hasDb, st, calls[0]), calls[1..]);
      FirstInOrder(hasDb, calls, restReplies, restRows, st.iteration, reply, row);
      replies, rows := [reply] + restReplies, front + restRows;
      Prepend(st.messages, [reply], restReplies);
      Prepend(st.log, front, restRows);
    }
  }

  // ---------- The tool-result cache ----------

  function KeyOf(d: Dispatch): Str {
    ToolCacheKey(d.name, d.args)
  }

  function KeysOf(dispatches: seq<Dispatch>): (keys: seq<Str>)
    ensures |keys| == |dispatches|
    ensures forall i :: 0 <= i < |keys| ==> keys[i] == KeyOf(dispatches[i])
  {
    seq(|dispatches|, i requires 0 <= i < |dispatches| => KeyOf(dispatches[i]))
  }

  function RowKey(row: LogRow): Str {
    ToolCacheKey(row.toolName, row.args)
  }

  function RowKeys(log: seq<LogRow>): (keys: seq<Str>)
    ensures |keys| == |log|
    ensures forall i :: 0 <= i < |keys| ==> keys[i] == RowKey(log[i])
  {
    seq(|log|, i requires 0 <= i < |log| => RowKey(log[i]))
  }

  /** The cache holds exactly one entry per dispatch, under that dispatch's key. */
  ghost predicate CacheHolds(cache: map<Str, ToolResult>, dispatches: seq<Dispatch>, keys: seq<Str>)
    requires |keys| == |dispatches|
  {
    && |cache| == |keys|
    && (forall i :: 0 <= i < |keys| ==> keys[i] in cache && cache[keys[i]] == dispatches[i].result)
    && (forall i, j :: 0 <= i < j < |keys| ==> keys[i] != keys[j])
    && cache.Keys == KeySet(keys)
    && (forall i :: 0 <= i < |keys| ==> dispatches[i].result.Payload?)
  }

  ghost function KeySet(keys: seq<Str>): set<Str> {
    if keys == [] then {} else KeySet(keys[..|keys| - 1]) + {keys[|keys| - 1]}
  }

  lemma {:induction false} KeySetExact(keys: seq<Str>, key: Str)
    ensures key in KeySet(keys) <==> key in keys
  {
    if keys != [] {
      var n := |keys| - 1;
      KeySetExact(keys[..n], key);
      assert keys == keys[..n] + [keys[n]];
    }
  }

  ghost predicate CacheInv(st: State) {
    CacheHolds(st.cache, st.dispatches, KeysOf(st.dispatches))
  }

  /** Row `k` carries the outcome of its key's dispatch: the result itself the first time the key
      is logged, the notice every later time. */
  ghost predicate RowServed(cache: map<Str, ToolResult>, log: seq<LogRow>, keys: seq<Str>, k: int)
    requires 0 <= k < |log| == |keys|
  {
    && keys[k] in cache
    && log[k].error == ErrorOf(cache[keys[k]]) && log[k].success == log[k].error.None?
    && log[k].result == (if keys[k] in keys[..k] then CachedNotice(log[k].toolName) else cache[keys[k]])
  }

  ghost predicate Served(hasDb: bool, cache: map<Str, ToolResult>, log: seq<LogRow>, keys: seq<Str>)
    requires |log| == |keys|
  {
    && (forall k :: 0 <= k < |log| ==> RowServed(cache, log, keys, k))
    && (hasDb ==> cache.Keys <= KeySet(keys))
  }

  /** With a session every dispatch has a row. */
  ghost predicate ServedInv(hasDb: bool, st: State) {
    Served(hasDb, st.cache, st.log, RowKeys(st.log))
  }

  lemma AddDispatch(cache: map<Str, ToolResult>, ds: seq<Dispatch>, keys: seq<Str>, d: Dispatch, key: Str)
    requires |keys| == |ds| && CacheHolds(cache, ds, keys) && key !in cache && d.result.Payload?
    ensures CacheHolds(cache[key := d.result], ds + [d], keys + [key])
  {
    assert (keys + [key])[..|keys|] == keys;
    assert (cache[key := d.result]).Keys == cache.Keys + {key};
  }

  /** A row for a cached call, or the row of a first dispatch. */
  lemma AddRow(cache: map<Str, ToolResult>, log: seq<LogRow>, keys: seq<Str>, row: LogRow, key: Str,
               after: map<Str, ToolResult>)
    requires |keys| == |log| && Served(true, cache, log, keys)
    requires if key in cache then after == cache && row.result == CachedNotice(row.toolName)
             else row.result.Payload? && after == cache[key := row.result]
    requires row.error == ErrorOf(after[key]) && row.success == row.error.None?
    ensures Served(true, after, log + [row], keys + [key])
  {
    var log', keys' := log + [row], keys + [key];
    assert keys'[..|log|] == keys;
    KeySetExact(keys, key);
    forall k | 0 <= k < |log| ensures RowServed(after, log', keys', k) {
      assert RowServed(cache, log, keys, k);
      assert keys'[..k] == keys[..k];
    }
    forall k | 0 <= k < |keys| ensures keys[k] in cache {
      assert RowServed(cache, log, keys, k);
    }
    assert RowServed(after, log', keys', |log|);
  }

  lemma CallKeepsCache(w: World, hasDb: bool, st: State, call: ToolCall)
    requires CacheInv(st)
    ensures CacheInv(HandleCall(w, hasDb, st, call))
  {
    var key := ToolCacheKey(call.name, call.args);
    if key !in st.cache {
      var d := Dispatch(call.name, call.args, DispatchResult(call.name, w.handler(|st.dispatches|)));
      AddDispatch(st.cache, st.dispatches, KeysOf(st.dispatches), d, key);
      KeysOfAppend(st.dispatches, d);
    }
  }

  lemma KeysOfAppend(ds: seq<Dispatch>, d: Dispatch)
    ensures KeysOf(ds + [d]) == KeysOf(ds) + [KeyOf(d)]
  {
  }

  lemma RowKeysAppend(log: seq<LogRow>, row: LogRow)
    ensures RowKeys(log + [row]) == RowKeys(log) + [RowKey(row)]
  {
  }

  lemma CallKeepsServed(w: World, hasDb: bool, st: State, call: ToolCall)
    requires ServedInv(hasDb, st) && (!hasDb ==> st.log == [])
    ensures ServedInv(hasDb, HandleCall(w, hasDb, st, call))
    ensures !hasDb ==> HandleCall(w, hasDb, st, call).log == []
  {
    var key := ToolCacheKey(call.name, call.args);
    var hit := key in st.cache;
    var outcome := DispatchResult(call.name, w.handler(|st.dispatches|));
    var result := if hit then CachedNotice(call.name) else outcome;
    var error := ErrorOf(if hit then st.cache[key] else outcome);
    var row := LogRow(call.name, call.args, result, error.None?, error, st.iteration);
    if hasDb {
      AddRow(st.cache, st.log, RowKeys(st.log), row, key, if hit then st.cache else st.cache[key := outcome]);
      RowKeysAppend(st.log, row);
    }
  }

  lemma {:induction false} CallsKeepCache(w: World, hasDb: bool, st: State, calls: seq<ToolCall>)
    requires CacheInv(st) && ServedInv(hasDb, st) && (!hasDb ==> st.log == [])
    ensures CacheInv(HandleCalls(w, hasDb, st, calls)) && ServedInv(hasDb, HandleCalls(w, hasDb, st, calls))
    decreases calls
  {
    if calls != [] {
      CallKeepsCache(w, hasDb, st, calls[0]);
      CallKeepsServed(w, hasDb, st, calls[0]);
      CallsKeepCache(w, hasDb, HandleCall(w, hasDb, st, calls[0]), calls[1..]);
    }
  }

  // ---------- Prompts and failed parses ----------

  ghost predicate Sent(ms: seq<Message>, p: Prompt, i: int) {
    0 <= i < |ms| && ms[i] == Instruction(p)
  }

  ghost predicate SentOnce(ms: seq<Message>, p: Prompt) {
    forall i, j :: Sent(ms, p, i) && Sent(ms, p, j) ==> i == j
  }

  /** Nothing but other prompts and plain assistant turns comes before the collection prompt. */
  ghost predicate CollectionFirst(ms: seq<Message>) {
    forall i, j :: 0 <= i < j && Sent(ms, CollectTools, j) ==> !ms[i].ToolReply? && !Sent(ms, CorrectOutput, i)
  }

  function Count(b: bool): nat {
    if b then 1 else 0
  }

  ghost predicate PromptsOrdered(ms: seq<Message>) {
    SentOnce(ms, CollectTools) && SentOnce(ms, CorrectOutput) && CollectionFirst(ms)
  }

  /** The two flags and the count agree with the transcript. */
  ghost predicate FlagsAgree(ms: seq<Message>, collectionSent: bool, correctionSent: bool, toolCallsMade: nat) {
    && (collectionSent <==> exists i :: Sent(ms, CollectTools, i))
    && (correctionSent <==> exists i :: Sent(ms, CorrectOutput, i))
    && (toolCallsMade == 0 ==> forall i :: 0 <= i < |ms| ==> !ms[i].ToolReply?)
    && (correctionSent ==> collectionSent || toolCallsMade > 0)
  }

  /** If the first failed parse came after a tool call, the collection prompt stays out. */
  ghost predicate FirstFailure(failures: seq<nat>, collectionSent: bool, toolCallsMade: nat) {
    |failures| > 0 && failures[0] > 0 ==> !collectionSent && toolCallsMade > 0
  }

  ghost predicate PromptInv(st: State) {
    && PromptsOrdered(st.messages)
    && FlagsAgree(st.messages, st.collectionSent, st.correctionSent, st.toolCallsMade)
    && FirstFailure(st.failures, st.collectionSent, st.toolCallsMade)
  }

  /** While the loop goes on, every failed parse has led to one of the two prompts. */
  ghost predicate FailuresPrompted(st: State) {
    |st.failures| == Count(st.collectionSent) + Count(st.correctionSent)
  }

  /** Over a whole run. */
  ghost predicate FailuresBounded(st: State) {
    && |st.failures| <= 3
    && (|st.failures| > 0 && st.failures[0] > 0 ==> |st.failures| <= 2)
  }

  lemma SentSplit(ms: seq<Message>, more: seq<Message>, p: Prompt)
    requires forall k :: 0 <= k < |more| ==> more[k] != Instruction(p)
    ensures forall i :: Sent(ms + more, p, i) <==> Sent(ms, p, i)
  {
  }

  /** Messages that are neither prompt keep the prompt facts. */
  lemma PromptsUnaffected(ms: seq<Message>, more: seq<Message>, collection: bool, correction: bool, calls: nat,
                          calls': nat)
    requires PromptsOrdered(ms) && FlagsAgree(ms, collection, correction, calls) && calls <= calls'
    requires forall k :: 0 <= k < |more| ==>
      more[k] != Instruction(CollectTools) && more[k] != Instruction(CorrectOutput)
    requires calls' == 0 ==> forall k :: 0 <= k < |more| ==> !more[k].ToolReply?
    ensures PromptsOrdered(ms + more) && FlagsAgree(ms + more, collection, correction, calls')
  {
    SentSplit(ms, more, CollectTools);
    SentSplit(ms, more, CorrectOutput);
    forall i, j | 0 <= i < j && Sent(ms + more, CollectTools, j)
      ensures !(ms + more)[i].ToolReply? && !Sent(ms + more, CorrectOutput, i)
    {
      assert Sent(ms, CollectTools, j);
    }
  }

  /** The collection prompt goes out before any tool message and any correction. */
  lemma CollectionAppended(ms: seq<Message>)
    requires PromptsOrdered(ms) && FlagsAgree(ms, false, false, 0)
    ensures PromptsOrdered(ms + [Instruction(CollectTools)])
    ensures FlagsAgree(ms + [Instruction(CollectTools)], true, false, 0)
  {
    SentSplit(ms, [Instruction(CollectTools)], CorrectOutput);
    assert Sent(ms + [Instruction(CollectTools)], CollectTools, |ms|);
    forall i | Sent(ms + [Instruction(CollectTools)], CollectTools, i) ensures i == |ms| {
      assert i < |ms| ==> Sent(ms, CollectTools, i);
    }
  }

  lemma CorrectionAppended(ms: seq<Message>, collection: bool, calls: nat)
    requires PromptsOrdered(ms) && FlagsAgree(ms, collection, false, calls) && (calls > 0 || collection)
    ensures PromptsOrdered(ms + [Instruction(CorrectOutput)])
    ensures FlagsAgree(ms + [Instruction(CorrectOutput)], collection, true, calls)
  {
    SentSplit(ms, [Instruction(CorrectOutput)], CollectTools);
    assert Sent(ms + [Instruction(CorrectOutput)], CorrectOutput, |ms|);
    forall i | Sent(ms + [Instruction(CorrectOutput)], CorrectOutput, i) ensures i == |ms| {
      assert i < |ms| ==> Sent(ms, CorrectOutput, i);
    }
  }

  /** A prompt is sent for a stop reply that failed to parse. */
  lemma PromptAppended(st: State, after: State)
    requires PromptInv(st) && FailuresPrompted(st) && after.failures == st.failures + [st.toolCallsMade]
    requires after.toolCallsMade == st.toolCallsMade
    requires
      if st.toolCallsMade == 0 && !st.collectionSent then
        && after.messages == st.messages + [Instruction(CollectTools)]
        && after.collectionSent && after.correctionSent == st.correctionSent
      else
        && after.messages == st.messages + [Instruction(CorrectOutput)] && !st.correctionSent
        && after.correctionSent && after.collectionSent == st.collectionSent
    ensures PromptInv(after) && FailuresPrompted(after)
  {
    if st.toolCallsMade == 0 && !st.collectionSent {
      CollectionAppended(st.messages);
    } else {
      CorrectionAppended(st.messages, st.collectionSent, st.toolCallsMade);
    }
  }

  // ---------- Counting ----------

  /** The turns so far split into iterations and rate-limit retries. */
  ghost predicate CountInv(cfg: Settings, st: State) {
    && |st.requests| == st.iteration + st.rateLimitRetries
    && st.iteration <= Max(0, cfg.maxIterations) && st.rateLimitRetries <= Max(0, cfg.rateLimitRetries)
    && st.apiAttempts <= MAX_ATTEMPTS * |st.requests|
  }

  ghost predicate CallsBounded(cfg: Settings, st: State) {
    && |st.requests| <= Max(0, cfg.maxIterations) + Max(0, cfg.rateLimitRetries)
    && st.apiAttempts <= MAX_ATTEMPTS * |st.requests|
  }

  ghost predicate RequestsInv(st: State) {
    && WellFormed(st.messages)
    && (forall i :: 0 <= i < |st.requests| ==> WellFormed(st.requests[i]) && st.requests[i] <= st.messages)
    && (forall i, j :: 0 <= i <= j < |st.requests| ==> st.requests[i] <= st.requests[j])
  }

  // ---------- The invariant ----------

  /** Transcript, log and cache. */
  ghost predicate RecordInv(cfg: Settings, hasDb: bool, st: State) {
    RequestsInv(st) && LogInv(cfg, hasDb, st) && CacheInv(st) && ServedInv(hasDb, st)
  }

  /** Holds whenever the loop is about to test its condition. */
  ghost predicate LoopInv(cfg: Settings, hasDb: bool, st: State) {
    RecordInv(cfg, hasDb, st) && PromptInv(st) && FailuresPrompted(st) && CountInv(cfg, st)
  }

  /** Holds of the state in which a run ended. */
  ghost predicate FinalInv(cfg: Settings, hasDb: bool, st: State) {
    RecordInv(cfg, hasDb, st) && PromptsOrdered(st.messages) && FailuresBounded(st) && CallsBounded(cfg, st)
  }

  /** How a report relates to the run that produced it. */
  ghost predicate ReportInv(cfg: Settings, hasDb: bool, st: State, report: Report) {
    && report.confidence == DeriveLabel(report.score)
    && |st.log| <= st.toolCallsMade <= report.toolCallsMade
    && (report.summary.Unable? ==>
          report.toolCallsMade == st.toolCallsMade && report.agentIterations <= Max(0, cfg.maxIterations)
          && (hasDb ==> |st.log| == report.toolCallsMade))
  }

  lemma InitialTranscript()
    ensures ToolReplies([System, IncidentDescription]) == [] && Requested([System, IncidentDescription]) == []
  {
    AppendOther([], System);
    AppendOther([System], IncidentDescription);
    assert [] + [System] == [System] && [System] + [IncidentDescription] == [System, IncidentDescription];
  }

  lemma InitialRecord(cfg: Settings, hasDb: bool, st: State)
    requires st == Initial()
    ensures RecordInv(cfg, hasDb, st)
  {
    hide RequestsInv, LogInv, CacheInv, ServedInv, Initial;
    InitialRequests(st);
    InitialLog(cfg, hasDb, st);
    InitialTables(hasDb, st);
  }

  lemma InitialRequests(st: State)
    requires st == Initial()
    ensures RequestsInv(st)
  {
    assert WellFormed([System, IncidentDescription]);
  }

  lemma InitialLog(cfg: Settings, hasDb: bool, st: State)
    requires st == Initial()
    ensures LogInv(cfg, hasDb, st)
  {
    InitialTranscript();
    hide ToolReplies, Requested;
  }

  lemma InitialTables(hasDb: bool, st: State)
    requires st == Initial()
    ensures CacheInv(st) && ServedInv(hasDb, st)
  {
  }

  lemma InitialPrompts(st: State)
    requires st == Initial()
    ensures PromptInv(st) && FailuresPrompted(st)
  {
  }

  lemma InitialCounts(cfg: Settings, st: State)
    requires st == Initial()
    ensures CountInv(cfg, st)
  {
  }

  lemma InitialInvariant(cfg: Settings, hasDb: bool, st: State)
    requires st == Initial()
    ensures LoopInv(cfg, hasDb, st)
  {
    hide RecordInv, PromptInv, FailuresPrompted, CountInv;
    InitialRecord(cfg, hasDb, st);
    InitialPrompts(st);
    InitialCounts(cfg, st);
  }

  lemma GrowTranscript(st: State, after: State)
    requires RequestsInv(st) && WellFormed(after.messages) && st.messages <= after.messages
    requires after.requests == st.requests
    ensures RequestsInv(after)
  {
    forall i | 0 <= i < |st.requests| ensures st.requests[i] <= after.messages {
      assert st.requests[i] <= st.messages <= after.messages;
    }
  }

  /** The state in which a reply is handled: the transcript was sent and counted. */
  ghost predicate Asked(cfg: Settings, hasDb: bool, st: State) {
    && RecordInv(cfg, hasDb, st) && PromptInv(st) && FailuresPrompted(st)
    && |st.requests| == st.iteration + st.rateLimitRetries + 1
    && st.iteration < cfg.maxIterations && st.rateLimitRetries <= Max(0, cfg.rateLimitRetries)
    && st.apiAttempts <= MAX_ATTEMPTS * |st.requests|
  }

  lemma RequestKeeps(cfg: Settings, hasDb: bool, st: State, used: nat, after: State)
    requires LoopInv(cfg, hasDb, st) && st.iteration < cfg.maxIterations && used <= st.apiAttempts + MAX_ATTEMPTS
    requires after == st.(apiAttempts := used, requests := st.requests + [st.messages])
    ensures Asked(cfg, hasDb, after)
  {
    hide RequestsInv, LogInv, CacheInv, ServedInv, PromptInv;
    SentKeeps(st, after);
    SentKeepsTables(cfg, hasDb, st, after);
    SentKeepsPrompts(st, after);
  }

  lemma SentKeeps(st: State, after: State)
    requires RequestsInv(st) && after.messages == st.messages && after.requests == st.requests + [st.messages]
    ensures RequestsInv(after)
  {
    hide WellFormed;
  }

  lemma SentKeepsTables(cfg: Settings, hasDb: bool, st: State, after: State)
    requires LogInv(cfg, hasDb, st) && CacheInv(st) && ServedInv(hasDb, st)
    requires after == st.(apiAttempts := after.apiAttempts, requests := after.requests)
    ensures LogInv(cfg, hasDb, after) && CacheInv(after) && ServedInv(hasDb, after)
  {
  }

  lemma SentKeepsPrompts(st: State, after: State)
    requires PromptInv(st) && after == st.(apiAttempts := after.apiAttempts, requests := after.requests)
    ensures PromptInv(after)
  {
  }

  lemma InstructionKeeps(cfg: Settings, hasDb: bool, st: State, p: Prompt, after: State)
    requires RecordInv(cfg, hasDb, st)
    requires after.messages == st.messages + [Instruction(p)] && after.requests == st.requests
    requires after.log == st.log && after.cache == st.cache && after.dispatches == st.dispatches
    requires after.toolCallsMade == st.toolCallsMade && after.iteration >= st.iteration
    ensures RecordInv(cfg, hasDb, after)
  {
    AppendInstruction(st.messages, p);
    AppendOther(st.messages, Instruction(p));
    GrowTranscript(st, after);
  }

  /** After the turn that asked: the loop goes on, or the run has ended with a report. */
  ghost predicate TurnInv(cfg: Settings, hasDb: bool, p: Progress) {
    if p.ended.None? then LoopInv(cfg, hasDb, p.st)
    else FinalInv(cfg, hasDb, p.st) && ReportInv(cfg, hasDb, p.st, p.ended.value)
  }

  // The lemmas from here on combine facts about named states; they hide all definitions and take
  // what they need from the lemmas above.

  lemma AskedParts(cfg: Settings, hasDb: bool, st: State)
    requires Asked(cfg, hasDb, st)
    ensures RecordInv(cfg, hasDb, st) && RequestsInv(st) && LogInv(cfg, hasDb, st)
    ensures CacheInv(st) && ServedInv(hasDb, st)
    ensures PromptInv(st) && FailuresPrompted(st) && PromptsOrdered(st.messages)
    ensures FlagsAgree(st.messages, st.collectionSent, st.correctionSent, st.toolCallsMade)
    ensures FirstFailure(st.failures, st.collectionSent, st.toolCallsMade)
    ensures |st.requests| == st.iteration + st.rateLimitRetries + 1
    ensures st.iteration < cfg.maxIterations && st.rateLimitRetries <= Max(0, cfg.rateLimitRetries)
    ensures st.apiAttempts <= MAX_ATTEMPTS * |st.requests|
    ensures |st.log| == (if hasDb then st.toolCallsMade else 0)
  {
  }

  /** A turn that spends an iteration keeps the count. */
  lemma IterationCounted(cfg: Settings, st: State, after: State)
    requires |st.requests| == st.iteration + st.rateLimitRetries + 1
    requires st.iteration < cfg.maxIterations && st.rateLimitRetries <= Max(0, cfg.rateLimitRetries)
    requires st.apiAttempts <= MAX_ATTEMPTS * |st.requests|
    requires after.requests == st.requests && after.apiAttempts == st.apiAttempts
    requires after.iteration == st.iteration + 1 && after.rateLimitRetries == st.rateLimitRetries
    ensures CountInv(cfg, after)
  {
  }

  /** So does the turn in which a run ends, within the bounds of a run. */
  lemma EndCounted(cfg: Settings, st: State, after: State)
    requires |st.requests| == st.iteration + st.rateLimitRetries + 1
    requires st.iteration < cfg.maxIterations && st.rateLimitRetries <= Max(0, cfg.rateLimitRetries)
    requires st.apiAttempts <= MAX_ATTEMPTS * |st.requests|
    requires after.requests == st.requests && after.apiAttempts == st.apiAttempts
    ensures CallsBounded(cfg, after)
  {
  }

  lemma Continues(cfg: Settings, hasDb: bool, p: Progress)
    requires p.ended.None? && RecordInv(cfg, hasDb, p.st)
    requires PromptInv(p.st) && FailuresPrompted(p.st) && CountInv(cfg, p.st)
    ensures TurnInv(cfg, hasDb, p)
  {
    hide RecordInv, PromptInv, FailuresPrompted, CountInv;
  }

  lemma Ends(cfg: Settings, hasDb: bool, p: Progress)
    requires p.ended.Some? && RecordInv(cfg, hasDb, p.st) && PromptsOrdered(p.st.messages)
    requires FailuresBounded(p.st) && CallsBounded(cfg, p.st) && ReportInv(cfg, hasDb, p.st, p.ended.value)
    ensures TurnInv(cfg, hasDb, p)
  {
    hide RecordInv, PromptsOrdered, FailuresBounded, CallsBounded, ReportInv;
  }

  lemma UnchangedKeeps(cfg: Settings, hasDb: bool, st: State, after: State)
    requires RecordInv(cfg, hasDb, st)
    requires after.messages == st.messages && after.requests == st.requests && after.log == st.log
    requires after.cache == st.cache && after.dispatches == st.dispatches
    requires after.toolCallsMade == st.toolCallsMade && after.iteration >= st.iteration
    ensures RecordInv(cfg, hasDb, after)
  {
  }

  /** How a stop reply changes the state. */
  lemma StopShape(w: World, subject: Subject, st: State, content: Str, p: Progress)
    requires p == OnStop(w, subject, st, content)
    ensures p.st.requests == st.requests && p.st.apiAttempts == st.apiAttempts && p.st.log == st.log
    ensures p.st.cache == st.cache && p.st.dispatches == st.dispatches && p.st.toolCallsMade == st.toolCallsMade
    ensures p.st.rateLimitRetries == st.rateLimitRetries
    ensures p.ended.Some? ==> p.st.messages == st.messages && p.st.iteration == st.iteration
    ensures p.ended.None? ==> p.st.failures == st.failures + [st.toolCallsMade] && p.st.iteration == st.iteration + 1
    ensures p.ended.None? ==>
      if st.toolCallsMade == 0 && !st.collectionSent then
        && p.st.messages == st.messages + [Instruction(CollectTools)]
        && p.st.collectionSent && p.st.correctionSent == st.correctionSent
      else
        && p.st.messages == st.messages + [Instruction(CorrectOutput)] && !st.correctionSent
        && p.st.correctionSent && p.st.collectionSent == st.collectionSent
  {
  }

  /** How a stop reply can end the run. */
  lemma StopReports(w: World, cfg: Settings, hasDb: bool, subject: Subject, st: State, content: Str, p: Progress)
    requires |st.log| == (if hasDb then st.toolCallsMade else 0) && st.iteration < cfg.maxIterations
    requires FailuresPrompted(st) && FirstFailure(st.failures, st.collectionSent, st.toolCallsMade)
    requires p == OnStop(w, subject, st, content) && p.ended.Some?
    ensures ReportInv(cfg, hasDb, p.st, p.ended.value) && FailuresBounded(p.st)
  {
    hide ExtractJson;
  }

  lemma StopKeeps(w: World, cfg: Settings, hasDb: bool, subject: Subject, st: State, content: Str, p: Progress)
    requires Asked(cfg, hasDb, st) && p == OnStop(w, subject, st, content)
    ensures TurnInv(cfg, hasDb, p)
  {
    hide *;
    AskedParts(cfg, hasDb, st);
    StopShape(w, subject, st, content, p);
    if p.ended.None? {
      var prompt := if st.toolCallsMade == 0 && !st.collectionSent then CollectTools else CorrectOutput;
      InstructionKeeps(cfg, hasDb, st, prompt, p.st);
      PromptAppended(st, p.st);
      IterationCounted(cfg, st, p.st);
      Continues(cfg, hasDb, p);
    } else {
      UnchangedKeeps(cfg, hasDb, st, p.st);
      StopReports(w, cfg, hasDb, subject, st, content, p);
      EndCounted(cfg, st, p.st);
      Ends(cfg, hasDb, p);
    }
  }

  /** How a reply with tool calls changes the state. */
  lemma ToolCallsShape(w: World, hasDb: bool, st: State, content: Str, raw: seq<RawCall>, after: State)
    returns (a: Message, replies: seq<Message>, rows: seq<LogRow>)
    requires after == OnToolCalls(w, hasDb, st, content, raw)
    requires CacheInv(st) && ServedInv(hasDb, st) && |st.log| == (if hasDb then st.toolCallsMade else 0)
    ensures CacheInv(after) && ServedInv(hasDb, after)
    ensures Exchange(hasDb, st, a, replies, rows, after)
    ensures after.collectionSent == st.collectionSent && after.correctionSent == st.correctionSent
    ensures after.failures == st.failures && after.apiAttempts == st.apiAttempts
    ensures after.rateLimitRetries == st.rateLimitRetries
    ensures forall k :: 0 <= k < |rows| ==> Denotes(w.loads, a.calls[k], rows[k].args)
  {
    hide CacheInv, ServedInv, ToolCacheKey, HandleCall, HandleCalls, Denotes, ExtractToolCall;
    var calls := ExtractToolCalls(raw, w.loads);
    a := AssistantMessage(content, calls);
    forall k | 0 <= k < |calls| ensures Denotes(w.loads, a.calls[k], calls[k].args) {
      ExtractedDenotes(raw[k], w.loads);
    }
    var mid := st.(messages := st.messages + [a]);
    replies, rows := CallsAnswer(w, hasDb, mid, calls);
    CallsKeepIteration(w, hasDb, mid, calls);
    CacheUntouched(hasDb, st, mid);
    CallsKeepCache(w, hasDb, mid, calls);
    CacheUntouched(hasDb, HandleCalls(w, hasDb, mid, calls), after);
  }

  lemma CacheUntouched(hasDb: bool, st: State, after: State)
    requires CacheInv(st) && ServedInv(hasDb, st)
    requires after.cache == st.cache && after.dispatches == st.dispatches && after.log == st.log
    ensures CacheInv(after) && ServedInv(hasDb, after)
  {
  }

  /** From `st` to `after`: one assistant message, a reply and, with a session, a row per call. */
  ghost predicate Exchange(hasDb: bool, st: State, a: Message, replies: seq<Message>, rows: seq<LogRow>, after: State) {
    && RepliesTo(a, replies) && |rows| == (if hasDb then |replies| else 0)
    && (forall k :: 0 <= k < |rows| ==>
          && rows[k].toolName == a.calls[k].name && rows[k].result == replies[k].result
          && rows[k].iteration == st.iteration)
    && after.messages == st.messages + [a] + replies && after.log == st.log + rows
    && after.requests == st.requests && after.toolCallsMade == st.toolCallsMade + |replies|
    && after.iteration == st.iteration + 1
  }

  lemma ExchangeTranscript(st: State, hasDb: bool, a: Message, replies: seq<Message>, rows: seq<LogRow>, after: State)
    requires RequestsInv(st) && Exchange(hasDb, st, a, replies, rows, after)
    ensures RequestsInv(after) && after.messages == st.messages + ([a] + replies)
  {
    assert after.messages == st.messages + ([a] + replies);
    AppendExchange(st.messages, a, replies);
    GrowTranscript(st, after);
  }

  lemma ExchangeLogged(cfg: Settings, hasDb: bool, st: State, a: Message, replies: seq<Message>, rows: seq<LogRow>,
                       after: State)
    requires LogInv(cfg, hasDb, st) && st.iteration < cfg.maxIterations && Exchange(hasDb, st, a, replies, rows, after)
    ensures LogInv(cfg, hasDb, after)
  {
    AppendOther(st.messages, a);
    AppendReplies(st.messages + [a], replies);
    RowsAppended(cfg, hasDb, st, a, replies, rows, after, ToolReplies(st.messages), Requested(st.messages));
  }

  lemma RowsAppended(cfg: Settings, hasDb: bool, st: State, a: Message, replies: seq<Message>, rows: seq<LogRow>,
                     after: State, oldReplies: seq<Message>, oldCalls: seq<CallRef>)
    requires LogInv(cfg, hasDb, st) && st.iteration < cfg.maxIterations && Exchange(hasDb, st, a, replies, rows, after)
    requires oldReplies == ToolReplies(st.messages) && oldCalls == Requested(st.messages)
    requires ToolReplies(after.messages) == oldReplies + replies && Requested(after.messages) == oldCalls + a.calls
    ensures LogInv(cfg, hasDb, after)
  {
    hide ToolReplies, Requested;
    var n := |st.log|;
    forall k | 0 <= k < |after.log|
      ensures RowMatches(after.log[k], ToolReplies(after.messages)[k], Requested(after.messages)[k])
    {
      if k < n {
        assert RowMatches(st.log[k], oldReplies[k], oldCalls[k]);
      } else {
        assert after.log[k] == rows[k - n];
      }
    }
  }

  lemma ToolCallsKeep(w: World, cfg: Settings, hasDb: bool, st: State, content: Str, raw: seq<RawCall>, p: Progress)
    requires Asked(cfg, hasDb, st) && p == Going(OnToolCalls(w, hasDb, st, content, raw))
    ensures TurnInv(cfg, hasDb, p)
  {
    hide *;
    AskedParts(cfg, hasDb, st);
    GoingParts(OnToolCalls(w, hasDb, st, content, raw), p);
    var a, replies, rows := ToolCallsShape(w, hasDb, st, content, raw, p.st);
    ExchangeTranscript(st, hasDb, a, replies, rows, p.st);
    ExchangeLogged(cfg, hasDb, st, a, replies, rows, p.st);
    ExchangePrompts(hasDb, st, a, replies, rows, p.st);
    ExchangeCounts(hasDb, st, a, replies, rows, p.st);
    IterationCounted(cfg, st, p.st);
    RecordFrom(cfg, hasDb, p.st);
    PromptFrom(p.st);
    FailuresFrom(st, p.st);
    Continues(cfg, hasDb, p);
  }

  lemma GoingParts(st: State, p: Progress)
    requires p == Going(st)
    ensures p.ended.None? && p.st == st
  {
  }

  lemma ExchangeCounts(hasDb: bool, st: State, a: Message, replies: seq<Message>, rows: seq<LogRow>, after: State)
    requires Exchange(hasDb, st, a, replies, rows, after)
    ensures after.requests == st.requests && after.iteration == st.iteration + 1
    ensures after.toolCallsMade >= st.toolCallsMade
  {
  }

  lemma ExchangePrompts(hasDb: bool, st: State, a: Message, replies: seq<Message>, rows: seq<LogRow>, after: State)
    requires Exchange(hasDb, st, a, replies, rows, after) && PromptInv(st)
    requires after.collectionSent == st.collectionSent && after.correctionSent == st.correctionSent
    requires after.failures == st.failures
    ensures PromptsOrdered(after.messages)
    ensures FlagsAgree(after.messages, after.collectionSent, after.correctionSent, after.toolCallsMade)
    ensures FirstFailure(after.failures, after.collectionSent, after.toolCallsMade)
  {
    assert after.messages == st.messages + ([a] + replies);
    PromptsUnaffected(st.messages, [a] + replies, st.collectionSent, st.correctionSent, st.toolCallsMade,
                      after.toolCallsMade);
  }

  lemma RecordFrom(cfg: Settings, hasDb: bool, st: State)
    requires RequestsInv(st) && LogInv(cfg, hasDb, st) && CacheInv(st) && ServedInv(hasDb, st)
    ensures RecordInv(cfg, hasDb, st)
  {
    hide RequestsInv, LogInv, CacheInv, ServedInv;
  }

  lemma PromptFrom(st: State)
    requires PromptsOrdered(st.messages)
    requires FlagsAgree(st.messages, st.collectionSent, st.correctionSent, st.toolCallsMade)
    requires FirstFailure(st.failures, st.collectionSent, st.toolCallsMade)
    ensures PromptInv(st)
  {
    hide PromptsOrdered, FlagsAgree, FirstFailure;
  }

  lemma FailuresFrom(st: State, after: State)
    requires FailuresPrompted(st) && after.failures == st.failures
    requires after.collectionSent == st.collectionSent && after.correctionSent == st.correctionSent
    ensures FailuresPrompted(after) && FailuresBounded(after)
  {
  }

  /** A reply cut off or finished for another reason. */
  lemma OtherKeeps(w: World, cfg: Settings, hasDb: bool, subject: Subject, st: State, response: Response, p: Progress)
    requires Asked(cfg, hasDb, st) && p == OnResponse(w, hasDb, subject, st, response)
    requires response.Choice? && (response.finish.Length? || response.finish.OtherFinish?)
    ensures TurnInv(cfg, hasDb, p)
  {
    hide *;
    AskedParts(cfg, hasDb, st);
    OtherShape(w, hasDb, subject, st, response, p);
    if response.finish.Length? {
      InstructionKeeps(cfg, hasDb, st, ShortenOutput, p.st);
      PromptsUnaffected(st.messages, [Instruction(ShortenOutput)], st.collectionSent, st.correctionSent,
                        st.toolCallsMade, st.toolCallsMade);
    } else {
      UnchangedKeeps(cfg, hasDb, st, p.st);
    }
    PromptFrom(p.st);
    FailuresFrom(st, p.st);
    IterationCounted(cfg, st, p.st);
    Continues(cfg, hasDb, p);
  }

  lemma OtherShape(w: World, hasDb: bool, subject: Subject, st: State, response: Response, p: Progress)
    requires p == OnResponse(w, hasDb, subject, st, response)
    requires response.Choice? && (response.finish.Length? || response.finish.OtherFinish?)
    ensures p.ended.None? && p.st.iteration == st.iteration + 1
    ensures p.st == st.(iteration := p.st.iteration, messages := p.st.messages)
    ensures p.st.messages == if response.finish.Length? then st.messages + [Instruction(ShortenOutput)] else st.messages
  {
  }

  /** An empty reply, or an API error that ends the run. */
  lemma FallbackKeeps(cfg: Settings, hasDb: bool, subject: Subject, st: State, after: State, reason: Reason,
                      p: Progress)
    requires Asked(cfg, hasDb, st) && (after == st || after == st.(rateLimitRetries := st.rateLimitRetries + 1))
    requires p == Ended(after, FallbackReport(subject, reason, st.toolCallsMade, st.iteration + 1))
    ensures TurnInv(cfg, hasDb, p)
  {
    hide *;
    AskedParts(cfg, hasDb, st);
    FallbackShape(cfg, hasDb, subject, st, after, reason, p);
    UnchangedKeeps(cfg, hasDb, st, p.st);
    FailuresFrom(st, p.st);
    EndCounted(cfg, st, p.st);
    Ends(cfg, hasDb, p);
  }

  lemma FallbackShape(cfg: Settings, hasDb: bool, subject: Subject, st: State, after: State, reason: Reason,
                      p: Progress)
    requires |st.log| == (if hasDb then st.toolCallsMade else 0) && st.iteration < cfg.maxIterations
    requires after == st || after == st.(rateLimitRetries := st.rateLimitRetries + 1)
    requires p == Ended(after, FallbackReport(subject, reason, st.toolCallsMade, st.iteration + 1))
    ensures p.ended.Some? && ReportInv(cfg, hasDb, p.st, p.ended.value)
    ensures p.st == st.(rateLimitRetries := p.st.rateLimitRetries)
  {
  }

  lemma WaitKeeps(cfg: Settings, hasDb: bool, st: State, p: Progress)
    requires Asked(cfg, hasDb, st) && st.rateLimitRetries + 1 <= cfg.rateLimitRetries
    requires p == Progress(st.(rateLimitRetries := st.rateLimitRetries + 1), None)
    ensures TurnInv(cfg, hasDb, p)
  {
    hide *;
    AskedParts(cfg, hasDb, st);
    UnchangedKeeps(cfg, hasDb, st, p.st);
    PromptFrom(p.st);
    FailuresFrom(st, p.st);
    WaitCounted(cfg, st, p.st);
    Continues(cfg, hasDb, p);
  }

  lemma WaitCounted(cfg: Settings, st: State, after: State)
    requires |st.requests| == st.iteration + st.rateLimitRetries + 1 && st.iteration < cfg.maxIterations
    requires st.rateLimitRetries + 1 <= cfg.rateLimitRetries && st.apiAttempts <= MAX_ATTEMPTS * |st.requests|
    requires after == st.(rateLimitRetries := st.rateLimitRetries + 1)
    ensures CountInv(cfg, after)
  {
  }

  lemma ResponseKeeps(w: World, cfg: Settings, hasDb: bool, subject: Subject, st: State, response: Response,
                      p: Progress)
    requires Asked(cfg, hasDb, st) && p == OnResponse(w, hasDb, subject, st, response)
    ensures TurnInv(cfg, hasDb, p)
  {
    hide Asked, TurnInv, OnStop, OnToolCalls, FallbackReport;
    match response
    case NoChoices => FallbackKeeps(cfg, hasDb, subject, st, st, EmptyChoices, p);
    case NoMessage => FallbackKeeps(cfg, hasDb, subject, st, st, MissingMessage, p);
    case Choice(Stop, content, _) => StopKeeps(w, cfg, hasDb, subject, st, content, p);
    case Choice(ToolCalls, content, raw) => ToolCallsKeep(w, cfg, hasDb, st, content, raw, p);
    case Choice(_, _, _) => OtherKeeps(w, cfg, hasDb, subject, st, response, p);
  }

  lemma ApiErrorKeeps(cfg: Settings, hasDb: bool, subject: Subject, st: State, attempt: Attempt, p: Progress)
    requires Asked(cfg, hasDb, st) && !attempt.Responded? && p == OnApiError(cfg, subject, st, attempt)
    ensures TurnInv(cfg, hasDb, p)
  {
    hide Asked, TurnInv, FallbackReport;
    var counted := st.(rateLimitRetries := st.rateLimitRetries + 1);
    match attempt
    case RateLimited =>
      if counted.rateLimitRetries <= cfg.rateLimitRetries {
        WaitKeeps(cfg, hasDb, st, p);
      } else {
        FallbackKeeps(cfg, hasDb, subject, st, counted, RateLimitExceeded, p);
      }
    case TimedOut => FallbackKeeps(cfg, hasDb, subject, st, st, LlmTimeout, p);
    case ApiFailed => FallbackKeeps(cfg, hasDb, subject, st, st, ApiCallFailed, p);
  }

  /** One pass of the loop body keeps the invariant or ends the run with a related report. */
  lemma TurnKeepsInvariant(w: World, cfg: Settings, hasDb: bool, subject: Subject, st: State, p: Progress)
    requires LoopInv(cfg, hasDb, st) && st.iteration < cfg.maxIterations && p == Turn(w, cfg, hasDb, subject, st)
    ensures TurnInv(cfg, hasDb, p)
  {
    hide LoopInv, TurnInv, Asked, OnResponse, OnApiError;
    var (attempt, used) := CallLlm(w, st.apiAttempts, 1);
    var asked := st.(apiAttempts := used, requests := st.requests + [st.messages]);
    RequestKeeps(cfg, hasDb, st, used, asked);
    if attempt.Responded? {
      ResponseKeeps(w, cfg, hasDb, subject, asked, attempt.response, p);
    } else {
      ApiErrorKeeps(cfg, hasDb, subject, asked, attempt, p);
    }
  }

  lemma LimitReached(cfg: Settings, hasDb: bool, subject: Subject, st: State)
    requires LoopInv(cfg, hasDb, st) && st.iteration >= cfg.maxIterations
    ensures FinalInv(cfg, hasDb, st)
    ensures ReportInv(cfg, hasDb, st, FallbackReport(subject, IterationLimit, st.toolCallsMade, st.iteration))
  {
    hide RequestsInv, CacheInv, ServedInv, PromptsOrdered, FlagsAgree, RowMatches, ToolReplies, Requested;
  }

  /** Every run, whatever the world answers. */
  lemma {:induction false} RunKeepsInvariant(w: World, cfg: Settings, hasDb: bool, subject: Subject, st: State,
                                             final: State, report: Report)
    requires LoopInv(cfg, hasDb, st) && (final, report) == Run(w, cfg, hasDb, subject, st)
    ensures FinalInv(cfg, hasDb, final) && ReportInv(cfg, hasDb, final, report)
    decreases Budget(cfg, st)
  {
    hide LoopInv, FinalInv, ReportInv, Turn;
    if st.iteration < cfg.maxIterations {
      var p := Turn(w, cfg, hasDb, subject, st);
      TurnKeepsInvariant(w, cfg, hasDb, subject, st, p);
      TurnSpendsBudget(w, cfg, hasDb, subject, st);
      TurnParts(cfg, hasDb, p);
      if p.ended.None? {
        RunKeepsInvariant(w, cfg, hasDb, subject, p.st, final, report);
      }
    } else {
      LimitReached(cfg, hasDb, subject, st);
    }
  }

  lemma TurnParts(cfg: Settings, hasDb: bool, p: Progress)
    requires TurnInv(cfg, hasDb, p)
    ensures p.ended.None? ==> LoopInv(cfg, hasDb, p.st)
    ensures p.ended.Some? ==> FinalInv(cfg, hasDb, p.st) && ReportInv(cfg, hasDb, p.st, p.ended.value)
  {
    hide LoopInv, FinalInv, ReportInv;
  }
}
