# DataLineage Doctor: a verified model

DataLineage Doctor investigates failed data-quality tests. A webhook starts a worker task that lets
a language model call metadata tools in a bounded loop, turns its answer into a report, stores the
report with its timeline, its affected consumers and a log of the tool calls, and shows it on a page
with a lineage graph. This project models the parts of that system whose guarantees depend on loops,
concurrency or text structure, and proves them for every input, every run and every interleaving.

`dafny verify dfyconfig.toml` checks the whole project.

## What is modelled

| module | part of the system |
|---|---|
| `Wrappers`, `PythonText`, `Sorting` | optional values, Python strings as code points, their order, and `sorted` as a stable sort |
| `Json`, `JsonPrinter`, `CacheKey` | dict arguments, `json.dumps` with sorted keys, and the tool-cache key |
| `ReportParser` | reports, the derived label, and extraction of the JSON object from model output |
| `AgentLoop` | the agent loop as a transition function (`Turn`, `Run`) and as the class `RcaRun`, with tool dispatch and the retried model call |
| `AgentAnswers` | what the agent does for each kind of reply, and how whole runs follow from the replies |
| `AgentProofs`, `AgentRecords`, `AgentTheorems` | the loop's invariant, what its records mean together, and what follows at the end of every run |
| `Lineage`, `LineageNodes` | breadth-first levels over a lineage graph, node parsing, depth clamp, blast radius |
| `TableNames` | spelling variants of a table name and the lookup that tries them |
| `TokenProtocol` | coroutines that share a cached token and the login lock, as a state machine over the code between two awaits |
| `ApiClient` | one client's `_get` without interruption: replies, refresh, retries, static tokens |
| `IncidentStore` | the tables, sessions with uncommitted writes, commits, `find_past_incidents` |
| `Worker` | any number of incident runs over one store, with a crash possible between any two steps |
| `Abandonment` | what becomes of an incident whose run stops between its two commits |
| `IncidentRun` | one uninterrupted run as the worker's code performs it, and as a path of `Worker` |
| `GraphBuilder`, `InlineCode` | the graph payload and the backtick filter of the incident page |

The model, the tools, the report schema, `json.loads` and the network are arbitrary: a `World` or a
`Net` is a set of functions that answers every call, and the theorems quantify over all of them.

## Where the code keeps a promise only in part

- Cache keys. Two calls get one key exactly when the tool names are equal and the key-sorted arguments
  agree after UTF-16 encoding (`CacheKey.KeyExact`, for all inputs). ASCII-only printing writes U+1F600
  and the two surrogates that encode it alike, so arguments that differ only there collide
  (`CacheKey.SplitPairCollides`). Such a pair of surrogates reaches the code when the arguments text
  holds an escaped high surrogate directly before a raw low one, which `json.loads` leaves apart.
  A string has a twin if it holds a code point beyond the basic plane or such a split pair. Given the
  arguments of one call, some other arguments share its key if and only if some string value has a
  twin, or some dict key has one that keeps its place among the sorted keys of its dict
  (`CacheKey.SharedKeyExactly`; a twin of a key that would sort elsewhere changes the printed order and
  so the key). Without sorting: a twin among the string values always makes a collision
  (`CacheKey.TwinValueCollides`), is the only way when no dict key has one
  (`CacheKey.SharedKeyWithPlainKeys`), and a call none of whose strings has a twin shares its key with
  no other call at all (`CacheKey.KeyIdentifiesPlainCall`). In the loop, the result of a newly dispatched
  call is served for a different call under exactly the same condition
  (`AgentTheorems.CallsMixedExactly`).
- Fenced objects. The object inside a fence is recovered if and only if none of its braces before
  the last is followed by whitespace and three backticks (`ReportParser.FencedObjectRecovered`);
  otherwise it is cut off after the first such brace (`ReportParser.FencedPartRecovered`). The object
  `{"s":"} ```"}` comes back as `{"s":"}` (`ReportParser.FencedObjectCutOff`).
- Two spellings of a table. Looking up either gives the same table if and only if the catalogue does
  not hold two different tables under them (`TableNames.SpellingsResolveAlike`); with two tables under
  `a.b.c` and `a.b.default.c` the spellings disagree (`TableNames.DefaultSchemaDisagrees`).
- Static tokens. In every network, a GET sent again after a 401 carries a newer token if and only if no
  static text is configured (`ApiClient.RefreshRenewsExactly`). A nonempty blank token
  is ignored when a client opens but honoured when it refreshes, so its client opens with a login's
  token and keeps that token through every request (`ApiClient.BlankStaticTokenNeverRefreshed`); one
  space is such a token (`ApiClient.SpaceTokenResent`).
- Stuck incidents. `knowledge/services/worker.md` promises that the page never shows a stuck PROCESSING
  incident, because a failure hook writes FAILED. The code has no hook. A PROCESSING incident can still
  become COMPLETE if and only if some run works on it, between its two commits, and then two more steps
  are enough (`Abandonment.CanFinishExactly`, `Abandonment.WorkedOnFinishes`). A crash between the
  commits leaves it without one (`Abandonment.CrashAbandons`), and from then on it stays PROCESSING in
  every continuation (`Abandonment.AbandonedStays`). A trigger, the first commit and a crash are enough
  (`Abandonment.StuckIncident`).

## Model

| member | source | states |
|---|---|---|
| Sorting.SortCorrect | om_client/lineage.py:115 | sorting returns a permutation of its input in order |
| Sorting.SortOfSorted | agent/tools/lineage.py:58-68 | sorting what is already sorted moves nothing |
| Sorting.SortStable | om_client/lineage.py:115 | elements that rank alike keep their order |
| PythonText.LexLeqExact | om_client/lineage.py:115 | strings are ordered by the first code point in which they differ, a prefix first |
| Json.CanonicalKeepsMeaning | agent/loop.py:80-81 | sorting the members of every dict, at every depth, keeps the meaning |
| Json.SameMeaningIffSameCanonical | agent/loop.py:80-81 | two values are equal ignoring key order iff their key-sorted trees are equal |
| JsonPrinter.PrintReadUniquely | agent/loop.py:80-81 | a printed value can be read back in one way wherever it stands in a text |
| JsonPrinter.PrintedAlikeIffEncodedAlike | agent/loop.py:80-81 | two trees print alike iff they agree after UTF-16 encoding of every string |
| JsonPrinter.ContainersPrinted | agent/loop.py:80-81 | lists in brackets, dicts in braces, `, ` between entries and `: ` after keys |
| JsonPrinter.DigitsPrinted | agent/loop.py:80-81 | integers are printed in decimal without leading zeros, negative ones with a minus sign |
| JsonPrinter.UnitEscaped | agent/loop.py:80-81 | the seven short escapes, printable ASCII as itself, four lower-case hex digits otherwise |
| JsonPrinter.StringPrinted | agent/loop.py:80-81 | strings are quoted and escaped unit by unit, beyond the basic plane as two surrogates |
| CacheKey.KeyFormat | agent/loop.py:80-81 | name, colon, arguments printed with sorted keys |
| CacheKey.NoDictAfterColon | agent/loop.py:80-81 | no printed dict ends with a colon directly followed by another printed dict, so the tool name has one end |
| CacheKey.KeyExact | agent/loop.py:80-81 | for all names, colons and braces included, and all arguments: equal keys iff equal names and equal encoded key-sorted arguments |
| CacheKey.KeyInjectiveUpToKeyOrder | agent/loop.py:80-81 | without split surrogate pairs, equal keys iff equal names and arguments equal ignoring key order |
| CacheKey.SplitPairCollides | agent/loop.py:80-81 | a concrete pair of different arguments with one key |
| CacheKey.SharedKeyExactly | agent/loop.py:80-81 | for every call, exactly when other arguments share its key: some string value has a twin, or some key has one that keeps its place |
| CacheKey.TwinValueCollides | agent/loop.py:80-81 | a twin among the string values, at any depth, always gives other arguments with the same key |
| CacheKey.SharedKeyWithPlainKeys | agent/loop.py:80-81 | where no dict key has a twin, other arguments share the key iff some string value has one |
| CacheKey.KeyIdentifiesPlainCall | agent/loop.py:80-81 | if no string of one call has a twin, any call at all has its key iff it names the same tool with equal arguments up to key order |
| ReportParser.ParseReport | agent/parser.py:50-59 | an accepted report is authored by the model and carries the label derived from its score |
| ReportParser.CandidateIsSlice | agent/parser.py:31-42 | every extracted candidate is a contiguous slice of the content from an opening to a closing brace |
| ReportParser.FencedPartRecovered | agent/parser.py:9-11 | from any fence, with `json` in any case or no word and any whitespace, comes the object up to its first brace that is followed by whitespace and a fence |
| ReportParser.FencedObjectRecovered | agent/parser.py:9-11 | an object in any such fence is recovered whole iff no earlier brace is followed by whitespace and a fence |
| ReportParser.FencedObjectCutOff | agent/parser.py:9-11 | a concrete object that is cut off, and what comes back |
| ReportParser.FenceFreeObjectRecovered | agent/parser.py:31-42 | an object without a triple backtick is recovered from any such fence after any fence-free prefix and before any suffix |
| ReportParser.BareObjectRecovered | agent/parser.py:37-42 | without a fence match the object is recovered from a prefix without an opening and a suffix without a closing brace |
| ReportParser.FenceFreeBareObjectRecovered | agent/parser.py:31-42 | the same for every text without three backticks |
| ReportParser.NoFenceNoMatch | agent/parser.py:31-36 | text without three backticks has no fence match |
| ReportParser.UnfencedExact | agent/parser.py:37-42 | from any text without three backticks comes everything from its first `{` to its last `}`, or nothing |
| ReportParser.FenceHeads | agent/parser.py:9-11 | which heads open a fence, by example in several letter cases |
| AgentLoop.CallLlm | agent/loop.py:202-215 | at most three attempts; the result is the first response, or the third error after two earlier ones |
| AgentLoop.CallLlmWithRetry | agent/loop.py:202-215 | the retry loop computes that |
| AgentLoop.DispatchResult | agent/tools/registry.py:157-167 | dispatch is total: an unknown tool or a raising handler gives a payload with an error |
| AgentLoop.ToolRegistry.DispatchTool | agent/tools/registry.py:157-167 | one tick for the tool's name per call, and the dispatch result |
| AgentLoop.TurnSpendsBudget | agent/loop.py:280-307 | every turn that goes on takes exactly one from the remaining iterations plus rate-limit retries |
| AgentLoop.RcaRun.constructor | agent/loop.py:262-278 | a run starts with the two opening messages, empty cache and log, and its counter settled |
| AgentLoop.RcaRun.RecordToolCall | agent/loop.py:218-245 | one log row if there is a session, one tool message, one count |
| AgentLoop.RcaRun.HandleToolCall | agent/loop.py:412-464 | a call is served from the cache or dispatched and cached, and ticks only when dispatched |
| AgentLoop.RcaRun.AnswerToolCalls | agent/loop.py:410-466 | the assistant message and its calls, one after another, then the next iteration |
| AgentLoop.RcaRun.HandleStop | agent/loop.py:371-408 | a parsed report ends the run; a failed parse leads to one of two prompts or a fallback |
| AgentLoop.RcaRun.HandleApiError | agent/loop.py:286-336 | a rate limit is waited out within its budget; other errors end the run |
| AgentLoop.RcaRun.HandleResponse | agent/loop.py:338-476 | every kind of response changes the state as the transition function says |
| AgentLoop.RcaRun.TakeTurn | agent/loop.py:280-476 | one pass of the loop body is one `Turn` |
| AgentLoop.RcaRun.Investigate | agent/loop.py:280-489 | the loop terminates and computes `Run`; the counter ticks once per dispatch |
| AgentAnswers.AcceptedStopEnds | agent/loop.py:371-408 | a stop whose content the schema accepts ends the run with exactly that report, its counts raised to the run's; no message is sent |
| AgentAnswers.RejectedStopPrompts | agent/loop.py:374-404 | when a rejected stop leads to the collection prompt, when to the correction prompt, and when to a fallback |
| AgentAnswers.OtherRepliesHandled | agent/loop.py:338-369 | empty replies end the run, a cut-off one asks for less, any other is passed over |
| AgentAnswers.ErrorsHandled | agent/loop.py:286-336 | a rate limit is waited out while the setting allows one more; other errors end the run, each with its reason |
| AgentAnswers.ToolCallsAnswered | agent/loop.py:108-148 | the assistant message repeats the model's calls with their ids, names and arguments, and each is answered under its id |
| AgentAnswers.ToolAnswers | agent/tools/registry.py:157-167 | what each of the six tools and any other name answers |
| AgentAnswers.RequestedAreTheModels | agent/loop.py:410-463 | over a run the requested calls are those of the model's tool-call replies, in order |
| AgentAnswers.RowsAreTheModels | agent/loop.py:410-463 | so tool messages carry the model's ids and log rows its function names |
| AgentAnswers.DispatchesAreFirstCalls | agent/loop.py:417-442 | tools are called exactly for the first call of each key, in order, with its name and arguments |
| AgentAnswers.RunEndsFittingly | agent/loop.py:280-489 | a run ends with the model's report if its last reply was an accepted stop, else with a fallback that names the right reason |
| AgentAnswers.AuthoredExactly | agent/loop.py:371-408 | a run returns a report of the model's iff its last reply was an accepted stop |
| AgentProofs.AppendExchange | agent/loop.py:410-463 | an assistant message followed by one reply per call keeps the transcript well formed |
| AgentProofs.CallsAnswer | agent/loop.py:412-464 | calls are answered in order with their own ids, and each row carries its reply's result |
| AgentProofs.CallsKeepCache | agent/loop.py:417-445 | handling calls keeps one cache entry per dispatch and every row consistent with its key's dispatch |
| AgentProofs.InitialInvariant | agent/loop.py:262-278 | the loop invariant holds at the start |
| AgentProofs.TurnKeepsInvariant | agent/loop.py:280-476 | every turn keeps the invariant or ends the run with a report that fits it |
| AgentProofs.RunKeepsInvariant | agent/loop.py:248-489 | so does every run, whatever the world answers |
| AgentTheorems.TranscriptsWellFormed | agent/loop.py:262-272 | at every model call the transcript starts with system and incident message, each call has exactly one reply in order, no reply is an orphan, and transcripts only grow at the end |
| AgentTheorems.LogMatchesTranscript | agent/loop.py:410-466 | requested calls, tool messages and log rows correspond one to one; a row has its call's name and exactly the arguments parsed from what the call was given; iterations are nondecreasing and below the limit |
| AgentTheorems.LogTellsRun | agent/loop.py:410-466 | the log alone shows one outcome per key, told in full by the key's first row |
| AgentTheorems.RepliesServedFromDispatch | agent/loop.py:417-463 | with or without a session, the first tool message of a key holds the dispatched result and later ones the notice |
| AgentRecords.SessionOnlyAddsLog | agent/loop.py:230-245 | for equal replies and tool answers, a session changes nothing in a run but the log |
| AgentTheorems.EachKeyDispatchedOnce | agent/loop.py:417-442 | each key is dispatched at most once, and dispatches equal cache entries |
| AgentTheorems.EqualCallsDispatchedOnce | agent/loop.py:417-442 | no two dispatches have equal names and arguments equal ignoring key order |
| AgentTheorems.RowsServedFromDispatch | agent/loop.py:419-456 | all rows of a key carry the success flag and error of its dispatch; the first the result, later ones the notice |
| AgentTheorems.CacheNeverMixesCalls | agent/loop.py:417-442 | a logged call was answered by a dispatch of the same tool with arguments that print alike, which are equal up to key order unless a string of the row's can be respelled |
| AgentTheorems.CallsMixedExactly | agent/loop.py:417-442 | exactly when a dispatched call's result is served for a different call |
| AgentTheorems.TurnCallsOnce | agent/loop.py:280-286 | each pass of the loop body makes one model call, of one to three attempts, with the transcript so far |
| AgentTheorems.ModelCallsBounded | agent/loop.py:280-307 | at most iterations plus rate-limit retries model calls, also for negative settings, and in total at most three times as many attempts |
| AgentTheorems.PromptsSentOnce | agent/loop.py:371-404 | each prompt at most once, the collection prompt before any tool message or correction, at most three failed parses, two if a tool call came first |
| AgentTheorems.ReportsTruthful | agent/loop.py:160-199 | on every exit the label is HIGH from 0.85 on and LOW below 0.60; a fallback states exactly the calls made and at most the iteration limit |
| AgentTheorems.RunRcaAgent | agent/loop.py:248-489 | the run ends as the transition function says, and the counter grows by the number of cache entries |
| Lineage.BuildAdjacency | om_client/lineage.py:38-49 | adjacency lists hold the neighbours in edge order; edges with a blank endpoint add nothing |
| Lineage.LeadsToIds | om_client/lineage.py:10-16 | an endpoint gives its id as a reference or bare, and an edge links two nonblank ids |
| Lineage.BuildLevels | om_client/lineage.py:31-66 | a node has level k iff its shortest walk from the root has k steps, 1 to depth; the root never appears; the search terminates |
| Lineage.LevelsAreExact | om_client/lineage.py:51-66 | what the search's invariant gives when the queue is empty |
| Lineage.ExactLevelsUnique | om_client/lineage.py:31-66 | only one level map is exact |
| Lineage.LevelsIgnoreEdgeOrder | om_client/lineage.py:41-47 | reordering or repeating edges changes no level |
| Lineage.DepthOnlyCutsOff | om_client/lineage.py:57-58 | a smaller depth cuts off the deeper levels and changes nothing else |
| Lineage.UpstreamAndDownstreamAgree | om_client/lineage.py:49 | a node is k levels downstream of another iff the other is k levels upstream of it |
| LineageNodes.IndexNodes | om_client/lineage.py:83-89 | the last record of an id wins; blank ids and other values are skipped |
| LineageNodes.ParseLineageNodes | om_client/lineage.py:69-115 | exactly one entry per node within depth that has a record, at its distance, under its first nonblank name, by level and name; the common edge list wins |
| LineageNodes.CappedDepth | om_client/lineage.py:120 | the requested depth within 1 and the maximum |
| LineageNodes.GetLineage | om_client/lineage.py:118-165 | the same for the resolved table and the clamped depth; nothing for an unknown table or a response without its lists |
| LineageNodes.BlastRadiusKeepsOrder | agent/tools/lineage.py:58-73 | on a lineage result the blast radius lists the same names and levels in the same order, and the total is their number |
| TableNames.Split | om_client/client.py:22 | splitting at dots leaves parts without dots that join back to the name |
| TableNames.SplitOfJoin | om_client/client.py:22-29 | joining parts without dots and splitting gives the parts back |
| TableNames.CandidatesSymmetric | om_client/client.py:19-38 | a name is a candidate of another iff the other is one of it |
| TableNames.CandidatesDistinct | om_client/client.py:31-38 | the candidates never repeat |
| TableNames.CandidatesExact | om_client/client.py:19-38 | two names are candidates of each other iff they are `a.b.c` and `a.b.default.c` |
| TableNames.GetTableFqnCandidates | om_client/client.py:19-38 | the loop returns the name itself and its variant, if it has one |
| TableNames.ResolveTable | om_client/lineage.py:122-128 | the entry under the name as given, else under its variant, nothing iff neither is there |
| TableNames.LookupFinds | om_client/lineage.py:122-128 | the same as a law over catalogues |
| TableNames.OneSpellingFound | om_client/lineage.py:122-128 | if exactly one spelling is in the catalogue, looking up either finds its table |
| TableNames.SpellingsResolveAlike | om_client/lineage.py:122-128 | both spellings resolve alike iff the catalogue holds no two different tables under them |
| TableNames.SpellingsDisagree | om_client/lineage.py:122-128 | where two different tables hold the two names, each spelling finds its own, for all dot-free parts |
| TableNames.DefaultSchemaDisagrees | om_client/lineage.py:122-128 | a concrete catalogue in which the spellings disagree |
| TokenProtocol.NextKeepsInv | om_client/client.py:78-150 | every step of every coroutine keeps the protocol's invariant |
| TokenProtocol.OneLoginAtATime | om_client/client.py:92-95 | in every interleaving at most one login is in flight |
| TokenProtocol.TokensComeFromLogins | om_client/client.py:72-75 | every cached token and every header token came from a login that succeeded |
| TokenProtocol.LoginsBounded | om_client/client.py:78-150 | logins number at most one plus refreshes plus failed logins |
| TokenProtocol.ColdCallersShareOneLogin | om_client/client.py:91-95 | any number of cold callers share one login and one token when none fails or refreshes |
| TokenProtocol.RetriedWithFreshToken | om_client/client.py:163-165 | the GET after a 401 carries a token whose login started after that 401 |
| TokenProtocol.HeaderIsFreshWhenSent | om_client/client.py:144-165 | in every run, whenever a GET goes out after a refresh, the client's header holds its token, from a login started after the 401 |
| TokenProtocol.RequestsBounded | om_client/client.py:152-172 | a request makes at most three attempts, six GETs and three logins |
| TokenProtocol.WaitersProgress | om_client/client.py:92-95 | while a coroutine waits for the lock, the holder's login can answer; without a holder the waiting coroutine itself can go on |
| TokenProtocol.TwoColdClients | om_client/client.py:78-122 | a run in which two cold clients share the first one's login, state by state to its end |
| TokenProtocol.ErrorRetried | om_client/client.py:152-165 | any idle client's request can meet an error, pause, be sent again and meet a 401 |
| TokenProtocol.UnauthorizedRefreshed | om_client/client.py:144-165 | from there a login, the second GET with its token and the answer can follow, with exactly these counts |
| ApiClient.OMClient.AcquireToken | om_client/client.py:49-75 | a login's token is cached, and a refused login leaves the cache alone |
| ApiClient.OMClient.Open | om_client/client.py:78-122 | static token unless blank, else cached, else a login |
| ApiClient.OMClient.RefreshAuth | om_client/client.py:129-150 | drops the cached token and logs in, unless any static text is configured |
| ApiClient.OMClient.TryGet | om_client/client.py:160-172 | one GET, after a 401 a refresh and a second one |
| ApiClient.OMClient.Get | om_client/client.py:152-172 | the retry loop, which tries HTTP errors again and nothing else |
| ApiClient.RequestBounded | om_client/client.py:152-172 | two GETs and one login an attempt at most, no login with static text |
| ApiClient.RequestFresh | om_client/client.py:163-165 | without static text no GET follows a 401 of its attempt except directly after a login, with that login's token |
| ApiClient.RequestAnswers | om_client/client.py:160-172 | missing iff the last reply was a 404, payload iff it was a success, an HTTP error only after all attempts, any other error as soon as a GET gets no response or a login meets it |
| ApiClient.OpensWith | om_client/client.py:78-95 | which token a client opens with, what is cached then, and how a refused login fails |
| ApiClient.FirstReplyDecides | om_client/client.py:160-172 | a first reply that is a success, a 404 or missing is the answer, after one GET and no login |
| ApiClient.UnauthorizedLogsIn | om_client/client.py:144-165 | what a first 401 without static text leads to, for each outcome of its login |
| ApiClient.ErrorsTriedThrice | om_client/client.py:152-157 | other error statuses are tried again, at most three times |
| ApiClient.StaticTextKeepsToken | om_client/client.py:136-142 | with any static text, every GET of a request carries the header it began with, and no login happens |
| ApiClient.RefreshRenewsExactly | om_client/client.py:136-165 | in every network, a GET sent again after a 401 carries a newer token iff no static text is configured, and a first 401 leads to such a GET unless its login is refused |
| ApiClient.BlankStaticTokenNeverRefreshed | om_client/client.py:84-89 | for every blank nonempty token, a client opens with a login's token and sends it with every GET, whatever the replies |
| ApiClient.SpaceTokenResent | om_client/client.py:136-142 | one space is such a token: a 401 is answered with the same token, whatever a login would answer |
| IncidentStore.Session.Commit | worker/persistence.py:68 | all pending writes become durable at once |
| IncidentStore.Session.CreateIncident | worker/persistence.py:19-29 | a PROCESSING incident is committed |
| IncidentStore.Session.SaveReport | worker/persistence.py:31-69 | the report's columns and rows are committed with what the session flushed before; a missing incident fails without a change |
| IncidentStore.Session.SetSlackNotified | worker/persistence.py:72-79 | sets the flag of an existing incident and commits, else nothing |
| IncidentStore.Session.SetOmIncidentId | worker/persistence.py:82-91 | sets the id of an existing incident and commits, else nothing |
| IncidentStore.ApplyCompletion | worker/persistence.py:33-68 | what the finishing commit does to each table |
| IncidentStore.BoundedLimit | agent/tools/history.py:24 | the nearest limit within 1 and 20 |
| IncidentStore.PastIncidentsExact | agent/tools/history.py:26-32 | complete incidents of the table only, newest first, at most the limit, none left out that is newer, short only when complete |
| IncidentStore.PastIncidentsCounted | agent/tools/history.py:26-32 | over the whole table no incident is returned twice, and the answer has as many as match or as the limit allows |
| Worker.SaveEffect | worker/persistence.py:33-68 | the second commit finishes exactly its own incident |
| Worker.CommitStepKeepsInv | worker/tasks.py:49-82 | every committing step keeps the store consistent and every other run undisturbed |
| Worker.QuietStepKeepsInv | worker/tasks.py:57-63 | so does every step without a commit, crashes included |
| Worker.DurableIncidentsConsistent | worker/tasks.py:49-82 | in every interleaving a PROCESSING incident has no rows and no notification fields, and a COMPLETE one exactly its report's rows, its derived label, and a log no longer than the calls it states, with iterations in order below the limit and one outcome per key |
| Worker.OwnIncidentNeverPast | agent/tools/history.py:24-49 | while a run investigates, no query in its session returns its own incident |
| Worker.StatusNeverMovesBack | worker/persistence.py:33-41 | an incident never disappears, never leaves COMPLETE and keeps its report |
| Abandonment.AbandonedStays | worker/tasks.py:49-74 | in every run, once no run works on a PROCESSING incident, none ever does again and it stays PROCESSING |
| Abandonment.CrashAbandons | worker/tasks.py:49-74 | a crash between the two commits leaves the run's incident to nobody |
| Abandonment.WorkedOnFinishes | worker/tasks.py:57-74 | at most two more steps complete an incident that a run works on |
| Abandonment.CanFinishExactly | worker/tasks.py:49-74 | a PROCESSING incident can still become COMPLETE iff a run works on it |
| Abandonment.StuckIncident | worker/tasks.py:49-74 | three steps to an incident that no continuation completes |
| IncidentRun.RunIncident | worker/tasks.py:49-82 | an uninterrupted run ends with a finished incident, all its log rows and the flags its notifications earned, touches no other, and goes through the stores of a path of the concurrent model |
| IncidentRun.IncidentPath | worker/tasks.py:49-82 | that path: trigger, first commit, agent turns, second commit and notifications, all steps of one run |
| IncidentRun.PathContinuesRun | worker/tasks.py:49-82 | such a path continues any run that ends where it starts |
| GraphBuilder.BuildNodesForEvents | app/services/graph_builder.py:24-49 | one upstream node per event on another entity, in event order |
| GraphBuilder.OtherEntitiesExact | app/services/graph_builder.py:31-35 | each entity that is neither the root nor downstream occurs as often as in the events, and nothing else does |
| GraphBuilder.KeepFirst | app/services/graph_builder.py:82-86 | the first node of every id in list order |
| GraphBuilder.FirstByIdExact | app/services/graph_builder.py:82-86 | ids become distinct, none is lost, and each kept node is the first with its id |
| GraphBuilder.PlaceNodes | app/services/graph_builder.py:88-112 | each node takes the next free row of its direction's column |
| GraphBuilder.PositionsDistinct | app/services/graph_builder.py:96-112 | no two nodes share a position |
| GraphBuilder.RowFilled | app/services/graph_builder.py:96-112 | a column with n nodes fills the rows 0 to n - 1 |
| GraphBuilder.BuildEdges | app/services/graph_builder.py:114-130 | one edge into the root per upstream entry and one out of it per downstream entry |
| GraphBuilder.BuildGraphData | app/services/graph_builder.py:52-132 | distinct ids that are the root, the events and the consumers; labels, services, columns and rows of every node; edges between drawn nodes, one per non-root node in its direction; one root cause, at the origin |
| GraphBuilder.PartsOfName | app/services/graph_builder.py:17-21 | a label is the name's last part, a service its first part or `unknown` |
| GraphBuilder.PlacePositions | app/services/graph_builder.py:88-112 | upstream at -240, downstream at 240, each 120 below its predecessors of the same direction |
| InlineCode.RenderingInvertible | app/routers/dashboard.py:43-48 | turning tags back into backticks and undoing the escapes gives back every text |
| InlineCode.MarkupIsInsertedTags | app/routers/dashboard.py:47-48 | every `<` in the output begins an inserted tag, and tags open and close in turn |
| InlineCode.SpanRendered | app/routers/dashboard.py:43-48 | the first backtick pair around text becomes a code element, and the rest is rendered alike |
| InlineCode.TicklessRendered | app/routers/dashboard.py:43-48 | text without a backtick is only escaped |
| InlineCode.CharacterEscaped | app/routers/dashboard.py:47 | the five escaped characters, and no others |

## Left out

- Transport, the OpenAI and httpx clients, Celery, Prometheus beyond the tool counter, and SQL: they appear as arbitrary outcomes, a counter and an abstract store.
- Schema validation and `json.loads`: arbitrary functions that accept or reject a text; accepted scores lie in 0 to 1. Floats in tool arguments, Python's limit on printing integers of thousands of digits, and `default=str` for values JSON cannot hold are not modelled.
- Scores and the thresholds 0.85 and 0.60 are real numbers; rounding of binary floats is not modelled.
- TokenProtocol.NextKeepsInv: the shared module state is modelled on values, one step for the code between two awaits, because interleaving is the point; waiting coroutines may take a free lock in any order, which covers asyncio's fair order; one event loop and no static token.
- ApiClient.OMClient.Get: a response is its status code, and a transport error is a GET without a response; bodies and the waiting time between attempts are not modelled. `_post` differs in having no retry and is not modelled.
- AgentLoop.RcaRun.Investigate: exceptions other than the API errors the loop handles are not modelled here; in `Worker` they are a crash of the run. Metrics other than the tool counter, log output, durations and the wording of prompts are not modelled. An attempt is one call of the client library, whose own retries (`llm_client_max_retries`, agent/loop.py:256-261) may send it more than once.
- Retries of a failed task: `knowledge/services/worker.md` describes automatic ones, but the task decorator (worker/tasks.py:28) names no exception to retry on, so a failed run is not started again.
- Worker.QuietStepKeepsInv: one agent turn is one step, because everything a turn writes stays uncommitted; a crash inside a turn loses the same pending rows as one before it.
- IncidentRun.RunIncident: the counters of the surrounding task and the two gauges set after the second commit are not modelled.
- IncidentStore.PastIncidentsExact: the database's order among equal trigger times is an arbitrary listing of the rows; the empty answer without a session and the error payload of a failed query are not modelled.
- LineageNodes.ParseLineageNodes: entity type and service are not modelled; they do not affect order or selection.
- LineageNodes.BlastRadiusKeepsOrder: conversion of a textual depth and the error payload are not modelled.
- GraphBuilder.BuildEdges: edge ids are left out; they repeat when an entity is listed twice, as the edges do.
- Slack and OpenMetadata incident creation: only whether they succeed.
- Dashboard pages, API routes, webhook, templates, seed scripts and the other OpenMetadata readers.
