/** Any number of concurrent incident runs over one store, each of which may stop at any await. */
module Worker {
  import opened PythonText
  import opened ReportParser
  import opened AgentLoop
  import opened AgentProofs
  import opened AgentRecords
  import opened IncidentStore
  import opened Wrappers

  type RunId = nat

  /** How far a run has come. An investigation carries the agent's state at its last turn. */
  datatype Phase =
    | Received(subject: Subject, triggeredAt: int)
    | Investigating(subject: Subject, agent: State)
    | Reporting(agent: State, report: Report)
    | Notifying
    | Linking
    | Stopped

  /** A run, the incident it works on, and the writes its session has flushed but not committed. */
  datatype Task = Task(phase: Phase, incident: IncidentId, pending: seq<Write>)

  datatype Cluster = Cluster(store: Store, tasks: map<RunId, Task>)

  // ---------- Steps ----------

  ghost predicate Receive(s: Cluster, s': Cluster, r: RunId, subject: Subject, at: int) {
    r !in s.tasks && s' == s.(tasks := s.tasks[r := Task(Received(subject, at), 0, [])])
  }

  /** The first commit; `id` is a fresh key. */
  ghost predicate Create(s: Cluster, s': Cluster, r: RunId, id: IncidentId) {
    && r in s.tasks && s.tasks[r].phase.Received? && id !in s.store.incidents
    && var Received(subject, at) := s.tasks[r].phase;
       s' == Cluster(ApplyAll(s.store, [InsertIncident(id, subject.tableFqn, at)]),
                    s.tasks[r := Task(Investigating(subject, Initial()), id, [])])
  }

  /** One turn of the agent loop; its log rows are flushed to the session. */
  ghost predicate Investigate(s: Cluster, s': Cluster, r: RunId, w: World, cfg: Settings) {
    && r in s.tasks && s.tasks[r].phase.Investigating? && s.tasks[r].phase.agent.iteration < cfg.maxIterations
    && var t := s.tasks[r];
       var p := Turn(w, cfg, true, t.phase.subject, t.phase.agent);
       var phase := if p.ended.None? then Investigating(t.phase.subject, p.st) else Reporting(p.st, p.ended.value);
       s' == s.(tasks := s.tasks[r := Task(phase, t.incident, LogWrites(t.incident, p.st.log))])
  }

  ghost predicate ReachLimit(s: Cluster, s': Cluster, r: RunId, cfg: Settings) {
    && r in s.tasks && s.tasks[r].phase.Investigating? && s.tasks[r].phase.agent.iteration >= cfg.maxIterations
    && var t := s.tasks[r];
       var agent := t.phase.agent;
       var report := FallbackReport(t.phase.subject, IterationLimit, agent.toolCallsMade, agent.iteration);
       s' == s.(tasks := s.tasks[r := t.(phase := Reporting(agent, report))])
  }

  /** The second commit. */
  ghost predicate Save(s: Cluster, s': Cluster, r: RunId) {
    && r in s.tasks && s.tasks[r].phase.Reporting?
    && var t := s.tasks[r];
       s' == Cluster(ApplyAll(s.store, t.pending + CompletionWrites(t.incident, t.phase.report)),
                    s.tasks[r := Task(Notifying, t.incident, [])])
  }

  ghost predicate Notify(s: Cluster, s': Cluster, r: RunId, delivered: bool) {
    && r in s.tasks && s.tasks[r].phase.Notifying?
    && var t := s.tasks[r];
       s' == Cluster(if delivered then ApplyAll(s.store, [SetNotified(t.incident, true)]) else s.store,
                    s.tasks[r := t.(phase := Linking)])
  }

  ghost predicate Link(s: Cluster, s': Cluster, r: RunId, om: Option<Str>) {
    && r in s.tasks && s.tasks[r].phase.Linking?
    && var t := s.tasks[r];
       s' == Cluster(if om.Some? then ApplyAll(s.store, [SetOmIncident(t.incident, om.value)]) else s.store,
                    s.tasks[r := t.(phase := Stopped)])
  }

  /** A crash or an exception: the session's pending writes are lost. */
  ghost predicate Crash(s: Cluster, s': Cluster, r: RunId) {
    r in s.tasks && s' == s.(tasks := s.tasks[r := s.tasks[r].(phase := Stopped, pending := [])])
  }

  /** Steps that leave the store alone. */
  ghost predicate QuietStep(cfg: Settings, s: Cluster, s': Cluster, r: RunId) {
    || (exists subject, at :: Receive(s, s', r, subject, at))
    || (exists w :: Investigate(s, s', r, w, cfg))
    || ReachLimit(s, s', r, cfg)
    || Crash(s, s', r)
  }

  /** Steps that commit. */
  ghost predicate CommitStep(s: Cluster, s': Cluster, r: RunId) {
    || (exists id :: Create(s, s', r, id))
    || Save(s, s', r)
    || (exists b :: Notify(s, s', r, b))
    || (exists om :: Link(s, s', r, om))
  }

  ghost predicate Next(cfg: Settings, s: Cluster, s': Cluster) {
    exists r :: QuietStep(cfg, s, s', r) || CommitStep(s, s', r)
  }

  function Empty(): Cluster {
    Cluster(Store(map[], [], [], []), map[])
  }

  ghost predicate IsPath(cfg: Settings, path: seq<Cluster>) {
    |path| > 0 && forall i :: 0 <= i < |path| - 1 ==> Next(cfg, path[i], path[i + 1])
  }

  ghost predicate IsRun(cfg: Settings, run: seq<Cluster>) {
    IsPath(cfg, run) && run[0] == Empty()
  }

  // ---------- Invariants ----------

  ghost predicate NoRows(store: Store, id: IncidentId) {
    RowsOf(store.timeline, id) == [] && RowsOf(store.consumers, id) == [] && RowsOf(store.toolLogs, id) == []
  }

  /** An incident that was committed once has nothing but its own columns. */
  ghost predicate Unfinished(store: Store, id: IncidentId) {
    && id in store.incidents && store.incidents[id].status == PROCESSING
    && NoRows(store, id)
    && store.incidents[id].report == None && store.incidents[id].blastRadiusCount == 0
    && !store.incidents[id].slackNotified && store.incidents[id].omIncidentId == None
    && store.incidents[id].score == 0.0 && store.incidents[id].confidence == LOW
  }

  /** A finished incident has exactly its report's rows, the label derived from its score, and at
      most as many tool-log rows as the report states calls; a fallback report states them exactly. The
      rows tell iterations below the limit that never decrease and one outcome per cache key. */
  ghost predicate Finished(cfg: Settings, store: Store, id: IncidentId, report: Report) {
    && id in store.incidents && store.incidents[id].status == COMPLETE && store.incidents[id].report == Some(report)
    && RowsOf(store.timeline, id) == report.timeline
    && RowsOf(store.consumers, id) == report.consumers
    && store.incidents[id].blastRadiusCount == |RowsOf(store.consumers, id)|
    && store.incidents[id].score == report.score
    && store.incidents[id].confidence == report.confidence == DeriveLabel(report.score)
    && |RowsOf(store.toolLogs, id)| <= report.toolCallsMade
    && (report.summary.Unable? ==> |RowsOf(store.toolLogs, id)| == report.toolCallsMade)
    && LogTells(cfg, RowsOf(store.toolLogs, id))
  }

  ghost predicate StoreInv(cfg: Settings, store: Store) {
    && (forall id :: id in store.incidents ==>
          Unfinished(store, id)
          || (store.incidents[id].report.Some? && Finished(cfg, store, id, store.incidents[id].report.value)))
    && (forall id :: id !in store.incidents ==> NoRows(store, id))
  }

  /** A live run works on an incident in the status its phase says, with only its log rows pending. */
  ghost predicate TaskInv(cfg: Settings, store: Store, t: Task) {
    match t.phase
    case Received(_, _) => t.pending == []
    case Investigating(_, agent) =>
      Unfinished(store, t.incident) && LoopInv(cfg, true, agent) && t.pending == LogWrites(t.incident, agent.log)
    case Reporting(agent, report) =>
      Unfinished(store, t.incident) && ReportInv(cfg, true, agent, report) && LogTells(cfg, agent.log)
      && t.pending == LogWrites(t.incident, agent.log)
    case Notifying => t.incident in store.incidents && store.incidents[t.incident].status == COMPLETE && t.pending == []
    case Linking => t.incident in store.incidents && store.incidents[t.incident].status == COMPLETE && t.pending == []
    case Stopped => t.pending == []
  }

  predicate Live(t: Task) {
    t.phase.Investigating? || t.phase.Reporting?
  }

  ghost predicate Inv(cfg: Settings, s: Cluster) {
    && StoreInv(cfg, s.store)
    && (forall r :: r in s.tasks ==> TaskInv(cfg, s.store, s.tasks[r]))
    && (forall q, r :: q in s.tasks && r in s.tasks && q != r && Live(s.tasks[q]) && Live(s.tasks[r]) ==>
          s.tasks[q].incident != s.tasks[r].incident)
  }

  /** Nothing about an incident other than `id` differs between the stores. */
  ghost predicate OthersSame(a: Store, b: Store, id: IncidentId) {
    forall k :: k != id ==> SameIncident(a, b, k)
  }

  ghost predicate SameIncident(a: Store, b: Store, k: IncidentId) {
    && (k in a.incidents <==> k in b.incidents)
    && (k in a.incidents && k in b.incidents ==> a.incidents[k] == b.incidents[k])
    && RowsOf(a.timeline, k) == RowsOf(b.timeline, k)
    && RowsOf(a.consumers, k) == RowsOf(b.consumers, k)
    && RowsOf(a.toolLogs, k) == RowsOf(b.toolLogs, k)
  }

  // ---------- What each commit does to the store ----------

  lemma CreateEffect(store: Store, id: IncidentId, fqn: Str, at: int, after: Store)
    requires id !in store.incidents && NoRows(store, id)
    requires after == ApplyAll(store, [InsertIncident(id, fqn, at)])
    ensures Unfinished(after, id) && OthersSame(store, after, id)
  {
    ApplyOne(store, InsertIncident(id, fqn, at));
  }

  lemma SaveRows(store: Store, id: IncidentId, log: seq<LogRow>, report: Report, after: Store, k: IncidentId)
    requires id in store.incidents
    requires after == ApplyAll(store, LogWrites(id, log) + CompletionWrites(id, report))
    ensures RowsOf(after.timeline, k) == RowsOf(store.timeline, k) + (if k == id then report.timeline else [])
    ensures RowsOf(after.consumers, k) == RowsOf(store.consumers, k) + (if k == id then report.consumers else [])
    ensures RowsOf(after.toolLogs, k) == RowsOf(store.toolLogs, k) + (if k == id then log else [])
    ensures after.incidents == store.incidents[id := Completed(store.incidents[id], report)]
  {
    ApplyCompletion(store, id, log, report);
    RowsOfAppended(store.timeline, id, report.timeline, k);
    RowsOfAppended(store.consumers, id, report.consumers, k);
    RowsOfAppended(store.toolLogs, id, log, k);
  }

  lemma SaveEffect(cfg: Settings, store: Store, id: IncidentId, agent: State, report: Report, after: Store)
    requires Unfinished(store, id) && ReportInv(cfg, true, agent, report) && LogTells(cfg, agent.log)
    requires after == ApplyAll(store, LogWrites(id, agent.log) + CompletionWrites(id, report))
    ensures Finished(cfg, after, id, report) && OthersSame(store, after, id)
  {
    hide RowsOf, ApplyAll, LogTells;
    forall k | k != id ensures SameIncident(store, after, k) {
      SaveRows(store, id, agent.log, report, after, k);
    }
    SaveRows(store, id, agent.log, report, after, id);
    assert RowsOf(after.toolLogs, id) == agent.log;
  }

  lemma FlagEffect(cfg: Settings, store: Store, id: IncidentId, write: Write, after: Store, report: Report)
    requires Finished(cfg, store, id, report)
    requires write.SetNotified? || write.SetOmIncident?
    requires write.id == id && after == ApplyAll(store, [write])
    ensures Finished(cfg, after, id, report) && OthersSame(store, after, id)
  {
    ApplyOne(store, write);
  }

  lemma SameStays(cfg: Settings, a: Store, b: Store, k: IncidentId)
    requires SameIncident(a, b, k)
    ensures NoRows(a, k) ==> NoRows(b, k)
    ensures Unfinished(a, k) ==> Unfinished(b, k)
    ensures forall report :: Finished(cfg, a, k, report) ==> Finished(cfg, b, k, report)
  {
    hide RowsOf;
  }

  /** After a commit for `id`, the store is as good as before and other runs are not disturbed. */
  lemma StoreStays(cfg: Settings, a: Store, b: Store, id: IncidentId)
    requires StoreInv(cfg, a) && OthersSame(a, b, id) && id in b.incidents
    requires Unfinished(b, id) || exists report :: Finished(cfg, b, id, report)
    ensures StoreInv(cfg, b)
  {
    hide Unfinished, Finished, NoRows, SameIncident;
    IncidentKnown(cfg, b, id);
    forall k | k in b.incidents
      ensures Unfinished(b, k) || (b.incidents[k].report.Some? && Finished(cfg, b, k, b.incidents[k].report.value))
    {
      if k != id {
        OthersKnown(a, b, id, k);
        SameStays(cfg, a, b, k);
      }
    }
    forall k | k !in b.incidents ensures NoRows(b, k) {
      OthersKnown(a, b, id, k);
      SameStays(cfg, a, b, k);
    }
  }

  lemma IncidentKnown(cfg: Settings, b: Store, id: IncidentId)
    requires id in b.incidents && (Unfinished(b, id) || exists report :: Finished(cfg, b, id, report))
    ensures Unfinished(b, id) || (b.incidents[id].report.Some? && Finished(cfg, b, id, b.incidents[id].report.value))
  {
    hide RowsOf;
  }

  lemma OthersKnown(a: Store, b: Store, id: IncidentId, k: IncidentId)
    requires OthersSame(a, b, id) && k != id
    ensures SameIncident(a, b, k) && (k in a.incidents <==> k in b.incidents)
    ensures k in a.incidents && k in b.incidents ==> a.incidents[k] == b.incidents[k]
  {
    assert SameIncident(a, b, k);
  }

  lemma OtherTaskStays(cfg: Settings, a: Store, b: Store, id: IncidentId, t: Task)
    requires TaskInv(cfg, a, t) && OthersSame(a, b, id)
    requires Live(t) ==> t.incident != id
    requires id in a.incidents && a.incidents[id].status == COMPLETE ==>
      id in b.incidents && b.incidents[id].status == COMPLETE
    ensures TaskInv(cfg, b, t)
  {
    hide Unfinished, LoopInv, ReportInv, LogWrites, SameIncident;
    if t.phase.Stopped? || t.phase.Received? {
    } else if t.incident != id {
      OthersKnown(a, b, id, t.incident);
      SameStays(cfg, a, b, t.incident);
    }
  }

  // ---------- Each step keeps the invariant ----------

  /** A commit by run `r` on its incident, leading to task `t`. */
  lemma CommitKeepsInv(cfg: Settings, s: Cluster, r: RunId, id: IncidentId, after: Store, t: Task, s': Cluster)
    requires Inv(cfg, s) && s' == Cluster(after, s.tasks[r := t])
    requires OthersSame(s.store, after, id) && id in after.incidents
    requires Unfinished(after, id) || exists report :: Finished(cfg, after, id, report)
    requires TaskInv(cfg, after, t) && (Live(t) ==> t.incident == id)
    requires forall q :: q in s.tasks && q != r && Live(s.tasks[q]) ==> s.tasks[q].incident != id
    requires id in s.store.incidents && s.store.incidents[id].status == COMPLETE ==>
      after.incidents[id].status == COMPLETE
    ensures Inv(cfg, s')
  {
    hide StoreInv, TaskInv, Unfinished, Finished, OthersSame;
    StoreStays(cfg, s.store, after, id);
    forall q | q in s'.tasks ensures TaskInv(cfg, s'.store, s'.tasks[q]) {
      if q != r {
        OtherTaskStays(cfg, s.store, after, id, s.tasks[q]);
      }
    }
  }

  lemma CreatedTask(cfg: Settings, store: Store, id: IncidentId, subject: Subject, agent: State)
    requires Unfinished(store, id) && agent == Initial()
    ensures TaskInv(cfg, store, Task(Investigating(subject, agent), id, []))
  {
    hide LoopInv, Unfinished;
    InitialInvariant(cfg, true, agent);
    assert LogWrites(id, agent.log) == [];
  }

  lemma CreateKeepsInv(cfg: Settings, s: Cluster, s': Cluster, r: RunId, id: IncidentId)
    requires Inv(cfg, s) && Create(s, s', r, id)
    ensures Inv(cfg, s')
  {
    hide StoreInv, LoopInv, ReportInv, OthersSame, RowsOf, NoRows, Initial;
    var Received(subject, at) := s.tasks[r].phase;
    assert NoRows(s.store, id) by {
      UnknownHasNoRows(cfg, s.store, id);
    }
    CreateEffect(s.store, id, subject.tableFqn, at, s'.store);
    CreatedTask(cfg, s'.store, id, subject, Initial());
    forall q | q in s.tasks && Live(s.tasks[q]) ensures s.tasks[q].incident != id {
      assert TaskInv(cfg, s.store, s.tasks[q]);
    }
    CommitKeepsInv(cfg, s, r, id, s'.store, s'.tasks[r], s');
  }

  lemma UnknownHasNoRows(cfg: Settings, store: Store, id: IncidentId)
    requires StoreInv(cfg, store) && id !in store.incidents
    ensures NoRows(store, id)
  {
  }

  lemma SaveKeepsInv(cfg: Settings, s: Cluster, s': Cluster, r: RunId)
    requires Inv(cfg, s) && Save(s, s', r)
    ensures Inv(cfg, s')
  {
    hide LoopInv, ReportInv, StoreInv, OthersSame;
    var t := s.tasks[r];
    assert TaskInv(cfg, s.store, t) && Live(t);
    SaveEffect(cfg, s.store, t.incident, t.phase.agent, t.phase.report, s'.store);
    CommitKeepsInv(cfg, s, r, t.incident, s'.store, s'.tasks[r], s');
  }

  /** The two notification writes come after the report is durable. */
  lemma FlagKeepsInv(cfg: Settings, s: Cluster, r: RunId, write: Write, next: Phase, s': Cluster)
    requires Inv(cfg, s) && r in s.tasks && (s.tasks[r].phase.Notifying? || s.tasks[r].phase.Linking?)
    requires (write.SetNotified? || write.SetOmIncident?) && write.id == s.tasks[r].incident
    requires next.Linking? || next.Stopped?
    requires s' == Cluster(ApplyAll(s.store, [write]), s.tasks[r := s.tasks[r].(phase := next)])
    ensures Inv(cfg, s')
  {
    hide LoopInv, ReportInv, OthersSame, RowsOf, ApplyAll;
    var t := s.tasks[r];
    assert TaskInv(cfg, s.store, t);
    var report := s.store.incidents[t.incident].report.value;
    assert Finished(cfg, s.store, t.incident, report);
    FlagEffect(cfg, s.store, t.incident, write, s'.store, report);
    forall q | q in s.tasks && Live(s.tasks[q]) ensures s.tasks[q].incident != t.incident {
      assert TaskInv(cfg, s.store, s.tasks[q]);
    }
    CommitKeepsInv(cfg, s, r, t.incident, s'.store, s'.tasks[r], s');
  }

  /** A run that moves on without a commit. */
  lemma QuietKeepsInv(cfg: Settings, s: Cluster, r: RunId, t: Task, s': Cluster)
    requires Inv(cfg, s) && s' == s.(tasks := s.tasks[r := t]) && TaskInv(cfg, s.store, t)
    requires Live(t) ==> r in s.tasks && Live(s.tasks[r]) && t.incident == s.tasks[r].incident
    ensures Inv(cfg, s')
  {
    hide StoreInv, TaskInv;
  }

  lemma InvestigateKeepsInv(cfg: Settings, s: Cluster, s': Cluster, r: RunId, w: World)
    requires Inv(cfg, s) && Investigate(s, s', r, w, cfg)
    ensures Inv(cfg, s')
  {
    hide LoopInv, FinalInv, ReportInv, TurnInv, StoreInv, Unfinished, Turn, LogTells;
    var t := s.tasks[r];
    assert TaskInv(cfg, s.store, t);
    var p := Turn(w, cfg, true, t.phase.subject, t.phase.agent);
    TurnKeepsInvariant(w, cfg, true, t.phase.subject, t.phase.agent, p);
    TurnParts(cfg, true, p);
    if p.ended.Some? {
      EndTells(cfg, true, p.st);
    }
    QuietKeepsInv(cfg, s, r, s'.tasks[r], s');
  }

  lemma LimitKeepsInv(cfg: Settings, s: Cluster, s': Cluster, r: RunId)
    requires Inv(cfg, s) && ReachLimit(s, s', r, cfg)
    ensures Inv(cfg, s')
  {
    hide LoopInv, FinalInv, ReportInv, StoreInv, Unfinished, LogTells;
    var t := s.tasks[r];
    assert TaskInv(cfg, s.store, t);
    LimitReached(cfg, true, t.phase.subject, t.phase.agent);
    EndTells(cfg, true, t.phase.agent);
    QuietKeepsInv(cfg, s, r, s'.tasks[r], s');
  }

  lemma CommitStepKeepsInv(cfg: Settings, s: Cluster, s': Cluster, r: RunId)
    requires Inv(cfg, s) && CommitStep(s, s', r)
    ensures Inv(cfg, s')
  {
    hide Inv, Create, Save;
    if id :| Create(s, s', r, id) {
      CreateKeepsInv(cfg, s, s', r, id);
    } else if Save(s, s', r) {
      SaveKeepsInv(cfg, s, s', r);
    } else if b :| Notify(s, s', r, b) {
      if b {
        FlagKeepsInv(cfg, s, r, SetNotified(s.tasks[r].incident, true), Linking, s');
      } else {
        AdvanceKeepsInv(cfg, s, r, Linking, s');
      }
    } else {
      var om :| Link(s, s', r, om);
      if om.Some? {
        FlagKeepsInv(cfg, s, r, SetOmIncident(s.tasks[r].incident, om.value), Stopped, s');
      } else {
        AdvanceKeepsInv(cfg, s, r, Stopped, s');
      }
    }
  }

  lemma AdvanceKeepsInv(cfg: Settings, s: Cluster, r: RunId, next: Phase, s': Cluster)
    requires Inv(cfg, s) && r in s.tasks && (s.tasks[r].phase.Notifying? || s.tasks[r].phase.Linking?)
    requires (next.Linking? || next.Stopped?) && s' == Cluster(s.store, s.tasks[r := s.tasks[r].(phase := next)])
    ensures Inv(cfg, s')
  {
    hide StoreInv;
    assert TaskInv(cfg, s.store, s.tasks[r]);
    QuietKeepsInv(cfg, s, r, s'.tasks[r], s');
  }

  lemma QuietStepKeepsInv(cfg: Settings, s: Cluster, s': Cluster, r: RunId)
    requires Inv(cfg, s) && QuietStep(cfg, s, s', r)
    ensures Inv(cfg, s')
  {
    hide Inv, Investigate, ReachLimit;
    if w :| Investigate(s, s', r, w, cfg) {
      InvestigateKeepsInv(cfg, s, s', r, w);
    } else if ReachLimit(s, s', r, cfg) {
      LimitKeepsInv(cfg, s, s', r);
    } else if Crash(s, s', r) {
      QuietKeepsInv(cfg, s, r, s.tasks[r].(phase := Stopped, pending := []), s');
    } else {
      var subject, at :| Receive(s, s', r, subject, at);
      QuietKeepsInv(cfg, s, r, Task(Received(subject, at), 0, []), s');
    }
  }

  lemma {:induction false} RunKeepsInv(cfg: Settings, run: seq<Cluster>, i: nat)
    requires IsRun(cfg, run) && i < |run|
    ensures Inv(cfg, run[i])
  {
    if i > 0 {
      hide Inv, QuietStep, CommitStep;
      RunKeepsInv(cfg, run, i - 1);
      assert Next(cfg, run[i - 1], run[i - 1 + 1]);
      var r :| QuietStep(cfg, run[i - 1], run[i], r) || CommitStep(run[i - 1], run[i], r);
      if QuietStep(cfg, run[i - 1], run[i], r) {
        QuietStepKeepsInv(cfg, run[i - 1], run[i], r);
      } else {
        CommitStepKeepsInv(cfg, run[i - 1], run[i], r);
      }
    }
  }

  // ---------- What holds in every interleaving ----------

  /** Every durable incident is either PROCESSING with no rows and no notification fields, or
      COMPLETE with exactly its report's rows. */
  lemma DurableIncidentsConsistent(cfg: Settings, run: seq<Cluster>, i: nat, id: IncidentId)
    requires IsRun(cfg, run) && i < |run| && id in run[i].store.incidents
    ensures run[i].store.incidents[id].status == PROCESSING ==> Unfinished(run[i].store, id)
    ensures run[i].store.incidents[id].status != PROCESSING ==>
      && run[i].store.incidents[id].report.Some?
      && Finished(cfg, run[i].store, id, run[i].store.incidents[id].report.value)
    ensures var incident := run[i].store.incidents[id];
      incident.status != PROCESSING ==>
        && (incident.confidence == HIGH <==> incident.score >= 0.85)
        && (incident.confidence == LOW <==> incident.score < 0.60)
  {
    hide RowsOf;
    RunKeepsInv(cfg, run, i);
  }

  /** What can become of a durable incident: it stays, and once COMPLETE it keeps status and report. */
  ghost predicate Progressed(a: Store, b: Store, id: IncidentId)
    requires id in a.incidents
  {
    && id in b.incidents
    && (a.incidents[id].status == COMPLETE ==>
          b.incidents[id].status == COMPLETE && b.incidents[id].report == a.incidents[id].report)
  }

  lemma CommitProgresses(cfg: Settings, s: Cluster, s': Cluster, r: RunId, id: IncidentId)
    requires Inv(cfg, s) && CommitStep(s, s', r) && id in s.store.incidents
    ensures Progressed(s.store, s'.store, id)
  {
    hide StoreInv, LoopInv, ReportInv, RowsOf;
    assert r in s.tasks;
    var t := s.tasks[r];
    assert TaskInv(cfg, s.store, t);
    if k :| Create(s, s', r, k) {
      ApplyOne(s.store, InsertIncident(k, t.phase.subject.tableFqn, t.phase.triggeredAt));
    } else if Save(s, s', r) {
      SaveRows(s.store, t.incident, t.phase.agent.log, t.phase.report, s'.store, id);
    } else if b :| Notify(s, s', r, b) {
      ApplyOne(s.store, SetNotified(t.incident, true));
    } else {
      var om :| Link(s, s', r, om);
      if om.Some? {
        ApplyOne(s.store, SetOmIncident(t.incident, om.value));
      }
    }
  }

  lemma StepProgresses(cfg: Settings, s: Cluster, s': Cluster, id: IncidentId)
    requires Inv(cfg, s) && Next(cfg, s, s') && id in s.store.incidents
    ensures Progressed(s.store, s'.store, id)
  {
    hide Inv, CommitStep, QuietStep;
    var r :| QuietStep(cfg, s, s', r) || CommitStep(s, s', r);
    if QuietStep(cfg, s, s', r) {
      QuietKeepsStore(cfg, s, s', r);
    } else {
      CommitProgresses(cfg, s, s', r, id);
    }
  }

  /** A durable incident never disappears, its status never moves back, and a finished one keeps its report. */
  lemma {:induction false} StatusNeverMovesBack(cfg: Settings, run: seq<Cluster>, i: nat, j: nat, id: IncidentId)
    requires IsRun(cfg, run) && i <= j < |run| && id in run[i].store.incidents
    ensures Progressed(run[i].store, run[j].store, id)
    decreases j
  {
    hide Inv, Next;
    if i < j {
      StatusNeverMovesBack(cfg, run, i, j - 1, id);
      RunKeepsInv(cfg, run, j - 1);
      assert Next(cfg, run[j - 1], run[j - 1 + 1]);
      StepProgresses(cfg, run[j - 1], run[j], id);
    }
  }

  lemma QuietKeepsStore(cfg: Settings, s: Cluster, s': Cluster, r: RunId)
    requires QuietStep(cfg, s, s', r)
    ensures s'.store == s.store
  {
  }

  /** While a run investigates, no query through its session returns its own incident. */
  lemma OwnIncidentNeverPast(cfg: Settings, run: seq<Cluster>, i: nat, r: RunId, listing: seq<IncidentId>, fqn: Str,
                             limit: int)
    requires IsRun(cfg, run) && i < |run| && r in run[i].tasks && run[i].tasks[r].phase.Investigating?
    ensures run[i].tasks[r].incident !in
      FindPastIncidents(ApplyAll(run[i].store, run[i].tasks[r].pending), listing, fqn, limit)
  {
    hide LoopInv, StoreInv, RowsOf, FindPastIncidents;
    RunKeepsInv(cfg, run, i);
    var t := run[i].tasks[r];
    assert TaskInv(cfg, run[i].store, t);
    var view := ApplyAll(run[i].store, t.pending);
    ApplyLogs(run[i].store, t.incident, t.phase.agent.log);
    assert !Matches(view, fqn, t.incident);
    PastIncidentsExact(view, listing, fqn, limit);
  }
}
