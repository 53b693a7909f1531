/** One incident run without an interruption, as the worker's code performs it, and as a path of the
    concurrent model. */
module IncidentRun {
  import opened PythonText
  import opened ReportParser
  import opened AgentLoop
  import opened AgentProofs
  import opened AgentRecords
  import opened AgentTheorems
  import opened IncidentStore
  import opened Worker
  import opened Wrappers

  // ---------- The run as a path of the concurrent model ----------

  /** A step of run `r`. */
  ghost predicate StepOf(cfg: Settings, r: RunId, s: Cluster, s': Cluster) {
    QuietStep(cfg, s, s', r) || CommitStep(s, s', r)
  }

  /** `path` leads from `a` to `b` by steps of run `r` alone. */
  ghost predicate Leads(cfg: Settings, r: RunId, path: seq<Cluster>, a: Cluster, b: Cluster) {
    && |path| > 0 && path[0] == a && path[|path| - 1] == b
    && forall i :: 0 <= i < |path| - 1 ==> StepOf(cfg, r, path[i], path[i + 1])
  }

  lemma OneStep(cfg: Settings, r: RunId, a: Cluster, b: Cluster) returns (path: seq<Cluster>)
    requires StepOf(cfg, r, a, b)
    ensures Leads(cfg, r, path, a, b)
  {
    path := [a, b];
  }

  lemma Joined(cfg: Settings, r: RunId, p: seq<Cluster>, q: seq<Cluster>, a: Cluster, b: Cluster, c: Cluster)
    returns (all: seq<Cluster>)
    requires Leads(cfg, r, p, a, b) && Leads(cfg, r, q, b, c)
    ensures Leads(cfg, r, all, a, c)
  {
    hide StepOf;
    all := p + q[1..];
    forall i | 0 <= i < |all| - 1 ensures StepOf(cfg, r, all[i], all[i + 1]) {
      if i + 1 < |p| {
        assert StepOf(cfg, r, p[i], p[i + 1]);
      } else {
        var k := i + 1 - |p|;
        assert all[i] == q[k] && all[i + 1] == q[k + 1];
        assert StepOf(cfg, r, q[k], q[k + 1]);
      }
    }
  }

  /** Such a path continues any run that ends where it starts, so what holds in every interleaving
      holds on it. */
  lemma PathContinuesRun(cfg: Settings, run: seq<Cluster>, r: RunId, path: seq<Cluster>, a: Cluster, b: Cluster)
    requires IsRun(cfg, run) && run[|run| - 1] == a && Leads(cfg, r, path, a, b)
    ensures IsRun(cfg, run + path[1..])
    ensures (run + path[1..])[|run + path[1..]| - 1] == b
  {
    hide QuietStep, CommitStep;
    var all := run + path[1..];
    forall i | 0 <= i < |all| - 1 ensures Next(cfg, all[i], all[i + 1]) {
      if i + 1 < |run| {
        assert Next(cfg, run[i], run[i + 1]);
      } else {
        var k := i + 1 - |run|;
        assert all[i] == path[k] && all[i + 1] == path[k + 1];
        assert StepOf(cfg, r, path[k], path[k + 1]);
      }
    }
  }

  function Agent(s: Cluster, r: RunId, t: Task): Cluster {
    s.(tasks := s.tasks[r := t])
  }

  /** The agent's turns from `st` on, as steps of run `r`. */
  lemma {:induction false} AgentPath(w: World, cfg: Settings, subject: Subject, st: State, s: Cluster, r: RunId,
                                     id: IncidentId, final: State, report: Report) returns (path: seq<Cluster>)
    requires r in s.tasks && s.tasks[r] == Task(Investigating(subject, st), id, LogWrites(id, st.log))
    requires (final, report) == Run(w, cfg, true, subject, st)
    ensures Leads(cfg, r, path, s, Agent(s, r, Task(Reporting(final, report), id, LogWrites(id, final.log))))
    decreases Budget(cfg, st)
  {
    hide Turn, FallbackReport, LogWrites, Leads;
    var end := Agent(s, r, Task(Reporting(final, report), id, LogWrites(id, final.log)));
    if st.iteration >= cfg.maxIterations {
      assert ReachLimit(s, end, r, cfg);
      path := OneStep(cfg, r, s, end);
    } else {
      var p := Turn(w, cfg, true, subject, st);
      var phase := if p.ended.None? then Investigating(subject, p.st) else Reporting(p.st, p.ended.value);
      var next := Agent(s, r, Task(phase, id, LogWrites(id, p.st.log)));
      assert Investigate(s, next, r, w, cfg);
      path := OneStep(cfg, r, s, next);
      TurnSpendsBudget(w, cfg, true, subject, st);
      if p.ended.None? {
        var rest := AgentPath(w, cfg, subject, p.st, next, r, id, final, report);
        assert Agent(next, r, end.tasks[r]) == end;
        path := Joined(cfg, r, path, rest, s, next, end);
      }
    }
  }

  /** From the trigger to the first commit. */
  lemma BeginPath(cfg: Settings, store: Store, others: map<RunId, Task>, r: RunId, subject: Subject, at: int,
                  id: IncidentId, after: Store) returns (path: seq<Cluster>)
    requires r !in others && id !in store.incidents
    requires after == ApplyAll(store, [InsertIncident(id, subject.tableFqn, at)])
    ensures Leads(cfg, r, path, Cluster(store, others),
                  Cluster(after, others[r := Task(Investigating(subject, Initial()), id, [])]))
  {
    hide ApplyAll, Initial, Leads;
    var a := Cluster(store, others);
    var b := Cluster(store, others[r := Task(Received(subject, at), 0, [])]);
    var c := Cluster(after, others[r := Task(Investigating(subject, Initial()), id, [])]);
    assert Receive(a, b, r, subject, at);
    assert b.tasks[r := c.tasks[r]] == c.tasks;
    assert Create(b, c, r, id);
    var first := OneStep(cfg, r, a, b);
    var second := OneStep(cfg, r, b, c);
    path := Joined(cfg, r, first, second, a, b, c);
  }

  /** The second commit and the two notifications. */
  lemma EndPath(cfg: Settings, store: Store, others: map<RunId, Task>, r: RunId, id: IncidentId, final: State,
                report: Report, delivered: bool, om: Option<Str>, s2: Store, s3: Store, s4: Store)
    returns (path: seq<Cluster>)
    requires s2 == ApplyAll(store, LogWrites(id, final.log) + CompletionWrites(id, report))
    requires s3 == if delivered then ApplyAll(s2, [SetNotified(id, true)]) else s2
    requires s4 == if om.Some? then ApplyAll(s3, [SetOmIncident(id, om.value)]) else s3
    ensures Leads(cfg, r, path,
                  Cluster(store, others[r := Task(Reporting(final, report), id, LogWrites(id, final.log))]),
                  Cluster(s4, others[r := Task(Stopped, id, [])]))
  {
    hide ApplyAll, LogWrites, CompletionWrites, Leads;
    var a := Cluster(store, others[r := Task(Reporting(final, report), id, LogWrites(id, final.log))]);
    var b := Cluster(s2, others[r := Task(Notifying, id, [])]);
    var c := Cluster(s3, others[r := Task(Linking, id, [])]);
    var d := Cluster(s4, others[r := Task(Stopped, id, [])]);
    assert a.tasks[r := b.tasks[r]] == b.tasks && b.tasks[r := c.tasks[r]] == c.tasks;
    assert c.tasks[r := d.tasks[r]] == d.tasks;
    assert Save(a, b, r);
    assert Notify(b, c, r, delivered);
    assert Link(c, d, r, om);
    var first := OneStep(cfg, r, a, b);
    var second := OneStep(cfg, r, b, c);
    var third := OneStep(cfg, r, c, d);
    path := Joined(cfg, r, first, second, a, b, c);
    path := Joined(cfg, r, path, third, a, c, d);
  }

  /** The whole run, from the trigger to its end. */
  lemma IncidentPath(w: World, cfg: Settings, subject: Subject, at: int, id: IncidentId, others: map<RunId, Task>,
                     r: RunId, final: State, report: Report, delivered: bool, om: Option<Str>,
                     s0: Store, s1: Store, s2: Store, s3: Store, s4: Store) returns (path: seq<Cluster>)
    requires r !in others && id !in s0.incidents && EndOfRun(w, cfg, true, subject, final, report)
    requires s1 == ApplyAll(s0, [InsertIncident(id, subject.tableFqn, at)])
    requires s2 == ApplyAll(s1, LogWrites(id, final.log) + CompletionWrites(id, report))
    requires s3 == if delivered then ApplyAll(s2, [SetNotified(id, true)]) else s2
    requires s4 == if om.Some? then ApplyAll(s3, [SetOmIncident(id, om.value)]) else s3
    ensures Leads(cfg, r, path, Cluster(s0, others), Cluster(s4, others[r := Task(Stopped, id, [])]))
  {
    hide ApplyAll, CompletionWrites, Leads, Run;
    var start := Cluster(s0, others);
    var begun := Cluster(s1, others[r := Task(Investigating(subject, Initial()), id, [])]);
    var reported := Cluster(s1, others[r := Task(Reporting(final, report), id, LogWrites(id, final.log))]);
    var stopped := Cluster(s4, others[r := Task(Stopped, id, [])]);
    var first := BeginPath(cfg, s0, others, r, subject, at, id, s1);
    assert LogWrites(id, Initial().log) == [];
    var middle := AgentPath(w, cfg, subject, Initial(), begun, r, id, final, report);
    assert Agent(begun, r, reported.tasks[r]) == reported;
    var last := EndPath(cfg, s1, others, r, id, final, report, delivered, om, s2, s3, s4);
    path := Joined(cfg, r, first, middle, start, begun, reported);
    path := Joined(cfg, r, path, last, start, reported, stopped);
  }

  // ---------- The run as the worker performs it ----------

  lemma OthersSameTrans(a: Store, b: Store, c: Store, id: IncidentId)
    requires OthersSame(a, b, id) && OthersSame(b, c, id)
    ensures OthersSame(a, c, id)
  {
    forall k | k != id ensures SameIncident(a, c, k) {
      assert SameIncident(a, b, k) && SameIncident(b, c, k);
    }
  }

  /** The worker's task without an interruption. An unparsable trigger time raises before anything is
      stored; otherwise the run ends with a finished incident and the flags its notifications earned. */
  method RunIncident(db: Database, subject: Subject, triggeredAt: Option<int>, id: IncidentId, w: World, cfg: Settings,
                     registry: ToolRegistry, delivered: bool, om: Option<Str>,
                     ghost others: map<RunId, Task>, ghost r: RunId)
    returns (done: bool, report: Report, final: State, ghost path: seq<Cluster>)
    requires StoreInv(cfg, db.durable) && id !in db.durable.incidents && r !in others
    modifies db, registry
    ensures StoreInv(cfg, db.durable)
    ensures done == triggeredAt.Some?
    ensures done ==> id in db.durable.incidents
    ensures !done ==> db.durable == old(db.durable)
    ensures done ==> EndOfRun(w, cfg, true, subject, final, report)
    ensures done ==> Finished(cfg, db.durable, id, report) && RowsOf(db.durable.toolLogs, id) == final.log
    ensures done ==> db.durable.incidents[id].tableFqn == subject.tableFqn
                     && db.durable.incidents[id].triggeredAt == triggeredAt.value
                     && db.durable.incidents[id].slackNotified == delivered
                     && db.durable.incidents[id].omIncidentId == om
    ensures OthersSame(old(db.durable), db.durable, id)
    ensures done ==> Leads(cfg, r, path, Cluster(old(db.durable), others),
                           Cluster(db.durable, others[r := Task(Stopped, id, [])]))
  {
    hide Leads, Run, EndOfRun, StoreInv, Finished, Unfinished, NoRows, OthersSame, RowsOf, FallbackReport, Initial;
    if triggeredAt.None? {
      NothingChanged(db.durable, id);
      done, report, final, path := false, FallbackReport(subject, IterationLimit, 0, 0), Initial(), [];
      return;
    }
    done := true;
    ghost var s0 := db.durable;
    var session := new Session(db);
    session.CreateIncident(subject.tableFqn, triggeredAt.value, id);
    ghost var s1 := db.durable;
    UnknownHasNoRows(cfg, s0, id);
    Created(s0, id, subject.tableFqn, triggeredAt.value, s1);
    report, final := RunRcaAgent(w, cfg, true, subject, registry);
    for i := 0 to |final.log|
      invariant session.pending == LogWrites(id, final.log[..i]) && db.durable == s1
    {
      session.Add(InsertLog(id, final.log[i]));
      assert LogWrites(id, final.log[..i + 1]) == LogWrites(id, final.log[..i]) + [InsertLog(id, final.log[i])];
    }
    assert final.log[..|final.log|] == final.log;
    ApplyLogs(s1, id, final.log);
    var found := session.SaveReport(id, report);
    ghost var s2 := db.durable;
    Saved(w, cfg, subject, final, report, s1, id, s2);
    OthersSameTrans(s0, s1, s2, id);
    if delivered {
      session.SetSlackNotified(id, true);
      Flagged(cfg, s2, id, SetNotified(id, true), db.durable, report);
      OthersSameTrans(s0, s2, db.durable, id);
    }
    ghost var s3 := db.durable;
    if om.Some? {
      session.SetOmIncidentId(id, om.value);
      Flagged(cfg, s3, id, SetOmIncident(id, om.value), db.durable, report);
      OthersSameTrans(s0, s3, db.durable, id);
    }
    StoreStays(cfg, s0, db.durable, id);
    path := IncidentPath(w, cfg, subject, triggeredAt.value, id, others, r, final, report, delivered, om,
                         s0, s1, s2, s3, db.durable);
  }

  lemma NothingChanged(store: Store, id: IncidentId)
    ensures OthersSame(store, store, id)
  {
  }

  lemma Created(store: Store, id: IncidentId, fqn: Str, at: int, after: Store)
    requires id !in store.incidents && NoRows(store, id)
    requires after == ApplyAll(store, [] + [InsertIncident(id, fqn, at)])
    ensures Unfinished(after, id) && OthersSame(store, after, id)
    ensures id in after.incidents && after.incidents[id] == NewIncident(fqn, at)
  {
    assert [] + [InsertIncident(id, fqn, at)] == [InsertIncident(id, fqn, at)];
    ApplyOne(store, InsertIncident(id, fqn, at));
    CreateEffect(store, id, fqn, at, after);
  }

  lemma Saved(w: World, cfg: Settings, subject: Subject, final: State, report: Report,
              store: Store, id: IncidentId, after: Store)
    requires EndOfRun(w, cfg, true, subject, final, report) && Unfinished(store, id)
    requires after == ApplyAll(store, LogWrites(id, final.log) + CompletionWrites(id, report))
    ensures Finished(cfg, after, id, report) && OthersSame(store, after, id)
    ensures RowsOf(after.toolLogs, id) == final.log
    ensures id in store.incidents && id in after.incidents
    ensures after.incidents[id] == Completed(store.incidents[id], report)
  {
    hide Run, ReportInv, FinalInv, RowsOf, ApplyAll, LogTells;
    RunEnds(w, cfg, true, subject, final, report);
    EndTells(cfg, true, final);
    SaveEffect(cfg, store, id, final, report, after);
    SaveRows(store, id, final.log, report, after, id);
  }

  lemma Flagged(cfg: Settings, store: Store, id: IncidentId, write: Write, after: Store, report: Report)
    requires Finished(cfg, store, id, report) && (write.SetNotified? || write.SetOmIncident?) && write.id == id
    requires after == ApplyAll(store, [] + [write])
    ensures Finished(cfg, after, id, report) && OthersSame(store, after, id) && after.toolLogs == store.toolLogs
    ensures id in store.incidents && id in after.incidents
    ensures after.incidents[id] == if write.SetNotified? then store.incidents[id].(slackNotified := write.value)
                                   else store.incidents[id].(omIncidentId := Some(write.omIncidentId))
  {
    assert [] + [write] == [write];
    ApplyOne(store, write);
    FlagEffect(cfg, store, id, write, after, report);
  }
}
