/** What becomes of an incident whose run stops before its second commit. */
module Abandonment {
  import opened PythonText
  import opened ReportParser
  import opened AgentLoop
  import opened AgentProofs
  import opened AgentRecords
  import opened IncidentStore
  import opened Worker
  import opened Wrappers

  /** Run `r` is between the two commits of incident `id`. */
  predicate Works(s: Cluster, r: RunId, id: IncidentId) {
    r in s.tasks && Live(s.tasks[r]) && s.tasks[r].incident == id
  }

  ghost predicate WorkedOn(s: Cluster, id: IncidentId) {
    exists r :: Works(s, r, id)
  }

  predicate HasStatus(s: Cluster, id: IncidentId, status: Status) {
    id in s.store.incidents && s.store.incidents[id].status == status
  }

  /** A PROCESSING incident that no run works on. */
  ghost predicate Abandoned(s: Cluster, id: IncidentId) {
    HasStatus(s, id, PROCESSING) && !WorkedOn(s, id)
  }

  // ---------- An abandoned incident stays abandoned ----------

  lemma QuietKeepsAbandoned(cfg: Settings, s: Cluster, s': Cluster, q: RunId, id: IncidentId)
    requires QuietStep(cfg, s, s', q) && Abandoned(s, id)
    ensures Abandoned(s', id)
  {
    hide Turn, FallbackReport, LogWrites;
    QuietKeepsStore(cfg, s, s', q);
    forall r ensures !Works(s', r, id) {
      assert !Works(s, r, id) && !Works(s, q, id);
    }
  }

  lemma CommitKeepsAbandoned(cfg: Settings, s: Cluster, s': Cluster, q: RunId, id: IncidentId)
    requires Inv(cfg, s) && CommitStep(s, s', q) && Abandoned(s, id)
    ensures Abandoned(s', id)
  {
    hide StoreInv, LoopInv, ReportInv, RowsOf, Initial, LogTells;
    assert q in s.tasks && !Works(s, q, id);
    var t := s.tasks[q];
    assert TaskInv(cfg, s.store, t);
    if k :| Create(s, s', q, k) {
      ApplyOne(s.store, InsertIncident(k, t.phase.subject.tableFqn, t.phase.triggeredAt));
    } else if Save(s, s', q) {
      SaveRows(s.store, t.incident, t.phase.agent.log, t.phase.report, s'.store, id);
    } else if b :| Notify(s, s', q, b) {
      ApplyOne(s.store, SetNotified(t.incident, true));
    } else {
      var om :| Link(s, s', q, om);
      if om.Some? {
        ApplyOne(s.store, SetOmIncident(t.incident, om.value));
      }
    }
    forall r ensures !Works(s', r, id) {
      assert !Works(s, r, id);
    }
  }

  lemma StepKeepsAbandoned(cfg: Settings, s: Cluster, s': Cluster, id: IncidentId)
    requires Inv(cfg, s) && Next(cfg, s, s') && Abandoned(s, id)
    ensures Abandoned(s', id)
  {
    hide Inv, QuietStep, CommitStep, Abandoned;
    var r :| QuietStep(cfg, s, s', r) || CommitStep(s, s', r);
    if QuietStep(cfg, s, s', r) {
      QuietKeepsAbandoned(cfg, s, s', r, id);
    } else {
      CommitKeepsAbandoned(cfg, s, s', r, id);
    }
  }

  /** In every run: once no run works on a PROCESSING incident, none ever does again, and it stays PROCESSING. */
  lemma {:induction false} AbandonedStays(cfg: Settings, run: seq<Cluster>, i: nat, j: nat, id: IncidentId)
    requires IsRun(cfg, run) && i <= j < |run| && Abandoned(run[i], id)
    ensures Abandoned(run[j], id)
    decreases j
  {
    hide Inv, Next, Abandoned;
    if i < j {
      AbandonedStays(cfg, run, i, j - 1, id);
      RunKeepsInv(cfg, run, j - 1);
      assert Next(cfg, run[j - 1], run[j - 1 + 1]);
      StepKeepsAbandoned(cfg, run[j - 1], run[j], id);
    }
  }

  /** A crash between the two commits abandons the run's incident. */
  lemma CrashAbandons(cfg: Settings, run: seq<Cluster>, i: nat, r: RunId, id: IncidentId)
    requires IsRun(cfg, run) && i + 1 < |run| && Works(run[i], r, id) && Crash(run[i], run[i + 1], r)
    ensures Abandoned(run[i + 1], id)
  {
    hide LoopInv, ReportInv, StoreInv, RowsOf, LogTells;
    RunKeepsInv(cfg, run, i);
    assert TaskInv(cfg, run[i].store, run[i].tasks[r]);
  }

  // ---------- While a run works on it, an incident can finish ----------

  /** A continuation of the run. */
  ghost predicate Continues(cfg: Settings, run: seq<Cluster>, longer: seq<Cluster>) {
    IsRun(cfg, longer) && run <= longer
  }

  ghost predicate CanFinish(cfg: Settings, run: seq<Cluster>, id: IncidentId) {
    exists longer :: Continues(cfg, run, longer) && HasStatus(longer[|longer| - 1], id, COMPLETE)
  }

  lemma Extend(cfg: Settings, run: seq<Cluster>, s': Cluster)
    requires IsRun(cfg, run) && Next(cfg, run[|run| - 1], s')
    ensures Continues(cfg, run, run + [s'])
  {
    hide Next;
    var longer := run + [s'];
    forall i | 0 <= i < |longer| - 1 ensures Next(cfg, longer[i], longer[i + 1]) {
      if i + 1 < |run| {
        assert Next(cfg, run[i], run[i + 1]);
      }
    }
  }

  /** The second commit completes the incident. */
  lemma SaveCompletes(cfg: Settings, s: Cluster, r: RunId, id: IncidentId) returns (s': Cluster)
    requires Inv(cfg, s) && Works(s, r, id) && s.tasks[r].phase.Reporting?
    ensures Next(cfg, s, s') && HasStatus(s', id, COMPLETE)
  {
    hide StoreInv, ReportInv, RowsOf, LogTells;
    var t := s.tasks[r];
    assert TaskInv(cfg, s.store, t);
    s' := Cluster(ApplyAll(s.store, t.pending + CompletionWrites(id, t.phase.report)),
                  s.tasks[r := Task(Notifying, id, [])]);
    SaveRows(s.store, id, t.phase.agent.log, t.phase.report, s'.store, id);
    assert Save(s, s', r);
    assert CommitStep(s, s', r);
  }

  /** A world in which the model does not answer in time. */
  function Silent(): World {
    World((n: nat) => TimedOut, (n: nat) => Raised([]), (t: Str) => None, (t: Str) => NotJson)
  }

  lemma SilenceEnds(cfg: Settings, subject: Subject, st: State)
    ensures Turn(Silent(), cfg, true, subject, st).ended.Some?
  {
    hide FallbackReport;
  }

  /** One step, a turn or the iteration limit, can end the investigation. */
  lemma CanReport(cfg: Settings, s: Cluster, r: RunId, id: IncidentId) returns (s': Cluster)
    requires Works(s, r, id) && s.tasks[r].phase.Investigating?
    ensures Next(cfg, s, s') && Works(s', r, id) && s'.tasks[r].phase.Reporting?
  {
    hide Turn, FallbackReport, LogWrites;
    var t := s.tasks[r];
    var Investigating(subject, agent) := t.phase;
    if agent.iteration < cfg.maxIterations {
      SilenceEnds(cfg, subject, agent);
      var p := Turn(Silent(), cfg, true, subject, agent);
      s' := s.(tasks := s.tasks[r := Task(Reporting(p.st, p.ended.value), id, LogWrites(id, p.st.log))]);
      assert Investigate(s, s', r, Silent(), cfg);
    } else {
      var report := FallbackReport(subject, IterationLimit, agent.toolCallsMade, agent.iteration);
      s' := s.(tasks := s.tasks[r := t.(phase := Reporting(agent, report))]);
      assert ReachLimit(s, s', r, cfg);
    }
    assert QuietStep(cfg, s, s', r);
  }

  /** At most two more steps complete an incident that a run works on. */
  lemma WorkedOnFinishes(cfg: Settings, run: seq<Cluster>, r: RunId, id: IncidentId) returns (longer: seq<Cluster>)
    requires IsRun(cfg, run) && Works(run[|run| - 1], r, id)
    ensures Continues(cfg, run, longer) && |longer| <= |run| + 2 && HasStatus(longer[|longer| - 1], id, COMPLETE)
  {
    hide Next, Inv, Works, HasStatus;
    var last := run[|run| - 1];
    longer := run;
    if !WorkedPhase(last, r, id).Reporting? {
      last := CanReport(cfg, last, r, id);
      Extend(cfg, longer, last);
      longer := longer + [last];
    }
    RunKeepsInv(cfg, longer, |longer| - 1);
    var done := SaveCompletes(cfg, last, r, id);
    Extend(cfg, longer, done);
    longer := longer + [done];
  }

  function WorkedPhase(s: Cluster, r: RunId, id: IncidentId): (phase: Phase)
    requires Works(s, r, id)
    ensures phase.Investigating? || phase.Reporting?
    ensures r in s.tasks && phase == s.tasks[r].phase
  {
    s.tasks[r].phase
  }

  /** A PROCESSING incident can still become COMPLETE iff a run works on it; otherwise it is stuck. */
  lemma CanFinishExactly(cfg: Settings, run: seq<Cluster>, id: IncidentId)
    requires IsRun(cfg, run) && HasStatus(run[|run| - 1], id, PROCESSING)
    ensures CanFinish(cfg, run, id) <==> WorkedOn(run[|run| - 1], id)
  {
    hide Next, Works;
    var last := run[|run| - 1];
    if r :| Works(last, r, id) {
      var longer := WorkedOnFinishes(cfg, run, r, id);
    } else {
      NeverFinishes(cfg, run, id);
    }
  }

  lemma NeverFinishes(cfg: Settings, run: seq<Cluster>, id: IncidentId)
    requires IsRun(cfg, run) && Abandoned(run[|run| - 1], id)
    ensures !CanFinish(cfg, run, id)
  {
    hide Next;
    forall longer | Continues(cfg, run, longer) ensures !HasStatus(longer[|longer| - 1], id, COMPLETE) {
      assert longer[|run| - 1] == run[|run| - 1];
      AbandonedStays(cfg, longer, |run| - 1, |longer| - 1, id);
    }
  }

  /** Three steps leave a stuck incident: a trigger, the first commit and a crash. */
  lemma StuckIncident(cfg: Settings, subject: Subject, at: int, r: RunId, id: IncidentId) returns (run: seq<Cluster>)
    ensures IsRun(cfg, run) && Abandoned(run[|run| - 1], id) && !CanFinish(cfg, run, id)
  {
    hide ApplyAll, Initial;
    var s0 := Empty();
    var s1 := s0.(tasks := s0.tasks[r := Task(Received(subject, at), 0, [])]);
    var store := ApplyAll(s0.store, [InsertIncident(id, subject.tableFqn, at)]);
    var s2 := Cluster(store, s1.tasks[r := Task(Investigating(subject, Initial()), id, [])]);
    var s3 := s2.(tasks := s2.tasks[r := s2.tasks[r].(phase := Stopped, pending := [])]);
    assert Receive(s0, s1, r, subject, at);
    assert Create(s1, s2, r, id);
    assert Crash(s2, s3, r);
    assert QuietStep(cfg, s0, s1, r) && CommitStep(s1, s2, r) && QuietStep(cfg, s2, s3, r);
    run := [s0, s1, s2, s3];
    CrashAbandons(cfg, run, 2, r, id);
    NeverFinishes(cfg, run, id);
  }
}
