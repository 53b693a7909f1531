/** The incident tables, sessions with uncommitted writes, and the worker's transactional writes. */
module IncidentStore {
  import opened PythonText
  import opened Sorting
  import opened ReportParser
  import opened AgentLoop
  import opened Wrappers

  type IncidentId = nat

  datatype Status = PROCESSING | COMPLETE | FAILED

  datatype Incident = Incident(tableFqn: Str, triggeredAt: int, status: Status, report: Option<Report>, score: Score,
                               confidence: Label, blastRadiusCount: nat, slackNotified: bool, omIncidentId: Option<Str>)

  datatype Row<T> = Row(incident: IncidentId, value: T)

  /** What is durably stored. */
  datatype Store = Store(incidents: map<IncidentId, Incident>, timeline: seq<Row<TimelineEvent>>,
                         consumers: seq<Row<AffectedConsumer>>, toolLogs: seq<Row<LogRow>>)

  /** A change a session holds until it commits. Updates touch their own columns only. */
  datatype Write =
    | InsertIncident(id: IncidentId, tableFqn: Str, triggeredAt: int)
    | CompleteIncident(id: IncidentId, report: Report)
    | SetNotified(id: IncidentId, value: bool)
    | SetOmIncident(id: IncidentId, omIncidentId: Str)
    | InsertEvent(id: IncidentId, event: TimelineEvent)
    | InsertConsumer(id: IncidentId, consumer: AffectedConsumer)
    | InsertLog(id: IncidentId, row: LogRow)

  function NewIncident(tableFqn: Str, triggeredAt: int): Incident {
    Incident(tableFqn, triggeredAt, PROCESSING, None, 0.0, LOW, 0, false, None)
  }

  function Completed(incident: Incident, report: Report): Incident {
    incident.(status := COMPLETE, report := Some(report), score := report.score, confidence := report.confidence,
              blastRadiusCount := |report.consumers|)
  }

  function UpdateIncident(store: Store, id: IncidentId, change: Incident -> Incident): Store {
    if id in store.incidents then store.(incidents := store.incidents[id := change(store.incidents[id])]) else store
  }

  function Apply(store: Store, write: Write): Store {
    match write
    case InsertIncident(id, fqn, at) => store.(incidents := store.incidents[id := NewIncident(fqn, at)])
    case CompleteIncident(id, report) => UpdateIncident(store, id, (i: Incident) => Completed(i, report))
    case SetNotified(id, value) => UpdateIncident(store, id, (i: Incident) => i.(slackNotified := value))
    case SetOmIncident(id, om) => UpdateIncident(store, id, (i: Incident) => i.(omIncidentId := Some(om)))
    case InsertEvent(id, event) => store.(timeline := store.timeline + [Row(id, event)])
    case InsertConsumer(id, consumer) => store.(consumers := store.consumers + [Row(id, consumer)])
    case InsertLog(id, row) => store.(toolLogs := store.toolLogs + [Row(id, row)])
  }

  function ApplyAll(store: Store, writes: seq<Write>): Store {
    if writes == [] then store else Apply(ApplyAll(store, writes[..|writes| - 1]), writes[|writes| - 1])
  }

  // ---------- Sessions ----------

  class Database {
    var durable: Store

    constructor ()
      ensures durable == Store(map[], [], [], [])
    {
      durable := Store(map[], [], [], []);
    }
  }

  class Session {
    const db: Database
    var pending: seq<Write>

    constructor (db: Database)
      ensures this.db == db && pending == []
    {
      this.db := db;
      pending := [];
    }

    /** What this session's queries see: the durable rows and its own flushed writes. */
    function View(): Store
      reads this, db
    {
      ApplyAll(db.durable, pending)
    }

    method Add(write: Write)
      modifies this
      ensures pending == old(pending) + [write]
    {
      pending := pending + [write];
    }

    /** All pending writes become durable at once. */
    method Commit()
      modifies this, db
      ensures db.durable == ApplyAll(old(db.durable), old(pending)) && pending == []
    {
      db.durable := ApplyAll(db.durable, pending);
      pending := [];
    }

    /** The first half of `save_incident`: a new PROCESSING row, committed; `id` is its fresh key. */
    method CreateIncident(tableFqn: Str, triggeredAt: int, id: IncidentId)
      requires id !in View().incidents
      modifies this, db
      ensures db.durable == ApplyAll(old(db.durable), old(pending) + [InsertIncident(id, tableFqn, triggeredAt)])
      ensures pending == []
    {
      Add(InsertIncident(id, tableFqn, triggeredAt));
      Commit();
    }

    /** The second half: the report's columns and rows, committed together with whatever the session
        flushed before. Fails without a change when the incident is missing. */
    method SaveReport(id: IncidentId, report: Report) returns (found: bool)
      modifies this, db
      ensures found == (id in old(View()).incidents)
      ensures found ==> db.durable == ApplyAll(old(db.durable), old(pending) + CompletionWrites(id, report))
      ensures found ==> pending == []
      ensures !found ==> db.durable == old(db.durable) && pending == old(pending)
    {
      found := id in View().incidents;
      if !found {
        return;
      }
      Add(CompleteIncident(id, report));
      ghost var head := pending;
      for i := 0 to |report.timeline|
        invariant pending == head + EventWrites(id, report.timeline[..i])
        invariant db.durable == old(db.durable)
      {
        Add(InsertEvent(id, report.timeline[i]));
        EventWritesAppend(id, report.timeline, i);
      }
      assert report.timeline[..|report.timeline|] == report.timeline;
      ghost var mid := pending;
      for i := 0 to |report.consumers|
        invariant pending == mid + ConsumerWrites(id, report.consumers[..i])
        invariant db.durable == old(db.durable)
      {
        Add(InsertConsumer(id, report.consumers[i]));
        ConsumerWritesAppend(id, report.consumers, i);
      }
      assert report.consumers[..|report.consumers|] == report.consumers;
      assert pending == old(pending) + CompletionWrites(id, report);
      Commit();
    }

    method SetSlackNotified(id: IncidentId, value: bool)
      modifies this, db
      ensures if id in old(View()).incidents
              then db.durable == ApplyAll(old(db.durable), old(pending) + [SetNotified(id, value)]) && pending == []
              else db.durable == old(db.durable) && pending == old(pending)
    {
      if id in View().incidents {
        Add(SetNotified(id, value));
        Commit();
      }
    }

    method SetOmIncidentId(id: IncidentId, omIncidentId: Str)
      modifies this, db
      ensures if id in old(View()).incidents
              then && db.durable == ApplyAll(old(db.durable), old(pending) + [SetOmIncident(id, omIncidentId)])
                   && pending == []
              else db.durable == old(db.durable) && pending == old(pending)
    {
      if id in View().incidents {
        Add(SetOmIncident(id, omIncidentId));
        Commit();
      }
    }
  }

  function EventWrites(id: IncidentId, events: seq<TimelineEvent>): seq<Write> {
    seq(|events|, i requires 0 <= i < |events| => InsertEvent(id, events[i]))
  }

  function ConsumerWrites(id: IncidentId, consumers: seq<AffectedConsumer>): seq<Write> {
    seq(|consumers|, i requires 0 <= i < |consumers| => InsertConsumer(id, consumers[i]))
  }

  function LogWrites(id: IncidentId, log: seq<LogRow>): seq<Write> {
    seq(|log|, i requires 0 <= i < |log| => InsertLog(id, log[i]))
  }

  function CompletionWrites(id: IncidentId, report: Report): seq<Write> {
    [CompleteIncident(id, report)] + EventWrites(id, report.timeline) + ConsumerWrites(id, report.consumers)
  }

  lemma EventWritesAppend(id: IncidentId, events: seq<TimelineEvent>, i: nat)
    requires i < |events|
    ensures EventWrites(id, events[..i + 1]) == EventWrites(id, events[..i]) + [InsertEvent(id, events[i])]
  {
  }

  lemma ConsumerWritesAppend(id: IncidentId, consumers: seq<AffectedConsumer>, i: nat)
    requires i < |consumers|
    ensures ConsumerWrites(id, consumers[..i + 1]) ==
      ConsumerWrites(id, consumers[..i]) + [InsertConsumer(id, consumers[i])]
  {
  }

  // ---------- What the batches of writes do ----------

  lemma {:induction false} ApplyConcat(store: Store, a: seq<Write>, b: seq<Write>)
    ensures ApplyAll(store, a + b) == ApplyAll(ApplyAll(store, a), b)
  {
    if b == [] {
      assert a + b == a;
    } else {
      assert (a + b)[..|a + b| - 1] == a + b[..|b| - 1];
      ApplyConcat(store, a, b[..|b| - 1]);
    }
  }

  function RowsFor<T>(id: IncidentId, values: seq<T>): seq<Row<T>> {
    seq(|values|, i requires 0 <= i < |values| => Row(id, values[i]))
  }

  lemma {:induction false} ApplyEvents(store: Store, id: IncidentId, events: seq<TimelineEvent>)
    ensures ApplyAll(store, EventWrites(id, events)) == store.(timeline := store.timeline + RowsFor(id, events))
  {
    if events != [] {
      var n := |events| - 1;
      assert EventWrites(id, events)[..n] == EventWrites(id, events[..n]);
      ApplyEvents(store, id, events[..n]);
      assert RowsFor(id, events) == RowsFor(id, events[..n]) + [Row(id, events[n])];
    }
  }

  lemma {:induction false} ApplyConsumers(store: Store, id: IncidentId, consumers: seq<AffectedConsumer>)
    ensures ApplyAll(store, ConsumerWrites(id, consumers)) ==
      store.(consumers := store.consumers + RowsFor(id, consumers))
  {
    if consumers != [] {
      var n := |consumers| - 1;
      assert ConsumerWrites(id, consumers)[..n] == ConsumerWrites(id, consumers[..n]);
      ApplyConsumers(store, id, consumers[..n]);
      assert RowsFor(id, consumers) == RowsFor(id, consumers[..n]) + [Row(id, consumers[n])];
    }
  }

  lemma {:induction false} ApplyLogs(store: Store, id: IncidentId, log: seq<LogRow>)
    ensures ApplyAll(store, LogWrites(id, log)) == store.(toolLogs := store.toolLogs + RowsFor(id, log))
  {
    if log != [] {
      var n := |log| - 1;
      assert LogWrites(id, log)[..n] == LogWrites(id, log[..n]);
      ApplyLogs(store, id, log[..n]);
      assert RowsFor(id, log) == RowsFor(id, log[..n]) + [Row(id, log[n])];
    }
  }

  lemma ApplyOne(store: Store, write: Write)
    ensures ApplyAll(store, [write]) == Apply(store, write)
  {
    assert [write][..0] == [];
  }

  /** The commit that finishes an incident: its tool logs, columns, events and consumers together. */
  lemma ApplyCompletion(store: Store, id: IncidentId, log: seq<LogRow>, report: Report)
    requires id in store.incidents
    ensures ApplyAll(store, LogWrites(id, log) + CompletionWrites(id, report)) ==
      Store(store.incidents[id := Completed(store.incidents[id], report)],
            store.timeline + RowsFor(id, report.timeline), store.consumers + RowsFor(id, report.consumers),
            store.toolLogs + RowsFor(id, log))
  {
    var head, events := [CompleteIncident(id, report)], EventWrites(id, report.timeline);
    var consumers := ConsumerWrites(id, report.consumers);
    ApplyConcat(store, LogWrites(id, log), CompletionWrites(id, report));
    ApplyLogs(store, id, log);
    var logged := ApplyAll(store, LogWrites(id, log));
    ApplyConcat(logged, head + events, consumers);
    ApplyConcat(logged, head, events);
    ApplyOne(logged, CompleteIncident(id, report));
    ApplyEvents(ApplyAll(logged, head), id, report.timeline);
    ApplyConsumers(ApplyAll(ApplyAll(logged, head), events), id, report.consumers);
  }

  // ---------- The rows of one incident ----------

  function RowsOf<T>(rows: seq<Row<T>>, id: IncidentId): seq<T> {
    if rows == [] then []
    else RowsOf(rows[..|rows| - 1], id) + (if rows[|rows| - 1].incident == id then [rows[|rows| - 1].value] else [])
  }

  lemma RowsOfOne<T>(rows: seq<Row<T>>, row: Row<T>, other: IncidentId)
    ensures RowsOf(rows + [row], other) == RowsOf(rows, other) + (if other == row.incident then [row.value] else [])
  {
    assert (rows + [row])[..|rows|] == rows;
  }

  lemma {:induction false} RowsOfAppended<T>(rows: seq<Row<T>>, id: IncidentId, values: seq<T>, other: IncidentId)
    ensures RowsOf(rows + RowsFor(id, values), other) == RowsOf(rows, other) + (if other == id then values else [])
  {
    hide RowsOf;
    if values == [] {
      assert rows + RowsFor(id, values) == rows;
    } else {
      var n := |values| - 1;
      var front := rows + RowsFor(id, values[..n]);
      RowsOfAppended(rows, id, values[..n], other);
      RowsOfOne(front, Row(id, values[n]), other);
      assert rows + RowsFor(id, values) == front + [Row(id, values[n])];
      assert values == values[..n] + [values[n]];
    }
  }

  // ---------- find_past_incidents ----------

  /** Requests outside 1 to 20 are pulled to the nearer end. */
  function BoundedLimit(limit: int): (r: int)
    ensures 1 <= r <= 20 && (r <= limit || r == 1) && (r >= limit || r == 20)
  {
    if limit < 1 then 1 else if limit > 20 then 20 else limit
  }

  predicate Matches(store: Store, fqn: Str, id: IncidentId) {
    id in store.incidents && store.incidents[id].tableFqn == fqn && store.incidents[id].status == COMPLETE
  }

  function Filter(store: Store, fqn: Str, ids: seq<IncidentId>): seq<IncidentId> {
    if ids == [] then []
    else (if Matches(store, fqn, ids[0]) then [ids[0]] else []) + Filter(store, fqn, ids[1..])
  }

  function TriggeredAt(store: Store, id: IncidentId): int {
    if id in store.incidents then store.incidents[id].triggeredAt else 0
  }

  /** Newest first. */
  function NewestFirst(store: Store): (IncidentId, IncidentId) -> bool {
    (a: IncidentId, b: IncidentId) => TriggeredAt(store, a) >= TriggeredAt(store, b)
  }

  /** The query over the rows in the order the database happens to hold them. */
  function FindPastIncidents(store: Store, listing: seq<IncidentId>, fqn: Str, limit: int): seq<IncidentId> {
    var found := Sort(NewestFirst(store), Filter(store, fqn, listing));
    if |found| <= BoundedLimit(limit) then found else found[..BoundedLimit(limit)]
  }

  lemma {:induction false} FilterExact(store: Store, fqn: Str, ids: seq<IncidentId>, id: IncidentId)
    ensures id in Filter(store, fqn, ids) <==> id in ids && Matches(store, fqn, id)
  {
    if ids != [] {
      FilterExact(store, fqn, ids[1..], id);
    }
  }

  /** `id` is a complete incident of the table. */
  ghost predicate PastOf(store: Store, fqn: Str, id: IncidentId) {
    id in store.incidents && store.incidents[id].tableFqn == fqn && store.incidents[id].status == COMPLETE
  }

  /** `a` was triggered no earlier than `b`. */
  ghost predicate NoOlder(store: Store, a: IncidentId, b: IncidentId) {
    a in store.incidents && b in store.incidents && store.incidents[a].triggeredAt >= store.incidents[b].triggeredAt
  }

  /** The answer holds complete incidents of the table only, newest first, at most the bounded limit,
      and leaves out none that is newer than one it returns; it is short only if it is complete. */
  lemma PastIncidentsExact(store: Store, listing: seq<IncidentId>, fqn: Str, limit: int)
    ensures var answer := FindPastIncidents(store, listing, fqn, limit);
      && |answer| <= BoundedLimit(limit)
      && (forall id :: id in answer ==> id in listing && PastOf(store, fqn, id))
      && (forall i, j :: 0 <= i < j < |answer| ==> NoOlder(store, answer[i], answer[j]))
      && (forall id, i :: id in listing && PastOf(store, fqn, id) && id !in answer && 0 <= i < |answer| ==>
            NoOlder(store, answer[i], id))
      && (|answer| < BoundedLimit(limit) ==> forall id :: id in listing && PastOf(store, fqn, id) ==> id in answer)
  {
    hide *;
    var found := Sort(NewestFirst(store), Filter(store, fqn, listing));
    AllFound(store, listing, fqn, found);
    AnswerIsPrefix(store, listing, fqn, limit, found);
    PrefixOfFound(store, found, FindPastIncidents(store, listing, fqn, limit));
  }

  lemma AllFound(store: Store, listing: seq<IncidentId>, fqn: Str, found: seq<IncidentId>)
    requires found == Sort(NewestFirst(store), Filter(store, fqn, listing))
    ensures forall id :: id in found <==> id in listing && PastOf(store, fqn, id)
    ensures forall i, j :: 0 <= i < j < |found| ==> NoOlder(store, found[i], found[j])
  {
    hide Filter;
    var leq := NewestFirst(store);
    SortCorrect(leq, Filter(store, fqn, listing));
    SortMembers(leq, Filter(store, fqn, listing));
    forall id ensures id in found <==> id in listing && PastOf(store, fqn, id) {
      FilterExact(store, fqn, listing, id);
    }
    forall i, j | 0 <= i < j < |found| ensures NoOlder(store, found[i], found[j]) {
      assert leq(found[i], found[j]) && found[i] in found && found[j] in found;
    }
  }

  lemma AnswerIsPrefix(store: Store, listing: seq<IncidentId>, fqn: Str, limit: int, found: seq<IncidentId>)
    requires found == Sort(NewestFirst(store), Filter(store, fqn, listing))
    ensures var answer := FindPastIncidents(store, listing, fqn, limit);
      answer <= found && |answer| <= BoundedLimit(limit) && (|answer| < BoundedLimit(limit) ==> answer == found)
  {
    hide Sort, Filter;
  }

  lemma PrefixOfFound(store: Store, found: seq<IncidentId>, answer: seq<IncidentId>)
    requires answer <= found && forall i, j :: 0 <= i < j < |found| ==> NoOlder(store, found[i], found[j])
    ensures forall id :: id in answer ==> id in found
    ensures forall i, j :: 0 <= i < j < |answer| ==> NoOlder(store, answer[i], answer[j])
    ensures forall id, i :: id in found && id !in answer && 0 <= i < |answer| ==> NoOlder(store, answer[i], id)
  {
    hide NoOlder;
    forall k | 0 <= k < |answer| ensures found[k] in answer {
      assert answer[k] == found[k];
    }
    forall id, i | id in found && id !in answer && 0 <= i < |answer| ensures NoOlder(store, answer[i], id) {
      var k :| 0 <= k < |found| && found[k] == id;
    }
  }

  /** A listing of the whole table, each row once. */
  ghost predicate Lists(store: Store, listing: seq<IncidentId>) {
    Distinct(listing) && forall id :: id in listing <==> id in store.incidents
  }

  ghost function Elements(ids: seq<IncidentId>): set<IncidentId> {
    set id | id in ids
  }

  lemma {:induction false} FilterDistinct(store: Store, fqn: Str, ids: seq<IncidentId>)
    requires Distinct(ids)
    ensures Distinct(Filter(store, fqn, ids))
  {
    if ids != [] {
      FilterDistinct(store, fqn, ids[1..]);
      FilterExact(store, fqn, ids[1..], ids[0]);
    }
  }

  lemma {:induction false} DistinctCount(ids: seq<IncidentId>)
    ensures Distinct(ids) ==> |Elements(ids)| == |ids|
  {
    if ids != [] && Distinct(ids) {
      DistinctCount(ids[1..]);
      assert Elements(ids) == {ids[0]} + Elements(ids[1..]);
    }
  }

  /** Over the whole table no incident is returned twice, and the answer holds as many as there are
      complete incidents of the table, or as many as the limit allows. */
  lemma PastIncidentsCounted(store: Store, listing: seq<IncidentId>, fqn: Str, limit: int)
    requires Lists(store, listing)
    ensures var answer := FindPastIncidents(store, listing, fqn, limit);
      var matching := set id | id in store.incidents && PastOf(store, fqn, id);
      && Distinct(answer)
      && |answer| == (if |matching| <= BoundedLimit(limit) then |matching| else BoundedLimit(limit))
  {
    var filtered := Filter(store, fqn, listing);
    var matching := set id | id in store.incidents && PastOf(store, fqn, id);
    FilterDistinct(store, fqn, listing);
    DistinctCount(filtered);
    forall id ensures id in filtered <==> id in matching {
      FilterExact(store, fqn, listing, id);
    }
    assert Elements(filtered) == matching;
    SortCorrect(NewestFirst(store), filtered);
    SortKeepsDistinct(NewestFirst(store), filtered);
  }
}
