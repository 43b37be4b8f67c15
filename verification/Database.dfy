// The durable state of the hub and what one committed observation makes of it
// (internal/hub/sqlite_store.go, internal/storage/sqlite.go).
module Database {
  import opened Text
  import opened Telemetry
  import opened EventRules
  import opened EventTable
  import opened Outbox

  datatype Baseline = Baseline(keys: set<string>, established: bool)

  datatype Tables = Tables(
    events: seq<Event>,
    outbox: seq<Delivery>,
    observations: seq<Observation>,
    baselines: map<HostId, Baseline>)

  const EMPTY := Tables([], [], [], map[])

  function BaselineOf(baselines: map<HostId, Baseline>, host: HostId): Baseline {
    if host in baselines then baselines[host] else Baseline({}, false)
  }

  // ORDER BY observed_at DESC, id DESC LIMIT 1
  function Latest(observations: seq<Observation>, host: HostId): (latest: Option<Observation>)
    ensures latest.Some? ==> latest.value in observations && latest.value.host == host
    ensures latest.None? ==> forall o :: o in observations ==> o.host != host
    ensures forall o :: o in observations && o.host == host ==> latest.Some? && o.at <= latest.value.at
  {
    if observations == [] then None
    else
      var last := observations[|observations| - 1];
      var rest := Latest(observations[..|observations| - 1], host);
      if last.host == host && (rest.None? || last.at >= rest.value.at) then Some(last) else rest
  }

  function ContextOf(db: Tables, o: Observation): Context {
    var baseline := BaselineOf(db.baselines, o.host);
    Context(Latest(db.observations, o.host), o, ActiveByKey(db.events, o.host), baseline.keys, baseline.established)
  }

  // Every key some rule could emit in this context.
  function Candidates(c: Context): set<Key> {
    c.active.Keys
    + {HostOffline, MemoryPressure, RootDisk, LoadHigh, SshBruteforce}
    + (if c.current.workloads.Some? then set w <- c.current.workloads.value :: WorkloadFailed(w.key) else {})
    + (set e <- Wildcards(c.current) :: ListenerAdded(e))
  }

  function SignalsIn(c: Context): map<Key, Signal> {
    map k | k in Candidates(c) && Emits(k, c) :: SignalFor(k, c)
  }

  function SignalsOf(db: Tables, o: Observation): map<Key, Signal> {
    SignalsIn(ContextOf(db, o))
  }

  lemma SignalKeys(db: Tables, o: Observation)
    requires TableOk(db.events)
    ensures ContextOk(ContextOf(db, o))
    ensures forall k :: k in SignalsOf(db, o) <==> Emits(k, ContextOf(db, o))
    ensures SignalsOk(SignalsOf(db, o), o.host)
  {
    var c := ContextOf(db, o);
    ActiveByKeyIsOpen(db.events, o.host);
    forall k | Emits(k, c) ensures k in Candidates(c) {
      if HasFailing(o, match k case WorkloadFailed(w) => w case _ => "") && k.WorkloadFailed? {
        var i :| 0 <= i < |o.workloads.value| && o.workloads.value[i].key == k.workload;
        assert o.workloads.value[i] in o.workloads.value;
      }
    }
    forall k | k in SignalsOf(db, o)
      ensures SignalsOf(db, o)[k].key == k && SignalsOf(db, o)[k].host == o.host && SignalsOf(db, o)[k].kind == KindOf(k)
    {
      if k in c.active {
        var i :| 0 <= i < |db.events| && Open(db.events[i], o.host) && db.events[i].key == k && c.active[k] == db.events[i];
        assert RowOk(db.events[i]);
      }
    }
  }

  // The signal of an open event goes away exactly when its recovery is proved.
  lemma SignalGoneIffCleared(db: Tables, o: Observation, key: Key)
    requires TableOk(db.events) && IsOpen(db.events, o.host, key)
    ensures key !in SignalsOf(db, o) <==> ReadingOf(key, o).Cleared?
  {
    SignalKeys(db, o);
    ActiveByKeyIsOpen(db.events, o.host);
  }

  ghost predicate DbOk(db: Tables) {
    TableOk(db.events) && OutboxOk(db.outbox, db.events)
  }

  // ---- One committed observation ----

  // `added` is the order in which new rows are inserted, `recovered` the order
  // in which open rows are resolved.
  ghost predicate Commits(db: Tables, o: Observation, policies: seq<Policy>, added: seq<Key>, recovered: seq<nat>) {
    var signals := SignalsOf(db, o);
    && DistinctChannels(policies)
    && !Refused(db.events, o.host, o.at, signals)
    && OpensExactly(added, db.events, o.host, signals)
    && ResolvesExactly(recovered, db.events, o.host, signals)
  }

  function NewIds(first: nat, count: nat): (ids: seq<nat>)
    ensures |ids| == count
    ensures forall i :: 0 <= i < count ==> ids[i] == first + i
  {
    seq(count, i requires 0 <= i < count => first + i)
  }

  function CommitJobs(db: Tables, policies: seq<Policy>, added: seq<Key>, recovered: seq<nat>): seq<Job> {
    JobsOf(NewIds(|db.events|, |added|), Opening, policies) + JobsOf(recovered, Recovery, policies)
  }

  ghost function EventsAfter(db: Tables, o: Observation, policies: seq<Policy>, added: seq<Key>, recovered: seq<nat>): seq<Event>
    requires Commits(db, o, policies, added, recovered)
  {
    Reconciled(db.events, o.host, o.at, SignalsOf(db, o), added)
  }

  function BaselinesAfter(baselines: map<HostId, Baseline>, o: Observation): map<HostId, Baseline> {
    if CompleteListeners(o) then baselines[o.host := Baseline(Wildcards(o), true)] else baselines
  }

  lemma JobsInRangeAfter(db: Tables, o: Observation, policies: seq<Policy>, added: seq<Key>, recovered: seq<nat>)
    requires Commits(db, o, policies, added, recovered)
    ensures JobsInRange(CommitJobs(db, policies, added, recovered), EventsAfter(db, o, policies, added, recovered))
  {
    var jobs := CommitJobs(db, policies, added, recovered);
    JobsOfMembers(NewIds(|db.events|, |added|), Opening, policies);
    JobsOfMembers(recovered, Recovery, policies);
    forall i | 0 <= i < |jobs| ensures jobs[i].event < |db.events| + |added| {
      assert jobs[i] in jobs;
    }
  }

  ghost function Commit(db: Tables, o: Observation, policies: seq<Policy>, added: seq<Key>, recovered: seq<nat>): Tables
    requires Commits(db, o, policies, added, recovered)
  {
    JobsInRangeAfter(db, o, policies, added, recovered);
    var events := EventsAfter(db, o, policies, added, recovered);
    Tables(
      events,
      Enqueue(db.outbox, events, CommitJobs(db, policies, added, recovered), o.at),
      db.observations + [o],
      BaselinesAfter(db.baselines, o))
  }

  // ---- Retention and restarts ----

  const HISTORY_LIMIT := 1000

  predicate NewestFirst(history: seq<Observation>) {
    forall i, j :: 0 <= i < j < |history| ==> history[i].at >= history[j].at
  }

  function Inserted(history: seq<Observation>, o: Observation): (after: seq<Observation>)
    requires NewestFirst(history)
    ensures NewestFirst(after)
    ensures forall p :: p in after <==> p in history || p == o
  {
    if history == [] || history[0].at <= o.at then [o] + history
    else
      var rest := Inserted(history[1..], o);
      assert forall p :: p in history <==> p == history[0] || p in history[1..];
      assert forall p :: p in rest ==> p.at <= history[0].at;
      [history[0]] + rest
  }

  // ORDER BY observed_at DESC, id DESC
  function History(observations: seq<Observation>, host: HostId): (history: seq<Observation>)
    ensures NewestFirst(history)
    ensures forall o :: o in history <==> o in observations && o.host == host
  {
    if observations == [] then []
    else
      var last, rest := observations[|observations| - 1], History(observations[..|observations| - 1], host);
      if last.host == host then Inserted(rest, last) else rest
  }

  function Recent(observations: seq<Observation>, host: HostId): (recent: seq<Observation>)
    ensures forall o :: o in recent ==> o in observations && o.host == host
  {
    var history := History(observations, host);
    if |history| > HISTORY_LIMIT then history[..HISTORY_LIMIT] else history
  }

  function FirstComplete(history: seq<Observation>): (found: Option<Observation>)
    ensures found.Some? ==> found.value in history && CompleteListeners(found.value)
    ensures found.None? ==> forall o :: o in history ==> !CompleteListeners(o)
  {
    if history == [] then None
    else if CompleteListeners(history[0]) then Some(history[0])
    else FirstComplete(history[1..])
  }

  // The baseline a restart gives a host that has none: the keys a migration
  // left behind, or the newest complete one of its last thousand observations.
  function BackfillHost(db: Tables, host: HostId): Tables {
    var baseline := BaselineOf(db.baselines, host);
    if baseline.established then db
    else if baseline.keys != {} then db.(baselines := db.baselines[host := Baseline(baseline.keys, true)])
    else match FirstComplete(Recent(db.observations, host))
      case None => db
      case Some(o) => db.(baselines := db.baselines[host := Baseline(Wildcards(o), true)])
  }

  function Backfill(db: Tables, hosts: seq<HostId>): Tables
    decreases |hosts|
  {
    if hosts == [] then db else Backfill(BackfillHost(db, hosts[0]), hosts[1..])
  }

  function Kept(observations: seq<Observation>, before: int): (kept: seq<Observation>)
    ensures forall o :: o in kept <==> o in observations && o.at >= before
  {
    if observations == [] then []
    else
      var last := observations[|observations| - 1];
      Kept(observations[..|observations| - 1], before) + (if last.at >= before then [last] else [])
  }

  lemma JobsFine(db: Tables, o: Observation, policies: seq<Policy>, added: seq<Key>, recovered: seq<nat>)
    requires DbOk(db) && Commits(db, o, policies, added, recovered)
    ensures var jobs := CommitJobs(db, policies, added, recovered);
            && DistinctJobs(jobs)
            && forall i :: 0 <= i < |jobs| ==> JobOk(jobs[i], db.outbox, EventsAfter(db, o, policies, added, recovered))
  {
    var ids := NewIds(|db.events|, |added|);
    var jobs := CommitJobs(db, policies, added, recovered);
    var events := EventsAfter(db, o, policies, added, recovered);
    JobsOfDistinct(ids, Opening, policies);
    JobsOfDistinct(recovered, Recovery, policies);
    JobsOfMembers(ids, Opening, policies);
    JobsOfMembers(recovered, Recovery, policies);
    var front := JobsOf(ids, Opening, policies);
    forall i | 0 <= i < |jobs| ensures JobOk(jobs[i], db.outbox, events) {
      if i < |front| {
        assert jobs[i] in front;
      } else {
        assert jobs[i] in JobsOf(recovered, Recovery, policies);
        var r := jobs[i].event;
        assert events[r] == NextRow(db.events[r], o.host, o.at, SignalsOf(db, o));
        forall j | 0 <= j < |db.outbox| && db.outbox[j].event == r
          ensures db.outbox[j].transition.Opening? && !db.outbox[j].state.Cancelled?
        {
          assert DeliveryOk(db.outbox[j], db.events);
        }
      }
    }
    forall i, j | 0 <= i < j < |jobs|
      ensures jobs[i].event != jobs[j].event || jobs[i].policy.channel != jobs[j].policy.channel
    {
      if i < |front| <= j {
        assert jobs[i] in front && jobs[j] in JobsOf(recovered, Recovery, policies);
      }
    }
  }

  lemma CommitKeeps(db: Tables, o: Observation, policies: seq<Policy>, added: seq<Key>, recovered: seq<nat>)
    requires DbOk(db) && Commits(db, o, policies, added, recovered)
    ensures DbOk(Commit(db, o, policies, added, recovered))
    ensures Evolves(db.outbox, Commit(db, o, policies, added, recovered).outbox)
  {
    SignalKeys(db, o);
    var signals := SignalsOf(db, o);
    var events := EventsAfter(db, o, policies, added, recovered);
    ReconcileKeepsTable(db.events, o.host, o.at, signals, added);
    forall i | 0 <= i < |db.events|
      ensures events[i].host == db.events[i].host && events[i].key == db.events[i].key
              && (db.events[i].state.Resolved? ==> events[i].state.Resolved?)
    {
      assert events[i] == NextRow(db.events[i], o.host, o.at, signals);
    }
    QueueFollowsTable(db.outbox, db.events, events);
    JobsFine(db, o, policies, added, recovered);
    JobsInRangeAfter(db, o, policies, added, recovered);
    EnqueueKeeps(db.outbox, events, CommitJobs(db, policies, added, recovered), o.at);
  }

  lemma AcknowledgeKeeps(db: Tables, id: int, at: int)
    requires DbOk(db)
    ensures DbOk(db.(events := AfterAcknowledge(db.events, id, at)))
  {
    AcknowledgeKeepsTable(db.events, id, at);
    QueueFollowsTable(db.outbox, db.events, AfterAcknowledge(db.events, id, at));
  }
}
