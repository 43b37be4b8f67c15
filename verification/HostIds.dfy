// When the unique index over key texts makes one host block the events of
// another (internal/storage/migrations.go).
module HostIds {
  import opened Text
  import opened Telemetry
  import opened Projection
  import opened HostKeys
  import opened EventRules
  import opened EventTable
  import opened Outbox
  import opened Database
  import opened Lifecycle
  import opened LifecycleInvariants
  import opened LifecycleTheorems

  // Every observation of the run came through the projection.
  ghost predicate Receives(lib: Library, actions: seq<Action>, n: nat) {
    forall m :: 0 <= m < n && m < |actions| && actions[m].Observe? ==> Received(lib, actions[m].o)
  }

  ghost predicate Observed(actions: seq<Action>, hosts: set<HostId>) {
    forall m :: 0 <= m < |actions| && actions[m].Observe? ==> actions[m].o.host in hosts
  }

  // In some reachable state with observations of these hosts only, another
  // observation of one of them would be refused by the index.
  ghost predicate IndexMayRefuse(lib: Library, hosts: set<HostId>) {
    exists states, actions, o :: RefusedAfter(lib, states, actions, o, hosts)
  }

  ghost predicate RefusedAfter(lib: Library, states: seq<Hub>, actions: seq<Action>, o: Observation, hosts: set<HostId>) {
    && Run(states, actions) && Receives(lib, actions, |actions|) && Observed(actions, hosts)
    && Received(lib, o) && o.host in hosts
    && SignalRefused(states[|actions|].db, o)
  }

  ghost predicate SignalRefused(db: Tables, o: Observation) {
    exists k {:trigger IndexRefuses(db.events, o.host, k)} :: k in SignalsOf(db, o) && IndexRefuses(db.events, o.host, k)
  }

  // A key that a commit would open comes from the observation itself.
  lemma OpenedKeyFormable(lib: Library, db: Tables, o: Observation, key: Key)
    requires TableOk(db.events) && Received(lib, o)
    requires key in SignalsOf(db, o) && !IsOpen(db.events, o.host, key)
    ensures Formable(lib, key)
  {
    SignalKeys(db, o);
    ActiveByKeyIsOpen(db.events, o.host);
    match key {
      case WorkloadFailed(w) => ReceivedWorkload(lib, o, w);
      case ListenerAdded(e) => ReceivedListener(lib, o, e);
      case _ =>
    }
  }

  lemma OnlyObservationsAdd(states: seq<Hub>, actions: seq<Action>, n: nat)
    requires Run(states, actions) && n < |actions| && !actions[n].Observe?
    ensures |states[n + 1].db.events| == |states[n].db.events|
  {
    RunStep(states, actions, n);
    if actions[n].Restart? {
      BackfillIsIdle(states[n], actions[n].hosts);
    }
  }

  lemma AddedKey(db: Tables, o: Observation, policies: seq<Policy>, added: seq<Key>, recovered: seq<nat>, j: nat)
    requires TableOk(db.events) && Commits(db, o, policies, added, recovered)
    requires |db.events| <= j < |Commit(db, o, policies, added, recovered).events|
    ensures var key := Commit(db, o, policies, added, recovered).events[j].key;
            key in SignalsOf(db, o) && !IsOpen(db.events, o.host, key)
  {
    SignalKeys(db, o);
    RowAfter(db.events, o.host, o.at, SignalsOf(db, o), added, j);
  }

  lemma BornFormable(lib: Library, states: seq<Hub>, actions: seq<Action>, n: nat, j: nat)
    requires Run(states, actions) && n < |actions| && (actions[n].Observe? ==> Received(lib, actions[n].o))
    requires |states[n].db.events| <= j < |states[n + 1].db.events|
    ensures Formable(lib, states[n + 1].db.events[j].key)
  {
    var db, a := states[n].db, actions[n];
    if a.Observe? {
      CommittedStep(states, actions, n);
      AddedKey(db, a.o, a.policies, a.added, a.recovered, j);
      OpenedKeyFormable(lib, db, a.o, states[n + 1].db.events[j].key);
    } else {
      OnlyObservationsAdd(states, actions, n);
    }
  }

  // So all rows of a run hold keys the hub can form.
  lemma {:induction false} RowsFormable(lib: Library, states: seq<Hub>, actions: seq<Action>, n: nat, j: nat)
    requires Run(states, actions) && Receives(lib, actions, n) && n < |states| && j < |states[n].db.events|
    ensures Formable(lib, states[n].db.events[j].key)
    decreases n
  {
    assert |states[0].db.events| == 0;
    if j < |states[n - 1].db.events| {
      RowsFormable(lib, states, actions, n - 1, j);
      RowStays(states, actions, n - 1, j);
    } else {
      BornFormable(lib, states, actions, n - 1, j);
    }
  }

  // A row can only be in the way of a host if its own host was observed
  // before and one of the two is nested in the other.
  lemma UnnestedNeverClash(lib: Library, states: seq<Hub>, actions: seq<Action>, n: nat, host: HostId, key: Key)
    requires Run(states, actions) && Receives(lib, actions, n) && n < |states| && Formable(lib, key)
    requires forall m :: 0 <= m < n && actions[m].Observe? ==>
               !Nested(lib, actions[m].o.host, host) && !Nested(lib, host, actions[m].o.host)
    ensures !IndexRefuses(states[n].db.events, host, key)
  {
    var events := states[n].db.events;
    forall j | 0 <= j < |events| ensures !Clashes(events[j], host, key) {
      if Clashes(events[j], host, key) {
        var m := Birth(states, actions, n, j);
        RowsFormable(lib, states, actions, n, j);
        DedupeKeyInjective(lib, events[j].host, events[j].key, host, key);
      }
    }
  }

  lemma UnnestedSignalFree(lib: Library, states: seq<Hub>, actions: seq<Action>, n: nat, o: Observation)
    requires Run(states, actions) && Receives(lib, actions, n) && n < |states| && Received(lib, o)
    requires forall m :: 0 <= m < n && actions[m].Observe? ==>
               !Nested(lib, actions[m].o.host, o.host) && !Nested(lib, o.host, actions[m].o.host)
    ensures !SignalRefused(states[n].db, o)
  {
    var db := states[n].db;
    StateTableOk(states, actions, n);
    forall k | k in SignalsOf(db, o) ensures !IndexRefuses(db.events, o.host, k) {
      if IsOpen(db.events, o.host, k) {
        var i :| 0 <= i < |db.events| && Open(db.events[i], o.host) && db.events[i].key == k;
        OpenKeyNeverClashes(db.events, o.host, i);
      } else {
        OpenedKeyFormable(lib, db, o, k);
        UnnestedNeverClash(lib, states, actions, n, o.host, k);
      }
    }
  }

  // So a commit then depends on the rows of its own host alone.
  lemma RefusedByOwnRowsOnly(lib: Library, states: seq<Hub>, actions: seq<Action>, n: nat, o: Observation)
    requires Run(states, actions) && Receives(lib, actions, n) && n < |states| && Received(lib, o)
    requires forall m :: 0 <= m < n && actions[m].Observe? ==>
               !Nested(lib, actions[m].o.host, o.host) && !Nested(lib, o.host, actions[m].o.host)
    ensures var db := states[n].db;
            Refused(db.events, o.host, o.at, SignalsOf(db, o)) <==>
            exists i :: 0 <= i < |db.events| && RowRefuses(db.events[i], o.host, o.at, SignalsOf(db, o))
  {
    UnnestedSignalFree(lib, states, actions, n, o);
  }

  // ---- Nested hosts do get in each other's way ----

  function Sample(host: HostId, workloads: seq<Workload>, endpoints: seq<Endpoint>): Observation {
    Observation(host, 0, true, None, None, Some(workloads), endpoints, [])
  }

  // A complete observation with nothing to report.
  function Quiet(host: HostId): Observation {
    Sample(host, [], [])
  }

  // A complete observation that reports one failed workload or one listener.
  ghost predicate Raises(o: Observation, host: HostId, key: Key) {
    && o == Sample(host, o.workloads.GetOrElse([]), o.endpoints)
    && (forall w :: HasFailing(o, w) <==> key == WorkloadFailed(w))
    && (forall e :: e in Wildcards(o) <==> key == ListenerAdded(e))
  }

  lemma QuietReceived(lib: Library, host: HostId)
    requires Identifier(host, 128)
    ensures Received(lib, Quiet(host))
  {
    var report := Scrape(true, None, None, Some([]), []);
    assert Project(lib, host, 0, report) == Some(Quiet(host));
  }

  lemma FailedFails(workload: string)
    ensures Failing(Workload(workload, "failed", "")) && !Failing(Workload(workload, "running", ""))
  {
    assert TrimRight("failed") == "failed" && TrimRight("running") == "running";
    assert TrimSpace("failed") == "failed" && TrimSpace("running") == "running";
  }

  lemma FailureRaises(host: HostId, x: Workload)
    requires Failing(x)
    ensures Raises(Sample(host, [x], []), host, WorkloadFailed(x.key))
  {
    assert [x][0] == x;
  }

  lemma ListenerRaises(host: HostId, x: Workload, e: Endpoint)
    requires !Failing(x) && e.wildcard
    ensures Raises(Sample(host, [x], [e]), host, ListenerAdded(e.key))
  {
    assert [e][0] == e;
  }

  lemma RaisingWorkload(lib: Library, host: HostId, w: string) returns (o: Observation)
    requires Identifier(host, 128) && Identifier(w, 512)
    ensures Received(lib, o) && Raises(o, host, WorkloadFailed(w))
  {
    var x := Workload(w, "failed", "");
    o := Sample(host, [x], []);
    FailedFails(w);
    WorkloadReport(lib, host, 0, w);
    FailureRaises(host, x);
  }

  lemma RaisingListener(lib: Library, host: HostId, key: string) returns (o: Observation)
    requires LibraryOk(lib) && Identifier(host, 128) && Formable(lib, ListenerAdded(key))
    ensures Received(lib, o) && Raises(o, host, ListenerAdded(key))
  {
    var p, bind, port :| ListenerKey(lib, key, p, bind, port);
    var x, e := Workload("w", "running", ""), Endpoint("w", key, p, port, true);
    o := Sample(host, [x], [e]);
    FailedFails("w");
    ListenerReport(lib, host, 0, key, p, bind, port);
    ListenerRaises(host, x, e);
  }

  // Observing a host without rows when exactly these keys hold.
  lemma FirstCommit(s: Hub, o: Observation, keys: seq<Key>) returns (a: Action)
    requires Inv(s) && (forall e :: e in s.db.events ==> e.host != o.host)
    requires forall i, j :: 0 <= i < j < |keys| ==> keys[i] != keys[j]
    requires forall k :: k in keys <==> Emits(k, ContextOf(s.db, o))
    requires forall k :: k in keys ==> !IndexRefuses(s.db.events, o.host, k)
    ensures a == Observe(o, [], keys, []) && Enabled(s, a)
  {
    a := Observe(o, [], keys, []);
    SignalKeys(s.db, o);
  }

  lemma QuietEmits(db: Tables, host: HostId, key: Key)
    requires forall e :: e in db.events ==> e.host != host
    ensures !Emits(key, ContextOf(db, Quiet(host)))
    ensures CompleteListeners(Quiet(host)) && Wildcards(Quiet(host)) == {}
  {
    ActiveByKeyIsOpen(db.events, host);
  }

  // The host was quiet when it was last observed.
  ghost predicate Calm(db: Tables, host: HostId) {
    && (forall e :: e in db.events ==> e.host != host)
    && BaselineOf(db.baselines, host) == Baseline({}, true)
    && Latest(db.observations, host) == Some(Quiet(host))
  }

  lemma RaisingEmits(db: Tables, o: Observation, host: HostId, key: Key, other: Key)
    requires Calm(db, host) && Raises(o, host, key) && (key.WorkloadFailed? || key.ListenerAdded?)
    ensures Emits(other, ContextOf(db, o)) <==> other == key
  {
    ActiveByKeyIsOpen(db.events, host);
    match other {
      case WorkloadFailed(w) => assert HasFailing(o, w) <==> key == WorkloadFailed(w);
      case ListenerAdded(e) => assert e in Wildcards(o) <==> key == ListenerAdded(e);
      case _ =>
    }
  }

  lemma QuietCommit(s: Hub, host: HostId) returns (a: Action)
    requires Inv(s) && s.db.events == []
    ensures a == Observe(Quiet(host), [], [], []) && Enabled(s, a)
    ensures Next(s, a).db.events == [] && Next(s, a).db.observations == s.db.observations + [Quiet(host)]
    ensures BaselineOf(Next(s, a).db.baselines, host) == Baseline({}, true)
    ensures forall h :: h != host ==> BaselineOf(Next(s, a).db.baselines, h) == BaselineOf(s.db.baselines, h)
  {
    forall k ensures !Emits(k, ContextOf(s.db, Quiet(host))) {
      QuietEmits(s.db, host, k);
    }
    a := FirstCommit(s, Quiet(host), []);
    assert |Next(s, a).db.events| == 0;
  }

  lemma RaisingCommit(s: Hub, o: Observation, b: HostId, kb: Key) returns (a: Action)
    requires Inv(s) && s.db.events == [] && Calm(s.db, b) && Raises(o, b, kb) && (kb.WorkloadFailed? || kb.ListenerAdded?)
    ensures a == Observe(o, [], [kb], []) && Enabled(s, a)
    ensures IsOpen(Next(s, a).db.events, b, kb)
    ensures forall e :: e in Next(s, a).db.events ==> e.host == b
    ensures forall h :: h != b ==> BaselineOf(Next(s, a).db.baselines, h) == BaselineOf(s.db.baselines, h)
    ensures Next(s, a).db.observations == s.db.observations + [o]
  {
    forall k ensures Emits(k, ContextOf(s.db, o)) <==> k == kb {
      RaisingEmits(s.db, o, b, kb, k);
    }
    a := FirstCommit(s, o, [kb]);
    SignalKeys(s.db, o);
    OpenKeysAreSignals(s.db.events, b, o.at, SignalsOf(s.db, o), [kb]);
  }

  lemma Extend(states: seq<Hub>, actions: seq<Action>, a: Action)
    requires Run(states, actions) && Enabled(states[|actions|], a)
    ensures Run(states + [Next(states[|actions|], a)], actions + [a])
  {
    var states', actions' := states + [Next(states[|actions|], a)], actions + [a];
    forall i | 0 <= i < |actions'| ensures StepAt(states', actions', i) {
      assert i < |actions| ==> StepAt(states, actions, i);
    }
  }

  lemma QuietStep(states: seq<Hub>, actions: seq<Action>, host: HostId) returns (states': seq<Hub>, actions': seq<Action>)
    requires Run(states, actions) && states[|actions|].db.events == []
    ensures Run(states', actions') && actions' == actions + [Observe(Quiet(host), [], [], [])]
    ensures var db, db' := states[|actions|].db, states'[|actions'|].db;
      && db'.events == [] && db'.observations == db.observations + [Quiet(host)]
      && BaselineOf(db'.baselines, host) == Baseline({}, true)
      && (forall h :: h != host ==> BaselineOf(db'.baselines, h) == BaselineOf(db.baselines, h))
  {
    RunKeeps(states, actions, |actions|);
    var a := QuietCommit(states[|actions|], host);
    Extend(states, actions, a);
    states', actions' := states + [Next(states[|actions|], a)], actions + [a];
  }

  // Both hosts have been observed and were quiet.
  lemma QuietPair(a: HostId, b: HostId) returns (states: seq<Hub>, actions: seq<Action>)
    requires a != b
    ensures Run(states, actions) && actions == [Observe(Quiet(a), [], [], []), Observe(Quiet(b), [], [], [])]
    ensures var db := states[2].db; db.events == [] && Calm(db, a) && Calm(db, b)
  {
    states, actions := QuietStep([START], [], a);
    states, actions := QuietStep(states, actions, b);
    var observations := states[2].db.observations;
    assert observations == [Quiet(a), Quiet(b)];
    assert observations[..1] == [Quiet(a)];
    assert Latest([Quiet(a)], a) == Some(Quiet(a));
  }

  // Then the second one raises a key.
  lemma RaisedRun(a: HostId, b: HostId, kb: Key, o: Observation) returns (states: seq<Hub>, actions: seq<Action>)
    requires a != b && Raises(o, b, kb) && (kb.WorkloadFailed? || kb.ListenerAdded?)
    ensures Run(states, actions)
    ensures actions == [Observe(Quiet(a), [], [], []), Observe(Quiet(b), [], [], []), Observe(o, [], [kb], [])]
    ensures IsOpen(states[3].db.events, b, kb) && Calm(states[3].db, a)
  {
    states, actions := QuietPair(a, b);
    RunKeeps(states, actions, 2);
    var action := RaisingCommit(states[2], o, b, kb);
    LatestElsewhere(states[2].db.observations, a, o);
    Extend(states, actions, action);
    states, actions := states + [Next(states[2], action)], actions + [action];
  }

  lemma LatestElsewhere(observations: seq<Observation>, host: HostId, o: Observation)
    requires o.host != host
    ensures Latest(observations + [o], host) == Latest(observations, host)
  {
    assert (observations + [o])[..|observations|] == observations;
  }

  lemma LaterKeyRefused(db: Tables, o: Observation, a: HostId, ka: Key, b: HostId, kb: Key)
    requires TableOk(db.events) && Calm(db, a) && Raises(o, a, ka) && (ka.WorkloadFailed? || ka.ListenerAdded?)
    requires a != b && DedupeKey(a, ka) == DedupeKey(b, kb) && IsOpen(db.events, b, kb)
    ensures SignalRefused(db, o)
  {
    SignalKeys(db, o);
    RaisingEmits(db, o, a, ka, ka);
    var i :| 0 <= i < |db.events| && Open(db.events[i], b) && db.events[i].key == kb;
    assert Clashes(db.events[i], a, ka);
    assert IndexRefuses(db.events, a, ka);
  }

  lemma RaisingReceived(lib: Library, host: HostId, key: Key) returns (o: Observation)
    requires LibraryOk(lib) && Identifier(host, 128) && Formable(lib, key) && (key.WorkloadFailed? || key.ListenerAdded?)
    ensures Received(lib, o) && Raises(o, host, key)
  {
    match key {
      case WorkloadFailed(w) => o := RaisingWorkload(lib, host, w);
      case ListenerAdded(e) => o := RaisingListener(lib, host, e);
    }
  }

  lemma NestedMayClash(lib: Library, a: HostId, b: HostId)
    requires LibraryOk(lib) && HostIdOk(a) && HostIdOk(b) && Nested(lib, a, b)
    ensures IndexMayRefuse(lib, {a, b})
  {
    var ka, kb := NestedShareText(lib, a, b);
    var ob := RaisingReceived(lib, b, kb);
    var oa := RaisingReceived(lib, a, ka);
    var states, actions := RaisedRun(a, b, kb, ob);
    StateTableOk(states, actions, 3);
    LaterKeyRefused(states[3].db, oa, a, ka, b, kb);
    ThreeReceived(lib, a, b, kb, ob);
    ShowsRefusal(lib, states, actions, oa, {a, b});
  }

  lemma ThreeReceived(lib: Library, a: HostId, b: HostId, kb: Key, ob: Observation)
    requires Identifier(a, 128) && Identifier(b, 128) && Received(lib, ob) && ob.host == b
    ensures var actions := [Observe(Quiet(a), [], [], []), Observe(Quiet(b), [], [], []), Observe(ob, [], [kb], [])];
            Receives(lib, actions, 3) && Observed(actions, {a, b})
  {
    QuietReceived(lib, a);
    QuietReceived(lib, b);
  }

  lemma ShowsRefusal(lib: Library, states: seq<Hub>, actions: seq<Action>, o: Observation, hosts: set<HostId>)
    requires Run(states, actions) && Receives(lib, actions, |actions|) && Observed(actions, hosts)
    requires Received(lib, o) && o.host in hosts && SignalRefused(states[|actions|].db, o)
    ensures IndexMayRefuse(lib, hosts)
  {
    assert RefusedAfter(lib, states, actions, o, hosts);
  }

  lemma StateTableOk(states: seq<Hub>, actions: seq<Action>, n: nat)
    requires Run(states, actions) && n < |states|
    ensures TableOk(states[n].db.events)
  {
    RunKeeps(states, actions, n);
  }

  lemma UnnestedNeverRefused(lib: Library, states: seq<Hub>, actions: seq<Action>, o: Observation, hosts: set<HostId>)
    requires forall a, b :: a in hosts && b in hosts ==> !Nested(lib, a, b)
    ensures !RefusedAfter(lib, states, actions, o, hosts)
  {
    if Run(states, actions) && Receives(lib, actions, |actions|) && Observed(actions, hosts) && Received(lib, o) && o.host in hosts {
      UnnestedSignalFree(lib, states, actions, |actions|, o);
    }
  }

  lemma UnnestedNeverMay(lib: Library, hosts: set<HostId>)
    requires forall a, b :: a in hosts && b in hosts ==> !Nested(lib, a, b)
    ensures !IndexMayRefuse(lib, hosts)
  {
    forall states: seq<Hub>, actions: seq<Action>, o: Observation
      ensures !RefusedAfter(lib, states, actions, o, hosts)
    {
      UnnestedNeverRefused(lib, states, actions, o, hosts);
    }
  }

  lemma PairUnnested(lib: Library, h1: HostId, h2: HostId, a: HostId, b: HostId)
    requires !Nested(lib, h1, h2) && !Nested(lib, h2, h1) && a in {h1, h2} && b in {h1, h2}
    ensures !Nested(lib, a, b)
  {
    assert |a + ":"| > |a|;
  }

  lemma NestedPair(lib: Library, h1: HostId, h2: HostId)
    requires LibraryOk(lib) && HostIdOk(h1) && HostIdOk(h2)
    requires Nested(lib, h1, h2) || Nested(lib, h2, h1)
    ensures IndexMayRefuse(lib, {h1, h2})
  {
    assert {h2, h1} == {h1, h2};
    if Nested(lib, h1, h2) {
      NestedMayClash(lib, h1, h2);
    } else {
      NestedMayClash(lib, h2, h1);
    }
  }

  lemma UnnestedPair(lib: Library, h1: HostId, h2: HostId)
    requires !Nested(lib, h1, h2) && !Nested(lib, h2, h1)
    ensures !IndexMayRefuse(lib, {h1, h2})
  {
    forall a, b | a in {h1, h2} && b in {h1, h2} ensures !Nested(lib, a, b) {
      PairUnnested(lib, h1, h2, a, b);
    }
    UnnestedNeverMay(lib, {h1, h2});
  }

  // Two hosts can get in each other's way exactly when one is nested in the other.
  lemma IndexRefusesIffNested(lib: Library, h1: HostId, h2: HostId)
    requires LibraryOk(lib) && HostIdOk(h1) && HostIdOk(h2) && h1 != h2
    ensures IndexMayRefuse(lib, {h1, h2}) <==> Nested(lib, h1, h2) || Nested(lib, h2, h1)
  {
    if Nested(lib, h1, h2) || Nested(lib, h2, h1) {
      NestedPair(lib, h1, h2);
    } else {
      UnnestedPair(lib, h1, h2);
    }
  }
}
