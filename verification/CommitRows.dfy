module CommitRows {
  // What a commit writes into the events table and the baselines, and a restart into the baselines, from the raw values.
  import opened Text
  import opened Telemetry
  import opened Evidence
  import opened EventRules
  import opened EventTable
  import opened Outbox
  import opened Database

  // ---- Severity ----

  lemma CriticalIff(key: Key, o: Observation)
    requires o.online && !Absent(key, o) && !key.HostOffline?
    ensures !Missing(key, o)
    ensures SeverityOf(key, o).Critical? <==> CriticalShown(key, o)
  {
    MissingIffAbsent(o);
    match key {
      case MemoryPressure => MemoryIff(o, 95);
      case RootDisk => DiskIff(o, 95);
      case LoadHigh => LoadIff(o, 20);
      case SshBruteforce => SshIff(o, 100, 50);
      case WorkloadFailed(w) => WorkloadMissingIff(o, w);
      case ListenerAdded(e) => ListenerMissingIff(o, e);
      case _ =>
    }
  }

  // A reading the severity of a metric is taken from.
  ghost predicate Measured(key: Key, o: Observation) {
    o.online && !Absent(key, o)
  }

  predicate Metric(key: Key) {
    key.MemoryPressure? || key.RootDisk? || key.LoadHigh? || key.SshBruteforce?
  }

  // The severity a commit gives an open row: that of the values it observed,
  // or the earlier one where the telemetry is missing.
  ghost predicate SeverityNow(key: Key, o: Observation, earlier: Option<Severity>, severity: Severity) {
    match key
    case HostOffline => severity.Critical?
    case WorkloadFailed(_) => severity.Critical? || earlier == Some(severity)
    case ListenerAdded(_) => severity.Warning? || earlier == Some(severity)
    case _ =>
      if Measured(key, o) then severity.Critical? <==> CriticalShown(key, o)
      else earlier == Some(severity)
  }

  lemma SignalSeverity(db: Tables, o: Observation, key: Key)
    requires TableOk(db.events) && key in SignalsOf(db, o)
    ensures var active := ActiveByKey(db.events, o.host);
      SeverityNow(key, o, if key in active then Some(active[key].severity) else None, SignalsOf(db, o)[key].severity)
  {
    SignalKeys(db, o);
    ReadingMeans(key, o);
    MissingIffAbsent(o);
    if Metric(key) && Measured(key, o) {
      CriticalIff(key, o);
    }
  }

  lemma ActiveIsRow(events: seq<Event>, host: HostId, i: nat)
    requires TableOk(events) && i < |events| && Open(events[i], host)
    ensures events[i].key in ActiveByKey(events, host) && ActiveByKey(events, host)[events[i].key] == events[i]
  {
    ActiveByKeyIsOpen(events, host);
    IndexSeparatesKeys(events);
    assert IsOpen(events, host, events[i].key);
    var j :| 0 <= j < |events| && Open(events[j], host) && events[j].key == events[i].key
             && ActiveByKey(events, host)[events[i].key] == events[j];
  }

  // ---- One commit ----

  function KindText(key: Key): string {
    match key
    case HostOffline => "host.offline"
    case MemoryPressure => "resource.memory"
    case RootDisk => "resource.disk"
    case LoadHigh => "resource.load"
    case SshBruteforce => "ssh.bruteforce"
    case WorkloadFailed(_) => "workload.failed"
    case ListenerAdded(_) => "listener.added"
  }

  // What a commit makes of a row that was there.
  ghost predicate RowUpdated(e: Event, e': Event, o: Observation) {
    if e.host != o.host || e.state.Resolved? then e' == e
    else if Recovered(e.key, o) then
      e' == Event(e.host, e.key, e.kind, e.severity, Resolved, e.firstObserved, e.lastObserved, e.acknowledgedAt, Some(o.at))
    else
      && e' == Event(e.host, e.key, KindText(e.key), e'.severity, e.state, e.firstObserved, o.at, e.acknowledgedAt, e.resolvedAt)
      && SeverityNow(e.key, o, Some(e.severity), e'.severity)
  }

  // What a row it inserts looks like.
  ghost predicate RowInserted(e: Event, o: Observation) {
    && e == Event(o.host, e.key, KindText(e.key), e.severity, Active, o.at, o.at, None, None)
    && SeverityNow(e.key, o, None, e.severity)
  }

  lemma OldRowUpdated(events: seq<Event>, db: Tables, o: Observation, i: nat)
    requires events == db.events && TableOk(events) && i < |events|
    ensures RowUpdated(events[i], NextRow(events[i], o.host, o.at, SignalsOf(db, o)), o)
  {
    var e := events[i];
    if Open(e, o.host) {
      SignalKeys(db, o);
      ActiveIsRow(events, o.host, i);
      assert IsOpen(events, o.host, e.key);
      SignalGoneIffCleared(db, o, e.key);
      ReadingMeans(e.key, o);
      if e.key in SignalsOf(db, o) {
        SignalSeverity(db, o, e.key);
      }
    }
  }

  lemma NewRowInserted(db: Tables, o: Observation, key: Key)
    requires TableOk(db.events) && key in SignalsOf(db, o) && !IsOpen(db.events, o.host, key)
    ensures RowInserted(NewRow(o.host, o.at, SignalsOf(db, o)[key]), o)
  {
    SignalKeys(db, o);
    ActiveByKeyIsOpen(db.events, o.host);
    SignalSeverity(db, o, key);
  }

  lemma CommitWritesRows(db: Tables, o: Observation, policies: seq<Policy>, added: seq<Key>, closed: seq<nat>, i: nat)
    requires TableOk(db.events) && Commits(db, o, policies, added, closed)
    requires i < |Commit(db, o, policies, added, closed).events|
    ensures |db.events| <= |Commit(db, o, policies, added, closed).events|
    ensures var after := Commit(db, o, policies, added, closed).events;
      if i < |db.events| then RowUpdated(db.events[i], after[i], o) else RowInserted(after[i], o)
  {
    RowAfter(db.events, o.host, o.at, SignalsOf(db, o), added, i);
    if i < |db.events| {
      OldRowUpdated(db.events, db, o, i);
    } else {
      NewRowInserted(db, o, added[i - |db.events|]);
    }
  }

  // ---- The whole commit ----

  // The keys a commit opens: a condition that is reached, or a listener that
  // is new to an established baseline, unless this is the complete collection
  // right after downtime.
  ghost predicate Opens(db: Tables, o: Observation, key: Key) {
    if key.ListenerAdded? then
      && o.host in db.baselines && db.baselines[o.host].established
      && ListenerShown(o, key.endpoint) && key.endpoint !in db.baselines[o.host].keys
      && (Absent(key, o) || PreviousOnline(db.observations, o.host))
    else Shown(key, o)
  }

  // The newest stored observation of the host found it online.
  ghost predicate PreviousOnline(observations: seq<Observation>, host: HostId) {
    exists i :: NewestAt(observations, host, i) && observations[i].online
  }

  ghost predicate NewestAt(observations: seq<Observation>, host: HostId, i: int) {
    && 0 <= i < |observations| && observations[i].host == host
    && (forall j :: 0 <= j < i && observations[j].host == host ==> observations[j].at <= observations[i].at)
    && (forall j :: i < j < |observations| && observations[j].host == host ==> observations[j].at < observations[i].at)
  }

  lemma {:induction false} LatestIsNewest(observations: seq<Observation>, host: HostId) returns (i: int)
    ensures match Latest(observations, host)
      case None => forall j :: 0 <= j < |observations| ==> observations[j].host != host
      case Some(o) => NewestAt(observations, host, i) && observations[i] == o
  {
    i := -1;
    if observations != [] {
      var n := |observations| - 1;
      i := LatestIsNewest(observations[..n], host);
      if observations[n].host == host && Latest(observations, host) == Some(observations[n]) {
        if Latest(observations[..n], host).None? || observations[n].at >= Latest(observations[..n], host).value.at {
          i := n;
        }
      }
    }
  }

  lemma PreviousIff(observations: seq<Observation>, host: HostId)
    ensures PreviousOnline(observations, host) <==> Latest(observations, host).Some? && Latest(observations, host).value.online
  {
    var i := LatestIsNewest(observations, host);
    forall j, k | NewestAt(observations, host, j) && NewestAt(observations, host, k) ensures j == k {
    }
  }

  lemma OpensIff(db: Tables, o: Observation, key: Key)
    requires TableOk(db.events) && !IsOpen(db.events, o.host, key)
    ensures key in SignalsOf(db, o) <==> Opens(db, o, key)
  {
    SignalKeys(db, o);
    ActiveByKeyIsOpen(db.events, o.host);
    ReadingMeans(key, o);
    if key.ListenerAdded? {
      ListenerMissingIff(o, key.endpoint);
      WildcardIff(o, key.endpoint);
      PreviousIff(db.observations, o.host);
    }
  }

  ghost predicate RowsAfterCommit(db: Tables, after: seq<Event>, o: Observation) {
    && |db.events| <= |after|
    && (forall i {:trigger after[i]} :: 0 <= i < |db.events| ==> RowUpdated(db.events[i], after[i], o))
    && (forall i {:trigger after[i]} :: |db.events| <= i < |after| ==> RowInserted(after[i], o))
    && (forall key :: OpenedIn(db, after, key) <==> !IsOpen(db.events, o.host, key) && Opens(db, o, key))
    && (forall i, j :: |db.events| <= i < j < |after| ==> after[i].key != after[j].key)
  }

  ghost predicate OpenedIn(db: Tables, after: seq<Event>, key: Key) {
    exists i :: |db.events| <= i < |after| && after[i].key == key
  }

  ghost predicate BaselinesAfterCommit(before: map<HostId, Baseline>, after: map<HostId, Baseline>, o: Observation) {
    if o.online && !Absent(ListenerAdded(""), o) then
      && after.Keys == before.Keys + {o.host} && after[o.host].established
      && (forall e :: e in after[o.host].keys <==> ListenerShown(o, e))
      && (forall h :: h in before && h != o.host ==> after[h] == before[h])
    else after == before
  }

  lemma OpenedByKeys(db: Tables, after: seq<Event>, added: seq<Key>, key: Key)
    requires |after| == |db.events| + |added|
    requires forall j :: 0 <= j < |added| ==> after[|db.events| + j].key == added[j]
    ensures OpenedIn(db, after, key) <==> key in added
  {
    var n := |db.events|;
    if OpenedIn(db, after, key) {
      var i :| n <= i < |after| && after[i].key == key;
      assert after[n + (i - n)].key == added[i - n];
    }
    if key in added {
      var j :| 0 <= j < |added| && added[j] == key;
      assert after[n + j].key == key;
    }
  }

  lemma AddedAt(events: seq<Event>, host: HostId, at: int, signals: map<Key, Signal>, added: seq<Key>, j: nat)
    requires SignalsOk(signals, host) && (forall k :: k in added ==> k in signals) && j < |added|
    ensures |Reconciled(events, host, at, signals, added)| == |events| + |added|
    ensures Reconciled(events, host, at, signals, added)[|events| + j].key == added[j]
  {
    RowAfter(events, host, at, signals, added, |events| + j);
  }

  lemma OpenedIffAdded(db: Tables, host: HostId, at: int, signals: map<Key, Signal>, added: seq<Key>, key: Key)
    requires SignalsOk(signals, host) && forall k :: k in added ==> k in signals
    ensures OpenedIn(db, Reconciled(db.events, host, at, signals, added), key) <==> key in added
  {
    var after := Reconciled(db.events, host, at, signals, added);
    forall j | 0 <= j < |added| ensures after[|db.events| + j].key == added[j] {
      AddedAt(db.events, host, at, signals, added, j);
    }
    OpenedByKeys(db, after, added, key);
  }

  lemma CommitOpens(db: Tables, o: Observation, policies: seq<Policy>, added: seq<Key>, closed: seq<nat>, key: Key)
    requires TableOk(db.events) && Commits(db, o, policies, added, closed)
    ensures OpenedIn(db, Commit(db, o, policies, added, closed).events, key)
            <==> !IsOpen(db.events, o.host, key) && Opens(db, o, key)
  {
    SignalKeys(db, o);
    OpenedIffAdded(db, o.host, o.at, SignalsOf(db, o), added, key);
    if !IsOpen(db.events, o.host, key) {
      OpensIff(db, o, key);
    }
  }

  lemma CommitMeans(db: Tables, o: Observation, policies: seq<Policy>, added: seq<Key>, closed: seq<nat>)
    requires TableOk(db.events) && Commits(db, o, policies, added, closed)
    ensures RowsAfterCommit(db, Commit(db, o, policies, added, closed).events, o)
    ensures BaselinesAfterCommit(db.baselines, Commit(db, o, policies, added, closed).baselines, o)
    ensures Commit(db, o, policies, added, closed).observations == db.observations + [o]
  {
    var after := Commit(db, o, policies, added, closed).events;
    forall i | 0 <= i < |after|
      ensures if i < |db.events| then RowUpdated(db.events[i], after[i], o) else RowInserted(after[i], o)
    {
      CommitWritesRows(db, o, policies, added, closed, i);
    }
    forall key ensures OpenedIn(db, after, key) <==> !IsOpen(db.events, o.host, key) && Opens(db, o, key) {
      CommitOpens(db, o, policies, added, closed, key);
    }
    forall i, j | |db.events| <= i < j < |after| ensures after[i].key != after[j].key {
      SignalKeys(db, o);
      NewRowsDiffer(db.events, o.host, o.at, SignalsOf(db, o), added, i, j);
    }
    BaselinesMean(db.baselines, o);
  }

  lemma BaselinesMean(baselines: map<HostId, Baseline>, o: Observation)
    ensures BaselinesAfterCommit(baselines, BaselinesAfter(baselines, o), o)
  {
    CompleteIff(o, "");
    forall e ensures e in Wildcards(o) <==> ListenerShown(o, e) {
      WildcardIff(o, e);
    }
  }

  // ---- Restarts ----

  lemma {:induction false} InsertedAt(history: seq<Observation>, o: Observation) returns (k: nat)
    requires NewestFirst(history)
    ensures k <= |history| && Inserted(history, o) == history[..k] + [o] + history[k..]
    ensures (forall i :: 0 <= i < k ==> history[i].at > o.at) && (forall i :: k <= i < |history| ==> history[i].at <= o.at)
  {
    if history == [] || history[0].at <= o.at {
      k := 0;
    } else {
      var rest := history[1..];
      k := InsertedAt(rest, o);
      assert forall i :: 0 <= i < |rest| ==> rest[i] == history[i + 1];
      k := k + 1;
    }
  }

  // One more observation of the host is listed behind the later ones and in
  // front of all others: newest first, and of one time the last stored first.
  lemma HistoryGrows(observations: seq<Observation>, o: Observation, host: HostId) returns (k: nat)
    ensures History([], host) == []
    ensures var before, after := History(observations, host), History(observations + [o], host);
      if o.host != host then after == before
      else
        && k <= |before| && after == before[..k] + [o] + before[k..]
        && (forall i :: 0 <= i < k ==> before[i].at > o.at)
        && (forall i :: k <= i < |before| ==> before[i].at <= o.at)
  {
    assert (observations + [o])[..|observations|] == observations;
    k := InsertedAt(History(observations, host), o);
  }

  // The newest complete one of the last thousand observations of a host,
  // newest first.
  ghost predicate FirstCompleteAt(history: seq<Observation>, i: int) {
    && 0 <= i < |history| && i < 1000 && history[i].online && !Absent(ListenerAdded(""), history[i])
    && forall j :: 0 <= j < i ==> !(history[j].online && !Absent(ListenerAdded(""), history[j]))
  }

  lemma {:induction false} FirstCompleteIs(history: seq<Observation>, i: int)
    requires 0 <= i < |history| && CompleteListeners(history[i]) && forall j :: 0 <= j < i ==> !CompleteListeners(history[j])
    ensures FirstComplete(history) == Some(history[i])
  {
    if i > 0 {
      assert history[1..][i - 1] == history[i];
      FirstCompleteIs(history[1..], i - 1);
    }
  }

  lemma {:induction false} FirstCompleteIndex(history: seq<Observation>) returns (i: int)
    requires FirstComplete(history).Some?
    ensures 0 <= i < |history| && CompleteListeners(history[i]) && forall j :: 0 <= j < i ==> !CompleteListeners(history[j])
  {
    i := 0;
    if !CompleteListeners(history[0]) {
      var k := FirstCompleteIndex(history[1..]);
      i := k + 1;
      assert forall j :: 0 < j < i ==> history[j] == history[1..][j - 1];
    }
  }

  lemma CompleteEverywhere(history: seq<Observation>)
    ensures forall j :: 0 <= j < |history| ==>
      (CompleteListeners(history[j]) <==> history[j].online && !Absent(ListenerAdded(""), history[j]))
  {
    forall j | 0 <= j < |history|
      ensures CompleteListeners(history[j]) <==> history[j].online && !Absent(ListenerAdded(""), history[j])
    {
      CompleteIff(history[j], "");
    }
  }

  // The baseline a restart leaves a host: the one it has, the keys a migration
  // left, those of the newest complete one of the last thousand observations,
  // or still none.
  ghost predicate Restarted(db: Tables, host: HostId, baseline: Baseline) {
    var before := BaselineOf(db.baselines, host);
    var history := History(db.observations, host);
    if before.established then baseline == before
    else if before.keys != {} then baseline == Baseline(before.keys, true)
    else if exists i :: FirstCompleteAt(history, i) then
      baseline.established && exists i :: FirstCompleteAt(history, i) && forall e :: e in baseline.keys <==> ListenerShown(history[i], e)
    else baseline == before
  }

  lemma FirstOfRecent(history: seq<Observation>, recent: seq<Observation>) returns (i: int)
    requires recent == if |history| > 1000 then history[..1000] else history
    ensures match FirstComplete(recent)
      case Some(o) => FirstCompleteAt(history, i) && history[i] == o
      case None => forall k :: !FirstCompleteAt(history, k)
  {
    i := 0;
    CompleteEverywhere(history);
    if FirstComplete(recent).Some? {
      i := FirstCompleteIndex(recent);
      FirstCompleteIs(recent, i);
      forall j | 0 <= j <= i ensures recent[j] == history[j] {
      }
    } else {
      forall k | 0 <= k < |recent| ensures recent[k] == history[k] && !CompleteListeners(history[k]) {
        assert recent[k] in recent;
      }
    }
  }

  lemma BackfillHostMeans(db: Tables, host: HostId)
    ensures Restarted(db, host, BaselineOf(BackfillHost(db, host).baselines, host))
    ensures BackfillHost(db, host) == db.(baselines := BackfillHost(db, host).baselines)
    ensures forall h :: h != host ==> BaselineOf(BackfillHost(db, host).baselines, h) == BaselineOf(db.baselines, h)
  {
    var history := History(db.observations, host);
    var i := FirstOfRecent(history, Recent(db.observations, host));
    if FirstComplete(Recent(db.observations, host)).Some? {
      forall e ensures e in Wildcards(history[i]) <==> ListenerShown(history[i], e) {
        WildcardIff(history[i], e);
      }
    }
  }

  // Every configured host gets its baseline, whatever the order.
  lemma {:induction false} BackfillMeans(db: Tables, hosts: seq<HostId>, host: HostId)
    ensures BaselineOf(Backfill(db, hosts).baselines, host)
         == BaselineOf((if host in hosts then BackfillHost(db, host) else db).baselines, host)
    ensures Backfill(db, hosts) == db.(baselines := Backfill(db, hosts).baselines)
    decreases |hosts|
  {
    if hosts != [] {
      var next := BackfillHost(db, hosts[0]);
      BackfillHostMeans(db, hosts[0]);
      BackfillMeans(next, hosts[1..], host);
      if hosts[0] == host {
        BackfillTwice(db, host);
      }
    }
  }

  lemma BackfillTwice(db: Tables, host: HostId)
    ensures BaselineOf(BackfillHost(BackfillHost(db, host), host).baselines, host) == BaselineOf(BackfillHost(db, host).baselines, host)
  {
  }
}
