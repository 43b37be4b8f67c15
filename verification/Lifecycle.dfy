// Whole runs of the hub: committed observations, acknowledgements, one
// sequential notifier with crashes, retention and restarts, in any order. A
// refused or failed step changes nothing and so needs no action of its own.
module Lifecycle {
  import opened Text
  import opened Telemetry
  import opened EventTable
  import opened Outbox
  import opened Database

  const CHANNEL := "webhook"
  const LEASE := 30 * SECOND
  const MAXIMUM_TRIES := 8

  // The notifier between its claim and its report.
  datatype Notifier = Idle | Busy(id: nat, attempt: nat, now: int)

  // What the receiver answered. Statuses 408, 425, 429 and 5xx are worth a retry.
  datatype Answer = Unsendable | Unreachable | Status(code: int)

  // `history` lists the committed observations in commit order and `lost`
  // counts, per queue row, the claims that were never reported back.
  datatype Hub = Hub(db: Tables, history: seq<Observation>, notifier: Notifier, lost: map<nat, nat>)

  datatype Action =
    | Observe(o: Observation, policies: seq<Policy>, added: seq<Key>, recovered: seq<nat>)
    | Acknowledge(event: int, at: int)
    | Claim(id: nat, now: int)
    | Report(answer: Answer)
    | Crash
    | Prune(before: int)
    | Restart(hosts: seq<HostId>)

  const START := Hub(EMPTY, [], Idle, map[])

  function RetryDelay(attempt: nat): nat {
    if attempt <= 1 then 5 * SECOND
    else if attempt == 2 then 30 * SECOND
    else if attempt == 3 then 120 * SECOND
    else if attempt == 4 then 600 * SECOND
    else if attempt == 5 then 1800 * SECOND
    else 3600 * SECOND
  }

  predicate Accepted2xx(answer: Answer) {
    answer.Status? && 200 <= answer.code < 300
  }

  predicate Final(answer: Answer, attempt: nat) {
    match answer
    case Unsendable => true
    case Unreachable => attempt >= MAXIMUM_TRIES
    case Status(code) => !(code == 408 || code == 425 || code == 429 || code >= 500) || attempt >= MAXIMUM_TRIES
  }

  function Lost(lost: map<nat, nat>, id: nat): nat {
    if id in lost then lost[id] else 0
  }

  ghost predicate Enabled(s: Hub, a: Action) {
    match a
    case Observe(o, policies, added, recovered) => Commits(s.db, o, policies, added, recovered)
    case Acknowledge(event, at) => true
    case Claim(id, now) => s.notifier.Idle? && FirstDue(s.db.outbox, id, CHANNEL, now)
    case Report(answer) => s.notifier.Busy? && s.notifier.id < |s.db.outbox| && s.db.outbox[s.notifier.id].state.Sending?
    case Crash => true
    case Prune(before) => true
    case Restart(hosts) => true
  }

  ghost function Next(s: Hub, a: Action): Hub
    requires Enabled(s, a)
  {
    match a
    case Observe(o, policies, added, recovered) =>
      s.(db := Commit(s.db, o, policies, added, recovered), history := s.history + [o])
    case Acknowledge(event, at) => s.(db := s.db.(events := AfterAcknowledge(s.db.events, event, at)))
    case Claim(id, now) =>
      s.(db := s.db.(outbox := Claimed(s.db.outbox, id, now + LEASE)),
         notifier := Busy(id, s.db.outbox[id].attempts + 1, now))
    case Report(answer) => s.(db := s.db.(outbox := Reported(s.db.outbox, s.notifier, answer)), notifier := Idle)
    case Crash => Abandon(s)
    case Prune(before) => s.(db := s.db.(observations := Kept(s.db.observations, before)))
    case Restart(hosts) => Abandon(s).(db := Backfill(s.db, hosts))
  }

  function Abandon(s: Hub): Hub {
    if s.notifier.Idle? then s
    else s.(notifier := Idle, lost := s.lost[s.notifier.id := Lost(s.lost, s.notifier.id) + 1])
  }

  function Reported(outbox: seq<Delivery>, notifier: Notifier, answer: Answer): seq<Delivery>
    requires notifier.Busy? && notifier.id < |outbox|
  {
    if Accepted2xx(answer) then MarkedDelivered(outbox, notifier.id, notifier.now)
    else if Final(answer, notifier.attempt) then Retried(outbox, notifier.id, notifier.now, true)
    else Retried(outbox, notifier.id, notifier.now + RetryDelay(notifier.attempt), false)
  }

  // A run: states linked by actions, from the empty database.
  ghost predicate Run(states: seq<Hub>, actions: seq<Action>) {
    && |states| == |actions| + 1
    && states[0] == START
    && forall i :: 0 <= i < |actions| ==> StepAt(states, actions, i)
  }

  ghost predicate StepAt(states: seq<Hub>, actions: seq<Action>, i: int) {
    && 0 <= i < |actions| < |states|
    && Enabled(states[i], actions[i])
    && states[i + 1] == Next(states[i], actions[i])
  }

  // ---- What the history says about a key ----

  // Some observation raised the key and no later one cleared it.
  ghost predicate RaisedLast(history: seq<Observation>, host: HostId, key: Key) {
    exists i :: RaisedAt(history, host, key, i)
  }

  ghost predicate RaisedAt(history: seq<Observation>, host: HostId, key: Key, i: int) {
    && 0 <= i < |history| && history[i].host == host && ReadingOf(key, history[i]).Raised?
    && forall j :: i < j < |history| && history[j].host == host ==> !ReadingOf(key, history[j]).Cleared?
  }

  // Wildcard keys of the last committed complete observation of the host.
  function LastComplete(history: seq<Observation>, host: HostId): Option<set<string>> {
    if history == [] then None
    else
      var last := history[|history| - 1];
      if last.host == host && CompleteListeners(last) then Some(Wildcards(last))
      else LastComplete(history[..|history| - 1], host)
  }

  ghost predicate EventsFollowHistory(s: Hub) {
    forall h, k: Key :: !k.ListenerAdded? ==> (IsOpen(s.db.events, h, k) <==> RaisedLast(s.history, h, k))
  }

  ghost predicate BaselineFollowsHistory(s: Hub) {
    forall h :: BaselineOf(s.db.baselines, h) ==
      match LastComplete(s.history, h)
      case None => Baseline({}, false)
      case Some(keys) => Baseline(keys, true)
  }

  ghost predicate ObservationsFromHistory(s: Hub) {
    forall o :: o in s.db.observations ==> o in s.history
  }

  // ---- The notifier's budget ----

  ghost predicate BudgetOk(s: Hub) {
    && (s.notifier.Busy? ==>
         s.notifier.id < |s.db.outbox| && s.db.outbox[s.notifier.id].state.Sending?
         && s.db.outbox[s.notifier.id].attempts == s.notifier.attempt
         && s.db.outbox[s.notifier.id].notBefore <= s.notifier.now)
    && forall i :: 0 <= i < |s.db.outbox| ==> RowBudget(s, i)
  }

  predicate RowBudget(s: Hub, i: nat)
    requires i < |s.db.outbox|
  {
    var d := s.db.outbox[i];
    var inFlight := s.notifier.Busy? && s.notifier.id == i;
    && d.attempts <= MAXIMUM_TRIES + Lost(s.lost, i)
    && (d.state.Pending? || (d.state.Sending? && !inFlight) ==> d.attempts < MAXIMUM_TRIES + Lost(s.lost, i))
  }

  ghost predicate Inv(s: Hub) {
    && DbOk(s.db)
    && EventsFollowHistory(s)
    && BaselineFollowsHistory(s)
    && ObservationsFromHistory(s)
    && BudgetOk(s)
  }
}
