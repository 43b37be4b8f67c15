// The rule engine (internal/hub/event_rules.go): one observation plus the
// current lifecycle state gives the list of signals that hold now.
module EventRules {
  import opened Text
  import opened Telemetry

  datatype Severity = Warning | Critical
  datatype EventState = Active | Acknowledged | Resolved

  datatype Event = Event(
    host: HostId,
    key: Key,
    kind: string,
    severity: Severity,
    state: EventState,
    firstObserved: int,
    lastObserved: int,
    acknowledgedAt: Option<int>,
    resolvedAt: Option<int>)

  datatype Signal = Signal(host: HostId, kind: string, severity: Severity, key: Key)

  // Everything one evaluation looks at. `active` holds the host's unresolved
  // events, `baseline` the wildcard keys of the last complete collection.
  datatype Context = Context(
    previous: Option<Observation>,
    current: Observation,
    active: map<Key, Event>,
    baseline: set<string>,
    established: bool)

  function KindOf(key: Key): string {
    match key
    case HostOffline => "host.offline"
    case MemoryPressure => "resource.memory"
    case RootDisk => "resource.disk"
    case LoadHigh => "resource.load"
    case SshBruteforce => "ssh.bruteforce"
    case WorkloadFailed(_) => "workload.failed"
    case ListenerAdded(_) => "listener.added"
  }

  // Telemetry whose absence carries an open event over unchanged.
  predicate Missing(key: Key, o: Observation) {
    match key
    case HostOffline => false
    case MemoryPressure => !o.online || MemoryMissing(o)
    case RootDisk => !o.online || DiskMissing(o)
    case LoadHigh => !o.online || LoadMissing(o)
    case SshBruteforce => !o.online || o.ssh.None?
    case WorkloadFailed(w) => !o.online || WorkloadMissing(o, w)
    case ListenerAdded(_) => !o.online || ListenerMissing(o)
  }

  function SeverityOf(key: Key, o: Observation): Severity
    requires !Missing(key, o) || key.WorkloadFailed? || key.ListenerAdded?
  {
    var critical :=
      match key
      case HostOffline => true
      case MemoryPressure => MemoryPercent(o) >= 95
      case RootDisk => DiskPercent(o) >= 95
      case LoadHigh => LoadRatio(o) >= 2.0
      case SshBruteforce => SshAbove(o, SSH_CRITICAL_TOTAL, SSH_CRITICAL_SOURCE)
      case WorkloadFailed(_) => true
      case ListenerAdded(_) => false;
    if critical then Critical else Warning
  }

  // A wildcard listener outside an established baseline. A complete collection
  // right after downtime only renews the baseline and reports no novelty.
  predicate Novel(key: Key, c: Context) {
    && key.ListenerAdded?
    && c.established
    && key.endpoint in Wildcards(c.current)
    && key.endpoint !in c.baseline
    && (ListenerMissing(c.current) || (c.previous.Some? && c.previous.value.online))
  }

  // The keys that hold after the observation.
  predicate Emits(key: Key, c: Context) {
    match ReadingOf(key, c.current)
    case Raised => true
    case Held => key in c.active || Novel(key, c)
    case Silent => key in c.active || Novel(key, c)
    case Cleared => false
  }

  function SignalFor(key: Key, c: Context): Signal
    requires Emits(key, c)
  {
    if key in c.active && Missing(key, c.current)
    then Carried(c.active[key])
    else
      assert Missing(key, c.current) ==> ReadingOf(key, c.current).Silent? || key.WorkloadFailed?;
      Signal(c.current.host, KindOf(key), SeverityOf(key, c.current), key)
  }

  function Carried(event: Event): Signal {
    Signal(event.host, event.kind, event.severity, event.key)
  }

  ghost predicate ContextOk(c: Context) {
    forall k :: k in c.active ==> c.active[k].key == k && c.active[k].host == c.current.host
  }

  function Keys(signals: seq<Signal>): set<Key> {
    set s <- signals :: s.key
  }

  predicate DistinctKeys(signals: seq<Signal>) {
    forall i, j :: 0 <= i < j < |signals| ==> signals[i].key != signals[j].key
  }

  // A partial list of the right signals, none of them twice.
  ghost predicate Sound(signals: seq<Signal>, c: Context) {
    && DistinctKeys(signals)
    && forall s :: s in signals ==> Emits(s.key, c) && s == SignalFor(s.key, c)
  }

  // Carry the active events of the wanted keys.
  method CarryAll(c: Context, wanted: set<Key>, before: seq<Signal>) returns (signals: seq<Signal>)
    requires ContextOk(c) && Sound(before, c)
    requires forall k :: k in wanted ==> k in c.active && k !in Keys(before) && Emits(k, c) && Missing(k, c.current)
    ensures Sound(signals, c) && Keys(signals) == Keys(before) + wanted
  {
    signals := AppendCarried(c.active, wanted, before);
    forall s | s in signals ensures Emits(s.key, c) && s == SignalFor(s.key, c) {
      assert s in before || s.key in wanted;
    }
  }

  method AppendCarried(active: map<Key, Event>, wanted: set<Key>, before: seq<Signal>) returns (signals: seq<Signal>)
    requires DistinctKeys(before) && wanted !! Keys(before)
    requires forall k :: k in wanted ==> k in active && active[k].key == k
    ensures DistinctKeys(signals) && Keys(signals) == Keys(before) + wanted
    ensures forall s :: s in signals ==> s in before || (s.key in wanted && s == Carried(active[s.key]))
  {
    signals := before;
    var done, todo := {}, wanted;
    while todo != {}
      invariant done + todo == wanted && done !! todo
      invariant DistinctKeys(signals) && Keys(signals) == Keys(before) + done
      invariant forall s :: s in signals ==> s in before || (s.key in done && s == Carried(active[s.key]))
      decreases todo
    {
      var k :| k in todo;
      assert k !in Keys(signals);
      signals := signals + [Carried(active[k])];
      done, todo := done + {k}, todo - {k};
    }
  }

  method Emit(key: Key, severity: Severity, c: Context, before: seq<Signal>) returns (signals: seq<Signal>)
    requires Sound(before, c) && key !in Keys(before)
    requires Emits(key, c) && SignalFor(key, c) == Signal(c.current.host, KindOf(key), severity, key)
    ensures Sound(signals, c) && Keys(signals) == Keys(before) + {key}
  {
    var s := Signal(c.current.host, KindOf(key), severity, key);
    signals := before + [s];
    assert forall t :: t in signals ==> t in before || t == s;
  }

  predicate IsResource(key: Key) {
    key.MemoryPressure? || key.RootDisk? || key.LoadHigh?
  }

  // Keys a category contributes, as a set comparison that survives appending.
  ghost predicate Adds(before: seq<Signal>, after: seq<Signal>, family: Key -> bool, c: Context) {
    forall k :: k in Keys(after) <==> k in Keys(before) || (family(k) && Emits(k, c))
  }

  method ResourceSignals(c: Context, before: seq<Signal>) returns (signals: seq<Signal>)
    requires ContextOk(c) && c.current.online && Sound(before, c)
    requires forall k :: k in Keys(before) ==> !IsResource(k)
    ensures Sound(signals, c) && Adds(before, signals, IsResource, c)
  {
    var o := c.current;
    if o.resources.None? {
      signals := CarryAll(c, (set k <- c.active | IsResource(k)), before);
      return;
    }
    signals := MemorySignals(c, before);
    signals := DiskSignals(c, signals);
    signals := LoadSignals(c, signals);
  }

  method MemorySignals(c: Context, before: seq<Signal>) returns (signals: seq<Signal>)
    requires ContextOk(c) && c.current.online && c.current.resources.Some?
    requires Sound(before, c) && MemoryPressure !in Keys(before)
    ensures Sound(signals, c)
    ensures Keys(signals) == if Emits(MemoryPressure, c) then Keys(before) + {MemoryPressure} else Keys(before)
  {
    var o := c.current;
    signals := before;
    if MemoryMissing(o) {
      if MemoryPressure in c.active {
        signals := CarryAll(c, {MemoryPressure}, signals);
      }
    } else {
      var memory := UsagePercent(o.resources.value.memory.used, o.resources.value.memory.total);
      if memory >= MEMORY_OPEN || (MemoryPressure in c.active && memory >= MEMORY_CLEAR) {
        signals := Emit(MemoryPressure, if memory >= 95 then Critical else Warning, c, signals);
      }
    }
  }

  method DiskSignals(c: Context, before: seq<Signal>) returns (signals: seq<Signal>)
    requires ContextOk(c) && c.current.online && c.current.resources.Some?
    requires Sound(before, c) && RootDisk !in Keys(before)
    ensures Sound(signals, c)
    ensures Keys(signals) == if Emits(RootDisk, c) then Keys(before) + {RootDisk} else Keys(before)
  {
    var o := c.current;
    signals := before;
    if DiskMissing(o) {
      if RootDisk in c.active {
        signals := CarryAll(c, {RootDisk}, signals);
      }
    } else {
      var used := FirstRootUsage(o.resources.value.disks);
      if used >= DISK_OPEN || (RootDisk in c.active && used >= DISK_CLEAR) {
        signals := Emit(RootDisk, if used >= 95 then Critical else Warning, c, signals);
      }
    }
  }

  method LoadSignals(c: Context, before: seq<Signal>) returns (signals: seq<Signal>)
    requires ContextOk(c) && c.current.online && c.current.resources.Some?
    requires Sound(before, c) && LoadHigh !in Keys(before)
    ensures Sound(signals, c)
    ensures Keys(signals) == if Emits(LoadHigh, c) then Keys(before) + {LoadHigh} else Keys(before)
  {
    var o := c.current;
    signals := before;
    if LoadMissing(o) {
      if LoadHigh in c.active {
        signals := CarryAll(c, {LoadHigh}, signals);
      }
    } else {
      var ratio := o.resources.value.load1 / (o.resources.value.cpus as real);
      if ratio >= LOAD_OPEN || (LoadHigh in c.active && ratio >= LOAD_CLEAR) {
        signals := Emit(LoadHigh, if ratio >= 2.0 then Critical else Warning, c, signals);
      }
    }
  }

  method FirstRootUsage(disks: seq<Disk>) returns (used: int)
    requires exists i | 0 <= i < |disks| :: disks[i].mount == "/"
    ensures used == RootUsage(disks)
  {
    var i := 0;
    while disks[i].mount != "/"
      invariant 0 <= i < |disks|
      invariant forall j | 0 <= j < i :: disks[j].mount != "/"
      invariant exists j | i <= j < |disks| :: disks[j].mount == "/"
      invariant RootUsage(disks) == RootUsage(disks[i..])
      decreases |disks| - i
    {
      assert disks[i..][1..] == disks[i + 1..];
      i := i + 1;
      assert exists j | 0 <= j < |disks[i..]| :: disks[i..][j].mount == "/" by {
        var j :| i - 1 <= j < |disks| && disks[j].mount == "/";
        assert disks[i..][j - i].mount == "/";
      }
    }
    used := UsagePercent(disks[i].used, disks[i].total);
  }

  method SshSignals(c: Context, before: seq<Signal>) returns (signals: seq<Signal>)
    requires ContextOk(c) && c.current.online && Sound(before, c) && SshBruteforce !in Keys(before)
    ensures Sound(signals, c) && Adds(before, signals, (k: Key) => k.SshBruteforce?, c)
  {
    signals := before;
    if c.current.ssh.None? {
      if SshBruteforce in c.active {
        signals := CarryAll(c, {SshBruteforce}, signals);
      }
      return;
    }
    var ssh := c.current.ssh.value;
    var topSource := 0;
    for i := 0 to |ssh.sources|
      invariant topSource == TopSource(ssh.sources[..i])
    {
      assert ssh.sources[..i + 1][..i] == ssh.sources[..i];
      if ssh.sources[i].count > topSource {
        topSource := ssh.sources[i].count;
      }
    }
    assert ssh.sources[..|ssh.sources|] == ssh.sources;
    var aboveOpen := ssh.failedTotal >= SSH_OPEN_TOTAL || topSource >= SSH_OPEN_SOURCE;
    var aboveClear := ssh.failedTotal >= SSH_CLEAR_TOTAL || topSource >= SSH_CLEAR_SOURCE;
    if aboveOpen || (SshBruteforce in c.active && aboveClear) {
      var critical := ssh.failedTotal >= SSH_CRITICAL_TOTAL || topSource >= SSH_CRITICAL_SOURCE;
      signals := Emit(SshBruteforce, if critical then Critical else Warning, c, signals);
    }
  }

  method WorkloadSignals(c: Context, before: seq<Signal>) returns (signals: seq<Signal>)
    requires ContextOk(c) && c.current.online && Sound(before, c)
    requires forall k :: k in Keys(before) ==> !k.WorkloadFailed?
    ensures Sound(signals, c) && Adds(before, signals, (k: Key) => k.WorkloadFailed?, c)
  {
    var o := c.current;
    var carried := set k <- c.active | k.WorkloadFailed? && WorkloadMissing(o, k.workload);
    signals := CarryAll(c, carried, before);
    if o.workloads.None? {
      return;
    }
    signals := FailingSignals(c, carried, signals, Keys(before));
    forall k: Key | k.WorkloadFailed? ensures k in Keys(signals) <==> Emits(k, c) {
    }
  }

  lemma FailureSignal(c: Context, w: string)
    requires c.current.online && HasFailing(c.current, w)
    requires WorkloadFailed(w) in c.active ==> !WorkloadMissing(c.current, w)
    ensures Emits(WorkloadFailed(w), c)
    ensures SignalFor(WorkloadFailed(w), c) == Signal(c.current.host, KindOf(WorkloadFailed(w)), Critical, WorkloadFailed(w))
  {
  }

  method FailingSignals(c: Context, carried: set<Key>, before: seq<Signal>, ghost others: set<Key>) returns (signals: seq<Signal>)
    requires ContextOk(c) && c.current.online && c.current.workloads.Some? && Sound(before, c)
    requires Keys(before) == others + carried && forall k :: k in others ==> !k.WorkloadFailed?
    requires forall k :: k in c.active && k.WorkloadFailed? && WorkloadMissing(c.current, k.workload) ==> k in carried
    ensures Sound(signals, c)
    ensures forall k :: k in Keys(signals) <==>
      k in others || k in carried || (k.WorkloadFailed? && HasFailing(c.current, k.workload))
  {
    var o := c.current;
    var seen := carried;
    signals := before;
    for i := 0 to |o.workloads.value|
      invariant Sound(signals, c) && Keys(signals) == others + seen
      invariant forall k :: k in seen <==> k in carried || (k.WorkloadFailed? && FailsBefore(o, k.workload, i))
    {
      var w := o.workloads.value[i];
      var key := WorkloadFailed(w.key);
      FailsSnoc(o, i);
      if Failing(w) && key !in seen {
        FailureSignal(c, w.key);
        signals := Emit(key, Critical, c, signals);
        seen := seen + {key};
      }
    }
    forall k: Key | k.WorkloadFailed? ensures FailsBefore(o, k.workload, |o.workloads.value|) <==> HasFailing(o, k.workload) {
    }
  }

  predicate FailsBefore(o: Observation, workload: string, n: nat)
    requires o.workloads.Some? && n <= |o.workloads.value|
  {
    exists i | 0 <= i < n :: o.workloads.value[i].key == workload && Failing(o.workloads.value[i])
  }

  lemma FailsSnoc(o: Observation, n: nat)
    requires o.workloads.Some? && n < |o.workloads.value|
    ensures var w := o.workloads.value[n];
      forall key :: FailsBefore(o, key, n + 1) <==> FailsBefore(o, key, n) || (Failing(w) && w.key == key)
  {
    var w := o.workloads.value[n];
    if Failing(w) {
      assert o.workloads.value[n].key == w.key;
      assert FailsBefore(o, w.key, n + 1);
    }
    forall key | FailsBefore(o, key, n) ensures FailsBefore(o, key, n + 1) {
      var i :| 0 <= i < n && o.workloads.value[i].key == key && Failing(o.workloads.value[i]);
    }
  }

  method ListenerSignals(c: Context, before: seq<Signal>) returns (signals: seq<Signal>)
    requires ContextOk(c) && c.current.online && Sound(before, c)
    requires forall k :: k in Keys(before) ==> !k.ListenerAdded?
    ensures Sound(signals, c) && Adds(before, signals, (k: Key) => k.ListenerAdded?, c)
  {
    var o := c.current;
    var wildcard := WildcardKeys(o);
    var establishing := !ListenerMissing(o) && (!c.established || c.previous.None? || !c.previous.value.online);
    var emitted: set<Key> := {};
    signals := before;
    if ListenerMissing(o) {
      emitted := set k <- c.active | k.ListenerAdded?;
      signals := CarryAll(c, emitted, before);
    }
    var done, todo := {}, wildcard;
    while todo != {}
      invariant done + todo == wildcard && done !! todo
      invariant Sound(signals, c) && Keys(signals) == Keys(before) + emitted
      invariant forall k :: k in emitted <==> k.ListenerAdded? && Emits(k, c) && (k.endpoint in done || ListenerCarried(k, c))
      decreases todo
    {
      var e :| e in todo;
      var key := ListenerAdded(e);
      var opens :=
        if ListenerMissing(o) then c.established && e !in c.baseline && key !in emitted
        else if establishing then key in c.active
        else key in c.active || e !in c.baseline;
      if opens {
        signals := Emit(key, Warning, c, signals);
        emitted := emitted + {key};
      }
      done, todo := done + {e}, todo - {e};
    }
  }

  predicate ListenerCarried(key: Key, c: Context) {
    key in c.active && ListenerMissing(c.current)
  }

  method WildcardKeys(o: Observation) returns (keys: set<string>)
    ensures keys == Wildcards(o)
  {
    keys := {};
    if !o.online {
      return;
    }
    for i := 0 to |o.endpoints|
      invariant keys == set j | 0 <= j < i && o.endpoints[j].wildcard :: o.endpoints[j].key
    {
      if o.endpoints[i].wildcard {
        keys := keys + {o.endpoints[i].key};
      }
    }
  }

  // The whole evaluation: exactly the keys that hold, each signalled once.
  method EvaluateEventSignals(c: Context) returns (signals: seq<Signal>)
    requires ContextOk(c)
    ensures Sound(signals, c)
    ensures forall k :: k in Keys(signals) <==> Emits(k, c)
  {
    if !c.current.online {
      signals := CarryAll(c, (set k <- c.active | !k.HostOffline?), []);
      signals := Emit(HostOffline, Critical, c, signals);
      return;
    }
    signals := ResourceSignals(c, []);
    assert forall k :: k in Keys(signals) <==> IsResource(k) && Emits(k, c);
    signals := SshSignals(c, signals);
    assert forall k :: k in Keys(signals) <==> (IsResource(k) || k.SshBruteforce?) && Emits(k, c);
    signals := WorkloadSignals(c, signals);
    assert forall k :: k in Keys(signals) <==> (IsResource(k) || k.SshBruteforce? || k.WorkloadFailed?) && Emits(k, c);
    signals := ListenerSignals(c, signals);
  }
}
