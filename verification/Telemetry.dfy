// One collection attempt of one host and what each event family reads from it
// (internal/domain/model.go, internal/hub/event_rules.go).
module Telemetry {
  import opened Text

  type HostId = string

  // Times and durations are in nanoseconds.
  const SECOND := 1_000_000_000

  datatype Memory = Memory(total: int, used: int)
  datatype Disk = Disk(mount: string, total: int, used: int)
  datatype Resources = Resources(cpus: int, load1: real, memory: Memory, disks: seq<Disk>)
  datatype SshSource = SshSource(address: string, count: int)
  datatype SshFailures = SshFailures(failedTotal: int, sources: seq<SshSource>)
  datatype Workload = Workload(key: string, state: string, health: string)
  datatype Endpoint = Endpoint(workload: string, key: string, protocol: string, port: int, wildcard: bool)

  datatype Observation = Observation(
    host: HostId,
    at: int,
    online: bool,
    resources: Option<Resources>,
    ssh: Option<SshFailures>,
    workloads: Option<seq<Workload>>,
    endpoints: seq<Endpoint>,
    warnings: seq<string>)

  // The rule family an event belongs to, with the part of its dedupe key that
  // varies inside the family.
  datatype Key =
    | HostOffline
    | MemoryPressure
    | RootDisk
    | LoadHigh
    | SshBruteforce
    | WorkloadFailed(workload: string)
    | ListenerAdded(endpoint: string)

  // The text a dedupe key is stored as.
  function DedupeKey(host: HostId, key: Key): string {
    host + ":" + KeySuffix(key)
  }

  function KeySuffix(key: Key): string {
    match key
    case HostOffline => "host:offline"
    case MemoryPressure => "resource:memory"
    case RootDisk => "resource:disk:/"
    case LoadHigh => "resource:load"
    case SshBruteforce => "ssh:authentication-failures"
    case WorkloadFailed(w) => "workload:" + w + ":failed"
    case ListenerAdded(e) => "listener:" + e
  }

  // What an observation says about one key: nothing, that the condition is
  // reached, that an open event stays open, or that recovery is proved. It is
  // silent when the telemetry of the family is missing, so that neither opening
  // nor recovery can rest on it.
  datatype Reading = Silent | Raised | Held | Cleared

  const MEMORY_OPEN := 85
  const MEMORY_CLEAR := 80
  const DISK_OPEN := 90
  const DISK_CLEAR := 85
  const LOAD_OPEN := 1.5
  const LOAD_CLEAR := 1.0
  const SSH_OPEN_TOTAL := 30
  const SSH_OPEN_SOURCE := 10
  const SSH_CLEAR_TOTAL := 10
  const SSH_CLEAR_SOURCE := 3
  const SSH_CRITICAL_TOTAL := 100
  const SSH_CRITICAL_SOURCE := 50

  const SERVICE_DISCOVERY_FAILED := "服务发现采集失败"
  const DOCKER_PS_FAILED := "docker ps 失败"
  const SS_FAILED := "ss 采集失败"

  // Percentage of a byte counter, kept inside 0..100 for malformed counters.
  function UsagePercent(used: int, total: int): (percent: int)
    ensures 0 <= percent <= 100
    ensures 0 < used < total ==> percent * total <= 100 * used < (percent + 1) * total
    ensures percent == 100 <==> used > 0 && total > 0 && used >= total
  {
    if used <= 0 || total <= 0 then 0
    else if used >= total then 100
    else
      assert used * 100 / total < 100;
      used * 100 / total
  }

  predicate HasWarning(o: Observation, needles: set<string>) {
    exists i, needle | 0 <= i < |o.warnings| && needle in needles :: Contains(o.warnings[i], needle)
  }

  predicate MemoryMissing(o: Observation) {
    o.resources.None? || o.resources.value.memory.total <= 0 || HasWarning(o, {"meminfo"})
  }

  predicate DiskMissing(o: Observation) {
    o.resources.None? || HasWarning(o, {"采集磁盘失败"})
    || forall i | 0 <= i < |o.resources.value.disks| :: o.resources.value.disks[i].mount != "/"
  }

  predicate LoadMissing(o: Observation) {
    o.resources.None? || o.resources.value.cpus <= 0 || HasWarning(o, {"loadavg"})
  }

  predicate WorkloadMissing(o: Observation, workload: string) {
    o.workloads.None?
    || HasWarning(o, {SERVICE_DISCOVERY_FAILED})
    || HasWarning(o, {if "docker:" <= workload then DOCKER_PS_FAILED
                      else if "systemd:" <= workload then "systemd unit 采集失败"
                      else "进程来源采集失败"})
  }

  predicate ListenerMissing(o: Observation) {
    o.workloads.None? || HasWarning(o, {SERVICE_DISCOVERY_FAILED, DOCKER_PS_FAILED, SS_FAILED})
  }

  // A collection that may replace the listener baseline.
  predicate CompleteListeners(o: Observation) {
    o.online && !ListenerMissing(o)
  }

  function Wildcards(o: Observation): set<string> {
    if o.online then set e <- o.endpoints | e.wildcard :: e.key else {}
  }

  predicate Failing(w: Workload) {
    EqualFold(TrimSpace(w.state), "failed") || EqualFold(TrimSpace(w.health), "unhealthy")
  }

  predicate HasFailing(o: Observation, workload: string) {
    o.workloads.Some?
    && exists i | 0 <= i < |o.workloads.value| :: o.workloads.value[i].key == workload && Failing(o.workloads.value[i])
  }

  // The first root filesystem of the list.
  function RootUsage(disks: seq<Disk>): int
    requires exists i | 0 <= i < |disks| :: disks[i].mount == "/"
  {
    if disks[0].mount == "/" then UsagePercent(disks[0].used, disks[0].total) else RootUsage(disks[1..])
  }

  function TopSource(sources: seq<SshSource>): (top: int)
    ensures top >= 0
    ensures forall i | 0 <= i < |sources| :: sources[i].count <= top
    ensures top == 0 || exists i | 0 <= i < |sources| :: sources[i].count == top
  {
    if sources == [] then 0
    else
      var rest := TopSource(sources[..|sources| - 1]);
      var last := sources[|sources| - 1].count;
      if last > rest then last else rest
  }

  function MemoryPercent(o: Observation): int
    requires !MemoryMissing(o)
  {
    UsagePercent(o.resources.value.memory.used, o.resources.value.memory.total)
  }

  function DiskPercent(o: Observation): int
    requires !DiskMissing(o)
  {
    RootUsage(o.resources.value.disks)
  }

  function LoadRatio(o: Observation): real
    requires !LoadMissing(o)
  {
    o.resources.value.load1 / (o.resources.value.cpus as real)
  }

  predicate SshAbove(o: Observation, total: int, source: int)
    requires o.ssh.Some?
  {
    o.ssh.value.failedTotal >= total || TopSource(o.ssh.value.sources) >= source
  }

  function Grade(open: bool, clear: bool): Reading {
    if open then Raised else if clear then Held else Cleared
  }

  function ReadingOf(key: Key, o: Observation): Reading {
    if key.HostOffline? then (if o.online then Cleared else Raised)
    else if !o.online then Silent
    else match key
      case MemoryPressure =>
        if MemoryMissing(o) then Silent
        else Grade(MemoryPercent(o) >= MEMORY_OPEN, MemoryPercent(o) >= MEMORY_CLEAR)
      case RootDisk =>
        if DiskMissing(o) then Silent
        else Grade(DiskPercent(o) >= DISK_OPEN, DiskPercent(o) >= DISK_CLEAR)
      case LoadHigh =>
        if LoadMissing(o) then Silent
        else Grade(LoadRatio(o) >= LOAD_OPEN, LoadRatio(o) >= LOAD_CLEAR)
      case SshBruteforce =>
        if o.ssh.None? then Silent
        else Grade(SshAbove(o, SSH_OPEN_TOTAL, SSH_OPEN_SOURCE), SshAbove(o, SSH_CLEAR_TOTAL, SSH_CLEAR_SOURCE))
      case WorkloadFailed(w) =>
        if HasFailing(o, w) then Raised else if WorkloadMissing(o, w) then Silent else Cleared
      case ListenerAdded(e) =>
        if ListenerMissing(o) then Silent else if e in Wildcards(o) then Held else Cleared
  }

  // Within one host two keys never share a text.
  lemma SameHostText(host: HostId, k1: Key, k2: Key)
    requires DedupeKey(host, k1) == DedupeKey(host, k2)
    ensures k1 == k2
  {
    var text := DedupeKey(host, k1);
    assert KeySuffix(k1) == text[|host| + 1..] == KeySuffix(k2);
    SuffixInjective(k1, k2);
  }

  lemma SuffixInjective(k1: Key, k2: Key)
    requires KeySuffix(k1) == KeySuffix(k2)
    ensures k1 == k2
  {
    var t := KeySuffix(k1);
    assert t[0] == match k1
      case HostOffline => 'h' case MemoryPressure => 'r' case RootDisk => 'r' case LoadHigh => 'r'
      case SshBruteforce => 's' case WorkloadFailed(_) => 'w' case ListenerAdded(_) => 'l';
    match k1 {
      case MemoryPressure => assert t[9] == 'm';
      case RootDisk => assert t[9] == 'd';
      case LoadHigh => assert t[9] == 'l';
      case WorkloadFailed(w) => assert w == t[9..|t| - 7] && k2.workload == t[9..|t| - 7];
      case ListenerAdded(e) => assert e == t[9..] && k2.endpoint == t[9..];
      case HostOffline =>
      case SshBruteforce =>
    }
  }

  // The prefix tests of the rules select exactly the keys of a family.
  lemma PrefixSelectsFamily(host: HostId, key: Key)
    ensures host + ":" + "resource:" <= DedupeKey(host, key) <==> key.MemoryPressure? || key.RootDisk? || key.LoadHigh?
    ensures host + ":" + "workload:" <= DedupeKey(host, key) <==> key.WorkloadFailed?
    ensures host + ":" + "listener:" <= DedupeKey(host, key) <==> key.ListenerAdded?
  {
    SuffixPrefixes(key);
    PrefixAfter(host + ":", "resource:", KeySuffix(key));
    PrefixAfter(host + ":", "workload:", KeySuffix(key));
    PrefixAfter(host + ":", "listener:", KeySuffix(key));
  }

  lemma SuffixPrefixes(key: Key)
    ensures "resource:" <= KeySuffix(key) <==> key.MemoryPressure? || key.RootDisk? || key.LoadHigh?
    ensures "workload:" <= KeySuffix(key) <==> key.WorkloadFailed?
    ensures "listener:" <= KeySuffix(key) <==> key.ListenerAdded?
  {
    var t := KeySuffix(key);
    assert t[0] == match key
      case HostOffline => 'h' case MemoryPressure => 'r' case RootDisk => 'r' case LoadHigh => 'r'
      case SshBruteforce => 's' case WorkloadFailed(_) => 'w' case ListenerAdded(_) => 'l';
  }

  lemma PrefixAfter(prefix: string, word: string, rest: string)
    ensures prefix + word <= prefix + rest <==> word <= rest
  {
    var long := prefix + rest;
    if prefix + word <= long {
      assert word == (prefix + word)[|prefix|..] == long[|prefix|..|prefix| + |word|];
      assert long[|prefix|..] == rest;
    }
    if word <= rest {
      assert rest == word + rest[|word|..];
      assert long == prefix + word + rest[|word|..];
    }
  }
}
