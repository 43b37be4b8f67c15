// The rules of internal/hub/event_rules.go in terms of the collected values.
module Evidence {
  import opened Text
  import opened Telemetry

  // A warning of the collection holds this text somewhere.
  ghost predicate Warned(o: Observation, text: string) {
    exists i, before, after :: 0 <= i < |o.warnings| && o.warnings[i] == before + text + after
  }

  // The telemetry of a category is missing from an online host.
  ghost predicate Absent(key: Key, o: Observation) {
    match key
    case HostOffline => false
    case MemoryPressure => o.resources.None? || o.resources.value.memory.total <= 0 || Warned(o, "meminfo")
    case RootDisk =>
      o.resources.None? || Warned(o, "采集磁盘失败") || forall disk :: disk in o.resources.value.disks ==> disk.mount != "/"
    case LoadHigh => o.resources.None? || o.resources.value.cpus <= 0 || Warned(o, "loadavg")
    case SshBruteforce => o.ssh.None?
    case WorkloadFailed(w) =>
      || o.workloads.None? || Warned(o, "服务发现采集失败")
      || ("docker:" <= w && Warned(o, "docker ps 失败"))
      || ("systemd:" <= w && Warned(o, "systemd unit 采集失败"))
      || (!("docker:" <= w) && !("systemd:" <= w) && Warned(o, "进程来源采集失败"))
    case ListenerAdded(_) =>
      o.workloads.None? || Warned(o, "服务发现采集失败") || Warned(o, "docker ps 失败") || Warned(o, "ss 采集失败")
  }

  // The first disk mounted at the root.
  ghost predicate RootAt(disks: seq<Disk>, i: int) {
    0 <= i < |disks| && disks[i].mount == "/" && forall j :: 0 <= j < i ==> disks[j].mount != "/"
  }

  predicate UsedAtLeast(used: int, total: int, percent: int) {
    used > 0 && total > 0 && used * 100 >= percent * total
  }

  ghost predicate RootUsed(disks: seq<Disk>, percent: int) {
    exists i :: RootAt(disks, i) && UsedAtLeast(disks[i].used, disks[i].total, percent)
  }

  predicate FailureWords(state: string, health: string) {
    EqualFold(TrimSpace(state), "failed") || EqualFold(TrimSpace(health), "unhealthy")
  }

  ghost predicate FailedShown(o: Observation, w: string) {
    o.workloads.Some?
    && exists x :: x in o.workloads.value && x.key == w && FailureWords(x.state, x.health)
  }

  ghost predicate ListenerShown(o: Observation, e: string) {
    o.online && exists x :: x in o.endpoints && x.wildcard && x.key == e
  }

  // The value of a metric is at or above a threshold: a percentage, a load per
  // processor in tenths, or login failures in total or from one source.
  ghost predicate AtLeast(key: Key, o: Observation, percent: int, tenths: int, total: int, source: int) {
    match key
    case MemoryPressure =>
      o.resources.Some? && UsedAtLeast(o.resources.value.memory.used, o.resources.value.memory.total, percent)
    case RootDisk =>
      o.resources.Some? && RootUsed(o.resources.value.disks, percent)
    case LoadHigh =>
      o.resources.Some? && o.resources.value.load1 * 10.0 >= (tenths as real) * (o.resources.value.cpus as real)
    case SshBruteforce =>
      o.ssh.Some? && (o.ssh.value.failedTotal >= total || exists x :: x in o.ssh.value.sources && x.count >= source)
    case _ => false
  }

  // The condition of a key is reached.
  ghost predicate Shown(key: Key, o: Observation) {
    match key
    case HostOffline => !o.online
    case MemoryPressure => o.online && !Absent(key, o) && AtLeast(key, o, 85, 0, 0, 0)
    case RootDisk => o.online && !Absent(key, o) && AtLeast(key, o, 90, 0, 0, 0)
    case LoadHigh => o.online && !Absent(key, o) && AtLeast(key, o, 0, 15, 0, 0)
    case SshBruteforce => o.online && !Absent(key, o) && AtLeast(key, o, 0, 0, 30, 10)
    case WorkloadFailed(w) => o.online && FailedShown(o, w)
    case ListenerAdded(_) => false
  }

  // Recovery is proved: positive telemetry of an online host.
  ghost predicate Recovered(key: Key, o: Observation) {
    && o.online && !Absent(key, o)
    && match key
       case HostOffline => true
       case MemoryPressure => !AtLeast(key, o, 80, 0, 0, 0)
       case RootDisk => !AtLeast(key, o, 85, 0, 0, 0)
       case LoadHigh => !AtLeast(key, o, 0, 10, 0, 0)
       case SshBruteforce => !AtLeast(key, o, 0, 0, 10, 3)
       case WorkloadFailed(w) => !FailedShown(o, w)
       case ListenerAdded(e) => !ListenerShown(o, e)
  }

  // The observation says nothing about the key.
  ghost predicate Mute(key: Key, o: Observation) {
    !key.HostOffline? && (!o.online || Absent(key, o)) && !Shown(key, o)
  }

  // How bad it is.
  ghost predicate CriticalShown(key: Key, o: Observation) {
    match key
    case HostOffline => true
    case MemoryPressure => AtLeast(key, o, 95, 0, 0, 0)
    case RootDisk => AtLeast(key, o, 95, 0, 0, 0)
    case LoadHigh => AtLeast(key, o, 0, 20, 0, 0)
    case SshBruteforce => AtLeast(key, o, 0, 0, 100, 50)
    case WorkloadFailed(_) => true
    case ListenerAdded(_) => false
  }

  // ---- The rules agree with it ----

  lemma ContainsIffInside(text: string, needle: string)
    ensures Contains(text, needle) <==> exists before, after :: text == before + needle + after
  {
    if Contains(text, needle) {
      var i :| 0 <= i <= |text| - |needle| && MatchesAt(text, needle, i);
      assert text == text[..i] + needle + text[i + |needle|..];
    }
    if exists before, after :: text == before + needle + after {
      var before, after :| text == before + needle + after;
      assert MatchesAt(text, needle, |before|);
    }
  }

  lemma WarnedIff(o: Observation, needles: set<string>)
    ensures HasWarning(o, needles) <==> exists text :: text in needles && Warned(o, text)
  {
    if HasWarning(o, needles) {
      var i, text :| 0 <= i < |o.warnings| && text in needles && Contains(o.warnings[i], text);
      ContainsIffInside(o.warnings[i], text);
      assert Warned(o, text);
    }
    if exists text :: text in needles && Warned(o, text) {
      var text :| text in needles && Warned(o, text);
      var i, before, after :| 0 <= i < |o.warnings| && o.warnings[i] == before + text + after;
      ContainsIffInside(o.warnings[i], text);
    }
  }

  lemma OneWarning(o: Observation, text: string)
    ensures HasWarning(o, {text}) <==> Warned(o, text)
  {
    WarnedIff(o, {text});
  }

  lemma PercentIff(used: int, total: int, percent: int)
    requires 0 < percent <= 100
    ensures UsagePercent(used, total) >= percent <==> UsedAtLeast(used, total, percent)
  {
    if 0 < used < total {
      var p := UsagePercent(used, total);
      assert p * total <= 100 * used < (p + 1) * total;
      if p >= percent {
        MulMono(percent, p, total);
      } else {
        MulMono(p + 1, percent, total);
      }
    } else if used >= total > 0 {
      MulMono(percent, 100, total);
    }
  }

  lemma MulMono(a: int, b: int, c: int)
    requires a <= b && c >= 0
    ensures a * c <= b * c
  {
  }

  lemma {:induction false} RootUsageAt(disks: seq<Disk>, i: int)
    requires RootAt(disks, i)
    ensures RootUsage(disks) == UsagePercent(disks[i].used, disks[i].total)
  {
    if i > 0 {
      assert disks[1..][i - 1] == disks[i];
      RootUsageAt(disks[1..], i - 1);
    }
  }

  lemma {:induction false} RootExists(disks: seq<Disk>) returns (i: int)
    requires exists j | 0 <= j < |disks| :: disks[j].mount == "/"
    ensures RootAt(disks, i)
  {
    if disks[0].mount == "/" {
      i := 0;
    } else {
      var j :| 0 <= j < |disks| && disks[j].mount == "/";
      assert disks[1..][j - 1] == disks[j];
      var k := RootExists(disks[1..]);
      i := k + 1;
      forall j | 0 <= j < i ensures disks[j].mount != "/" {
        assert j > 0 ==> disks[j] == disks[1..][j - 1];
      }
    }
  }

  lemma RootUsedIff(disks: seq<Disk>, percent: int)
    requires (exists i | 0 <= i < |disks| :: disks[i].mount == "/") && 0 < percent <= 100
    ensures RootUsage(disks) >= percent <==> RootUsed(disks, percent)
  {
    var i := RootExists(disks);
    RootUsageAt(disks, i);
    PercentIff(disks[i].used, disks[i].total, percent);
    forall j | RootAt(disks, j) ensures j == i {
    }
  }

  // When telemetry is missing, family by family.
  lemma MissingIffAbsent(o: Observation)
    ensures MemoryMissing(o) <==> Absent(MemoryPressure, o)
    ensures DiskMissing(o) <==> Absent(RootDisk, o)
    ensures LoadMissing(o) <==> Absent(LoadHigh, o)
  {
    OneWarning(o, "meminfo");
    OneWarning(o, "采集磁盘失败");
    OneWarning(o, "loadavg");
    if o.resources.Some? {
      var disks := o.resources.value.disks;
      forall i | 0 <= i < |disks| ensures disks[i] in disks {
      }
    }
  }

  lemma WorkloadMissingIff(o: Observation, w: string)
    ensures WorkloadMissing(o, w) <==> Absent(WorkloadFailed(w), o)
  {
    OneWarning(o, "服务发现采集失败");
    OneWarning(o, "docker ps 失败");
    OneWarning(o, "systemd unit 采集失败");
    OneWarning(o, "进程来源采集失败");
    PrefixesDiffer(w);
  }

  lemma PrefixesDiffer(w: string)
    ensures !("docker:" <= w && "systemd:" <= w)
  {
    if "docker:" <= w {
      assert w[0] == 'd';
    }
  }

  lemma ListenerMissingIff(o: Observation, e: string)
    ensures ListenerMissing(o) <==> Absent(ListenerAdded(e), o)
  {
    WarnedIff(o, {SERVICE_DISCOVERY_FAILED, DOCKER_PS_FAILED, SS_FAILED});
  }

  lemma MemoryIff(o: Observation, percent: int)
    requires !MemoryMissing(o) && 0 < percent <= 100
    ensures MemoryPercent(o) >= percent <==> AtLeast(MemoryPressure, o, percent, 0, 0, 0)
  {
    PercentIff(o.resources.value.memory.used, o.resources.value.memory.total, percent);
  }

  lemma DiskIff(o: Observation, percent: int)
    requires !DiskMissing(o) && 0 < percent <= 100
    ensures DiskPercent(o) >= percent <==> AtLeast(RootDisk, o, percent, 0, 0, 0)
  {
    RootUsedIff(o.resources.value.disks, percent);
  }

  lemma LoadIff(o: Observation, tenths: int)
    requires !LoadMissing(o)
    ensures LoadRatio(o) * 10.0 >= (tenths as real) <==> AtLeast(LoadHigh, o, 0, tenths, 0, 0)
  {
    var load, cpus := o.resources.value.load1, o.resources.value.cpus as real;
    assert load / cpus * cpus == load;
    if load / cpus * 10.0 >= (tenths as real) {
      RealMono(tenths as real, load / cpus * 10.0, cpus);
    } else {
      RealMonoStrict(load / cpus * 10.0, tenths as real, cpus);
    }
  }

  lemma RealMono(a: real, b: real, c: real)
    requires a <= b && c > 0.0
    ensures a * c <= b * c
  {
  }

  lemma RealMonoStrict(a: real, b: real, c: real)
    requires a < b && c > 0.0
    ensures a * c < b * c
  {
  }

  lemma SshIff(o: Observation, total: int, source: int)
    requires o.ssh.Some? && source > 0
    ensures SshAbove(o, total, source) <==> AtLeast(SshBruteforce, o, 0, 0, total, source)
  {
    var sources := o.ssh.value.sources;
    if TopSource(sources) >= source {
      var i :| 0 <= i < |sources| && sources[i].count == TopSource(sources);
      assert sources[i] in sources;
    }
  }

  lemma FailingIff(o: Observation, w: string)
    ensures HasFailing(o, w) <==> FailedShown(o, w)
  {
    if o.workloads.Some? {
      var all := o.workloads.value;
      if HasFailing(o, w) {
        var i :| 0 <= i < |all| && all[i].key == w && Failing(all[i]);
        assert all[i] in all;
      }
      if FailedShown(o, w) {
        var x :| x in all && x.key == w && FailureWords(x.state, x.health);
        var i :| 0 <= i < |all| && all[i] == x;
      }
    }
  }

  lemma WildcardIff(o: Observation, e: string)
    ensures e in Wildcards(o) <==> ListenerShown(o, e)
  {
  }

  // A complete collection of the listeners.
  lemma CompleteIff(o: Observation, e: string)
    ensures CompleteListeners(o) <==> o.online && !Absent(ListenerAdded(e), o)
  {
    ListenerMissingIff(o, e);
  }

  // What each reading means.
  lemma ReadingMeans(key: Key, o: Observation)
    ensures ReadingOf(key, o).Raised? <==> Shown(key, o)
    ensures ReadingOf(key, o).Cleared? <==> Recovered(key, o)
    ensures ReadingOf(key, o).Silent? <==> Mute(key, o)
  {
    MissingIffAbsent(o);
    match key {
      case HostOffline =>
      case MemoryPressure =>
        if !MemoryMissing(o) {
          MemoryIff(o, 85);
          MemoryIff(o, 80);
        }
      case RootDisk =>
        if !DiskMissing(o) {
          DiskIff(o, 90);
          DiskIff(o, 85);
        }
      case LoadHigh =>
        if !LoadMissing(o) {
          LoadIff(o, 15);
          LoadIff(o, 10);
        }
      case SshBruteforce =>
        if o.ssh.Some? {
          SshIff(o, 30, 10);
          SshIff(o, 10, 3);
        }
      case WorkloadFailed(w) =>
        WorkloadMissingIff(o, w);
        FailingIff(o, w);
      case ListenerAdded(e) =>
        ListenerMissingIff(o, e);
        WildcardIff(o, e);
    }
  }
}
