// Endpoints and observations in terms of the reported values (internal/hub/projection.go).
module ProjectionMeaning {
  import opened Text
  import opened Telemetry
  import opened Projection

  predicate Bracket(c: char) {
    c in "[]"
  }

  // What a bind address leaves between its brackets and blanks.
  ghost predicate Core(bind: string, core: string) {
    && (core != "" ==> !Bracket(core[0]) && !Bracket(core[|core| - 1]))
    && exists m, n :: CoreAt(TrimSpace(bind), core, m, n)
  }

  ghost predicate CoreAt(text: string, core: string, m: int, n: int) {
    && 0 <= m <= n <= |text| && core == text[m..n]
    && (forall i | 0 <= i < m :: Bracket(text[i])) && (forall i | n <= i < |text| :: Bracket(text[i]))
  }

  lemma {:induction false} LeftBrackets(text: string) returns (m: nat)
    ensures m <= |text| && DropLeft(text) == text[m..] && (forall i | 0 <= i < m :: Bracket(text[i]))
    ensures m < |text| ==> !Bracket(text[m])
  {
    m := 0;
    if text != "" && IsBracket(text[0]) {
      m := LeftBrackets(text[1..]);
      m := m + 1;
      assert forall i | 0 < i < |text| :: text[i] == text[1..][i - 1];
    }
  }

  lemma {:induction false} RightBrackets(text: string) returns (n: nat)
    ensures n <= |text| && DropRight(text) == text[..n] && (forall i | n <= i < |text| :: Bracket(text[i]))
    ensures n > 0 ==> !Bracket(text[n - 1])
  {
    n := |text|;
    if text != "" && IsBracket(text[n - 1]) {
      n := RightBrackets(text[..n - 1]);
    }
  }

  lemma BareIsCore(bind: string)
    ensures Core(bind, Bare(bind))
  {
    var text := TrimSpace(bind);
    var m := LeftBrackets(text);
    var rest := text[m..];
    var n := RightBrackets(rest);
    assert CoreAt(text, Bare(bind), m, m + n) by {
      assert forall i | m + n <= i < |text| :: text[i] == rest[i - m];
      assert text[m..m + n] == rest[..n];
    }
  }

  // An address that is reachable from everywhere: a wildcard as written, an
  // unspecified address, or what is no address at all. A zone does not count.
  predicate Everywhere(lib: Library, core: string) {
    || core == "" || core == "*" || core == "0.0.0.0" || core == "::"
    || lib.address(Before(core, '%')) == None
    || lib.address(Before(core, '%')) == Some(Unspecified)
  }

  ghost predicate ProtocolFrom(lib: Library, proto: string, protocol: string) {
    var lowered := lib.lower(TrimSpace(proto));
    if exists stem :: lowered == stem + "6" then lowered == protocol + "6" else protocol == lowered
  }

  // The endpoint of a port: its key is protocol, address and number, the
  // address in brackets if it has a colon.
  ghost predicate EndpointFrom(lib: Library, workload: string, p: Port, e: Endpoint) {
    && e.workload == workload && e.port == p.port && ProtocolFrom(lib, p.proto, e.protocol)
    && e.key == e.protocol + "://" + (if exists i | 0 <= i < |p.bind| :: p.bind[i] == ':' then "[" + p.bind + "]" else p.bind)
                + ":" + Decimal(p.port)
    && exists core :: Core(p.bind, core) && (e.wildcard <==> Everywhere(lib, core))
  }

  lemma EndpointMeans(lib: Library, workload: string, p: Port)
    ensures EndpointFrom(lib, workload, p, EndpointOf(lib, workload, p))
  {
    BareIsCore(p.bind);
    var lowered := lib.lower(TrimSpace(p.proto));
    if lowered != "" && lowered[|lowered| - 1] == '6' {
      assert lowered == lowered[..|lowered| - 1] + "6";
    }
  }

  // ---- Which reports are projected ----

  predicate Named(name: string, maximum: nat) {
    1 <= |name| <= maximum && forall i | 0 <= i < |name| :: name[i] >= ' ' && !('\U{7F}' <= name[i] <= '\U{9F}')
  }

  predicate Usable(o: Observation) {
    var workloads := o.workloads.GetOrElse([]);
    && Named(o.host, 128) && (o.ssh.Some? ==> o.online)
    && (forall i | 0 <= i < |workloads| :: Named(workloads[i].key, 512))
    && (forall i, j | 0 <= i < j < |workloads| :: workloads[i].key != workloads[j].key)
    && (forall i | 0 <= i < |o.endpoints| :: UsableEndpoint(o.endpoints[i], workloads))
    && (forall i, j | 0 <= i < j < |o.endpoints| && o.endpoints[i].workload == o.endpoints[j].workload :: o.endpoints[i].key != o.endpoints[j].key)
  }

  predicate UsableEndpoint(e: Endpoint, workloads: seq<Workload>) {
    && Named(e.key, 512) && e.protocol in {"tcp", "udp"} && 0 < e.port < 65536
    && exists w | w in workloads :: w.key == e.workload
  }

  lemma NamedIff(name: string, maximum: nat)
    ensures Identifier(name, maximum) <==> Named(name, maximum)
  {
    assert forall i | 0 <= i < |name| :: name[i] in name;
  }

  lemma EndpointIff(e: Endpoint, workloads: seq<Workload>)
    ensures EndpointValid(e, workloads) <==> UsableEndpoint(e, workloads)
  {
    NamedIff(e.key, 512);
    if w :| w in workloads && w.key == e.workload {
      var i :| 0 <= i < |workloads| && workloads[i] == w;
      assert workloads[i].key == e.workload;
    }
  }

  // A report is projected exactly when the observation made of it is usable.
  lemma ProjectMeans(lib: Library, host: HostId, at: int, report: Scrape)
    ensures var o := Projected(lib, host, at, report);
      && Project(lib, host, at, report) == (if Usable(o) then Some(o) else None)
      && o.host == host && o.at == at && o.online == report.online && o.resources == report.resources
      && o.ssh == report.ssh && o.warnings == report.warnings && (o.workloads.Some? <==> report.services.Some?)
  {
    var o := Projected(lib, host, at, report);
    var workloads := o.workloads.GetOrElse([]);
    NamedIff(host, 128);
    forall i | 0 <= i < |workloads| ensures Identifier(workloads[i].key, 512) <==> Named(workloads[i].key, 512) {
      NamedIff(workloads[i].key, 512);
    }
    forall i | 0 <= i < |o.endpoints| ensures EndpointValid(o.endpoints[i], workloads) <==> UsableEndpoint(o.endpoints[i], workloads) {
      EndpointIff(o.endpoints[i], workloads);
    }
  }
}
