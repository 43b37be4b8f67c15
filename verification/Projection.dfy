// The boundary between what an agent reports and what the hub stores (internal/hub/projection.go).
module Projection {
  import opened Text
  import opened Telemetry
  import RouteMerge

  datatype Port = Port(proto: string, bind: string, port: int)
  datatype Service = Service(key: string, status: string, health: string, ports: seq<Port>)

  // What one collection attempt brought; resources and logins arrive projected.
  datatype Scrape = Scrape(
    online: bool,
    resources: Option<Resources>,
    ssh: Option<SshFailures>,
    services: Option<seq<Service>>,
    warnings: seq<string>)

  datatype Address = Unspecified | Loopback | InTailnet | Specific
  datatype Exposure = Public | Local | Tailnet | Other

  // Go library calls: strings.ToLower, and what netip.ParseAddr makes of a text,
  // an IPv4 address inside an IPv6 one unwrapped.
  datatype Library = Library(lower: string -> string, address: string -> Option<Address>)

  predicate AddressChar(c: char) {
    '0' <= c <= '9' || 'a' <= c <= 'f' || 'A' <= c <= 'F' || c == '.' || c == ':'
  }

  // An address without zone is written with hexadecimal digits, dots and colons.
  ghost predicate LibraryOk(lib: Library) {
    && lib.lower("tcp") == "tcp" && lib.lower("udp") == "udp"
    && forall s, c :: lib.address(s).Some? && c in s && '%' !in s ==> AddressChar(c)
  }

  // ---- How far a bind address is exposed (internal/shared/exposure.go) ----

  predicate IsBracket(c: char) {
    c == '[' || c == ']'
  }

  function DropLeft(text: string): string {
    if text != "" && IsBracket(text[0]) then DropLeft(text[1..]) else text
  }

  function DropRight(text: string): string {
    if text != "" && IsBracket(text[|text| - 1]) then DropRight(text[..|text| - 1]) else text
  }

  // strings.Trim(strings.TrimSpace(bind), "[]")
  function Bare(bind: string): string {
    DropRight(DropLeft(TrimSpace(bind)))
  }

  // The address in front of a zone.
  function Unzoned(bind: string): string {
    Before(Bare(bind), '%')
  }

  function ClassifyBind(lib: Library, bind: string): Exposure {
    if Bare(bind) in {"", "*", "0.0.0.0", "::"} then Public
    else
      match lib.address(Unzoned(bind))
      case None => Public
      case Some(Unspecified) => Public
      case Some(Loopback) => Local
      case Some(InTailnet) => Tailnet
      case Some(Specific) => Other
  }

  // ---- Endpoints ----

  function Decimal(n: int): string {
    if n < 0 then "-" + RouteMerge.Itoa(-n) else RouteMerge.Itoa(n)
  }

  function Bracketed(bind: string): string {
    if ':' in bind then "[" + bind + "]" else bind
  }

  // net.JoinHostPort behind the protocol
  function EndpointKey(protocol: string, bind: string, port: int): string {
    protocol + "://" + Bracketed(bind) + ":" + Decimal(port)
  }

  function ProtocolOf(lib: Library, proto: string): string {
    var lowered := lib.lower(TrimSpace(proto));
    if lowered != "" && lowered[|lowered| - 1] == '6' then lowered[..|lowered| - 1] else lowered
  }

  function EndpointOf(lib: Library, workload: string, p: Port): Endpoint {
    var protocol := ProtocolOf(lib, p.proto);
    Endpoint(workload, EndpointKey(protocol, p.bind, p.port), protocol, p.port, ClassifyBind(lib, p.bind).Public?)
  }

  function EndpointKeys(endpoints: seq<Endpoint>): set<string> {
    set e <- endpoints :: e.key
  }

  // The endpoints of one service, the first of each key.
  function PortEndpoints(lib: Library, workload: string, ports: seq<Port>): seq<Endpoint> {
    if ports == [] then []
    else
      var rest, e := PortEndpoints(lib, workload, ports[..|ports| - 1]), EndpointOf(lib, workload, ports[|ports| - 1]);
      if e.key in EndpointKeys(rest) then rest else rest + [e]
  }

  function ServiceEndpoints(lib: Library, services: seq<Service>): seq<Endpoint> {
    if services == [] then []
    else
      var last := services[|services| - 1];
      ServiceEndpoints(lib, services[..|services| - 1]) + PortEndpoints(lib, last.key, last.ports)
  }

  function Workloads(services: seq<Service>): seq<Workload> {
    if services == [] then []
    else
      var last := services[|services| - 1];
      Workloads(services[..|services| - 1]) + [Workload(last.key, last.status, last.health)]
  }

  // ---- Observations ----

  // Observation.Validate (internal/domain/model.go)
  predicate Valid(o: Observation) {
    var workloads := if o.workloads.Some? then o.workloads.value else [];
    && Identifier(o.host, 128)
    && (o.ssh.Some? ==> o.online)
    && WorkloadsValid(workloads)
    && EndpointsValid(o.endpoints, workloads)
  }

  predicate WorkloadsValid(workloads: seq<Workload>) {
    && (forall i | 0 <= i < |workloads| :: Identifier(workloads[i].key, 512))
    && (forall i, j | 0 <= i < j < |workloads| :: workloads[i].key != workloads[j].key)
  }

  predicate EndpointsValid(endpoints: seq<Endpoint>, workloads: seq<Workload>) {
    && (forall i | 0 <= i < |endpoints| :: EndpointValid(endpoints[i], workloads))
    && (forall i, j | 0 <= i < j < |endpoints| ::
         endpoints[i].workload != endpoints[j].workload || endpoints[i].key != endpoints[j].key)
  }

  predicate EndpointValid(e: Endpoint, workloads: seq<Workload>) {
    && (exists i | 0 <= i < |workloads| :: workloads[i].key == e.workload)
    && Identifier(e.key, 512)
    && (e.protocol == "tcp" || e.protocol == "udp")
    && 1 <= e.port <= 65535
  }

  function Projected(lib: Library, host: HostId, at: int, report: Scrape): Observation {
    Observation(host, at, report.online, report.resources, report.ssh,
                if report.services.Some? then Some(Workloads(report.services.value)) else None,
                if report.services.Some? then ServiceEndpoints(lib, report.services.value) else [],
                report.warnings)
  }

  function Project(lib: Library, host: HostId, at: int, report: Scrape): Option<Observation> {
    if Valid(Projected(lib, host, at, report)) then Some(Projected(lib, host, at, report)) else None
  }

  method ProjectPorts(lib: Library, workload: string, ports: seq<Port>) returns (endpoints: seq<Endpoint>)
    ensures endpoints == PortEndpoints(lib, workload, ports)
  {
    endpoints := [];
    var seen: set<string> := {};
    for i := 0 to |ports|
      invariant endpoints == PortEndpoints(lib, workload, ports[..i])
      invariant seen == EndpointKeys(endpoints)
    {
      assert ports[..i + 1][..i] == ports[..i];
      var protocol := ProtocolOf(lib, ports[i].proto);
      var key := EndpointKey(protocol, ports[i].bind, ports[i].port);
      if key in seen {
        continue;
      }
      var e := Endpoint(workload, key, protocol, ports[i].port, ClassifyBind(lib, ports[i].bind).Public?);
      assert EndpointKeys(endpoints + [e]) == EndpointKeys(endpoints) + {key};
      seen := seen + {key};
      endpoints := endpoints + [e];
    }
    assert ports[..|ports|] == ports;
  }

  method ProjectServices(lib: Library, services: seq<Service>) returns (workloads: seq<Workload>, endpoints: seq<Endpoint>)
    ensures workloads == Workloads(services) && endpoints == ServiceEndpoints(lib, services)
  {
    workloads, endpoints := [], [];
    for i := 0 to |services|
      invariant workloads == Workloads(services[..i]) && endpoints == ServiceEndpoints(lib, services[..i])
    {
      assert services[..i + 1][..i] == services[..i];
      workloads := workloads + [Workload(services[i].key, services[i].status, services[i].health)];
      var own := ProjectPorts(lib, services[i].key, services[i].ports);
      endpoints := endpoints + own;
    }
    assert services[..|services|] == services;
  }

  method ProjectObservation(lib: Library, host: HostId, at: int, report: Scrape) returns (o: Option<Observation>)
    ensures o == Project(lib, host, at, report)
  {
    var workloads: Option<seq<Workload>>, endpoints: seq<Endpoint> := None, [];
    if report.services.Some? {
      var list, found := ProjectServices(lib, report.services.value);
      workloads, endpoints := Some(list), found;
    }
    var observation := Observation(host, at, report.online, report.resources, report.ssh, workloads, endpoints, report.warnings);
    o := if Valid(observation) then Some(observation) else None;
  }

  // The scraper reports nothing but the fact for a host it calls offline
  // (internal/hub/scraper.go).
  predicate Scraped(report: Scrape) {
    report.online || report == Scrape(false, None, None, None, [])
  }

  // An observation that can reach the store.
  ghost predicate Received(lib: Library, o: Observation) {
    exists report :: Scraped(report) && Project(lib, o.host, o.at, report) == Some(o)
  }

  // ---- What the keys of such an observation look like ----

  ghost predicate ListenerKey(lib: Library, key: string, protocol: string, bind: string, port: int) {
    && key == EndpointKey(protocol, bind, port) && Identifier(key, 512)
    && (protocol == "tcp" || protocol == "udp") && 1 <= port <= 65535
    && ClassifyBind(lib, bind).Public?
  }

  // The event keys the hub can form.
  ghost predicate Formable(lib: Library, key: Key) {
    match key
    case WorkloadFailed(w) => Identifier(w, 512)
    case ListenerAdded(e) => exists protocol, bind, port :: ListenerKey(lib, e, protocol, bind, port)
    case _ => true
  }

  ghost predicate Built(lib: Library, e: Endpoint) {
    exists p: Port :: e == EndpointOf(lib, e.workload, p)
  }

  lemma {:induction false} PortEndpointsBuilt(lib: Library, workload: string, ports: seq<Port>)
    ensures forall e :: e in PortEndpoints(lib, workload, ports) ==> Built(lib, e)
  {
    if ports != [] {
      PortEndpointsBuilt(lib, workload, ports[..|ports| - 1]);
      var e := EndpointOf(lib, workload, ports[|ports| - 1]);
      assert Built(lib, e);
    }
  }

  lemma {:induction false} ServiceEndpointsBuilt(lib: Library, services: seq<Service>)
    ensures forall e :: e in ServiceEndpoints(lib, services) ==> Built(lib, e)
  {
    if services != [] {
      ServiceEndpointsBuilt(lib, services[..|services| - 1]);
      PortEndpointsBuilt(lib, services[|services| - 1].key, services[|services| - 1].ports);
    }
  }

  lemma ReceivedEndpoint(lib: Library, o: Observation, i: nat)
    requires Received(lib, o) && i < |o.endpoints|
    ensures Built(lib, o.endpoints[i]) && Identifier(o.endpoints[i].key, 512)
    ensures (o.endpoints[i].protocol == "tcp" || o.endpoints[i].protocol == "udp") && 1 <= o.endpoints[i].port <= 65535
  {
    var report :| Scraped(report) && Project(lib, o.host, o.at, report) == Some(o);
    ServiceEndpointsBuilt(lib, report.services.value);
    assert EndpointValid(o.endpoints[i], o.workloads.value);
  }

  // Every wildcard of an observation that reaches the store gives a key the
  // hub can form, and so does every failing workload.
  lemma ReceivedListener(lib: Library, o: Observation, key: string)
    requires Received(lib, o) && key in Wildcards(o)
    ensures Formable(lib, ListenerAdded(key))
  {
    var i :| 0 <= i < |o.endpoints| && o.endpoints[i].wildcard && o.endpoints[i].key == key;
    ReceivedEndpoint(lib, o, i);
    var e := o.endpoints[i];
    var p: Port :| e == EndpointOf(lib, e.workload, p);
    assert ListenerKey(lib, key, e.protocol, p.bind, p.port);
  }

  lemma FailingIsNamed(workloads: seq<Workload>, w: string)
    requires WorkloadsValid(workloads) && exists i | 0 <= i < |workloads| :: workloads[i].key == w && Failing(workloads[i])
    ensures Identifier(w, 512)
  {
  }

  lemma ReceivedWorkload(lib: Library, o: Observation, w: string)
    requires Received(lib, o) && HasFailing(o, w)
    ensures Formable(lib, WorkloadFailed(w))
  {
    FailingIsNamed(o.workloads.value, w);
  }

  // ---- Reports of one service ----

  lemma OneService(lib: Library, s: Service)
    ensures Workloads([s]) == [Workload(s.key, s.status, s.health)]
    ensures ServiceEndpoints(lib, [s]) == PortEndpoints(lib, s.key, s.ports)
  {
    assert [s][..0] == [];
    assert Workloads([]) == [] && ServiceEndpoints(lib, []) == [];
  }

  lemma OnePort(lib: Library, workload: string, p: Port)
    ensures PortEndpoints(lib, workload, [p]) == [EndpointOf(lib, workload, p)]
  {
    assert [p][..0] == [];
    assert PortEndpoints(lib, workload, []) == [];
  }

  lemma WorkloadReport(lib: Library, host: HostId, at: int, w: string)
    requires Identifier(host, 128) && Identifier(w, 512)
    ensures Received(lib, Observation(host, at, true, None, None, Some([Workload(w, "failed", "")]), [], []))
  {
    var service := Service(w, "failed", "", []);
    var report := Scrape(true, None, None, Some([service]), []);
    OneService(lib, service);
    assert Project(lib, host, at, report).Some?;
  }

  lemma PlainProtocol(lib: Library, p: string)
    requires LibraryOk(lib) && (p == "tcp" || p == "udp")
    ensures ProtocolOf(lib, p) == p
  {
    assert TrimSpace("tcp") == "tcp" && TrimSpace("udp") == "udp";
  }

  lemma ListenerReport(lib: Library, host: HostId, at: int, key: string, p: string, bind: string, port: int)
    requires LibraryOk(lib) && Identifier(host, 128) && ListenerKey(lib, key, p, bind, port)
    ensures Received(lib, Observation(host, at, true, None, None, Some([Workload("w", "running", "")]),
                                      [Endpoint("w", key, p, port, true)], []))
  {
    var service := Service("w", "running", "", [Port(p, bind, port)]);
    var report := Scrape(true, None, None, Some([service]), []);
    OneService(lib, service);
    OnePort(lib, "w", Port(p, bind, port));
    PlainProtocol(lib, p);
    assert [Workload("w", "running", "")][0].key == "w";
    assert EndpointValid(Endpoint("w", key, p, port, true), [Workload("w", "running", "")]);
    assert Project(lib, host, at, report).Some?;
  }
}
