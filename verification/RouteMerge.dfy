// Normalising and merging discovered proxy routes
// (internal/agent/proxy_routes.go).
module RouteMerge {
  import opened Text
  import opened StringOrder

  datatype Kind = Unset | Unknown | Site | Static | Proxy | Other(name: string)

  datatype Route = Route(
    workload: string,
    kind: Kind,
    scheme: string,
    host: string,
    port: int,
    path: string,
    upstreams: seq<string>)

  // Go library calls: strings.ToLower, net.ParseIP (is the text an address?)
  // and the URL work behind sanitizeUpstream, which yields "" for a refusal.
  datatype Library = Library(lower: string -> string, isAddress: string -> bool, sanitize: string -> string)

  predicate AddressChar(c: char) {
    AlphaNumeric(c) || c == '.' || c == ':'
  }

  // What those calls keep: lowering and sanitising twice is doing it once, and
  // an address is written with digits, letters, dots and colons.
  ghost predicate LibraryOk(lib: Library) {
    && (forall s :: lib.lower(lib.lower(s)) == lib.lower(s))
    && (forall s :: lib.sanitize(lib.sanitize(s)) == lib.sanitize(s))
    && (forall s, c :: lib.isAddress(s) && c in s ==> AddressChar(c))
  }

  // ---- Validation ----

  const NUL := '\0'

  predicate AlphaNumeric(c: char) {
    'a' <= c <= 'z' || 'A' <= c <= 'Z' || '0' <= c <= '9'
  }

  predicate LabelOk(part: string) {
    && 1 <= |part| <= 63 && AlphaNumeric(part[0]) && AlphaNumeric(part[|part| - 1])
    && forall i | 1 <= i < |part| - 1 :: AlphaNumeric(part[i]) || part[i] == '-'
  }

  predicate HostOk(host: string, allowEmpty: bool, isAddress: string -> bool) {
    if host == "" then allowEmpty
    else
      && |host| <= 253 && host[|host| - 1] != '.'
      && (isAddress(host)
          || ((forall c | c in host :: c !in {'/', ':', '@', '?', '#', '[', ']'})
              && forall part | part in Split(host, '.') :: LabelOk(part)))
  }

  predicate PathOk(path: string) {
    path != "" && |path| <= 512 && path[0] == '/' && '?' !in path && '#' !in path && !HasControl(path)
  }

  predicate WorkloadOk(key: string) {
    8 <= |key| <= 512 && ("docker:" <= key || "systemd:" <= key) && !HasControl(key)
  }

  predicate KindOk(kind: Kind) {
    kind.Unknown? || kind.Proxy? || kind.Static? || kind.Site?
  }

  function TrimDot(text: string): string {
    if text != "" && text[|text| - 1] == '.' then text[..|text| - 1] else text
  }

  function Cap(upstreams: seq<string>): seq<string> {
    if |upstreams| > 16 then upstreams[..16] else upstreams
  }

  // The fields of a route after trimming, lowering and defaulting.
  function Trimmed(lib: Library, route: Route): Route {
    route.(
      scheme := lib.lower(TrimSpace(route.scheme)),
      host := lib.lower(TrimDot(TrimSpace(route.host))),
      path := if TrimSpace(route.path) == "" then "/" else TrimSpace(route.path),
      kind := if route.kind.Unset? then (if route.upstreams != [] then Proxy else Unknown) else route.kind)
  }

  predicate FieldsOk(lib: Library, route: Route) {
    && WorkloadOk(route.workload) && KindOk(route.kind)
    && (route.scheme == "http" || route.scheme == "https") && 1 <= route.port <= 65535
    && HostOk(route.host, true, lib.isAddress) && PathOk(route.path)
  }

  ghost function Sanitized(lib: Library, upstreams: seq<string>): set<string> {
    set u | u in upstreams && lib.sanitize(u) != "" :: lib.sanitize(u)
  }

  ghost function Normalize(lib: Library, route: Route): Option<Route> {
    var trimmed := Trimmed(lib, route);
    if !FieldsOk(lib, trimmed) then None
    else Some(trimmed.(upstreams := Cap(Ordered(Sanitized(lib, route.upstreams)))))
  }

  method NormalizeProxyRoute(lib: Library, route: Route) returns (result: Option<Route>)
    ensures result == Normalize(lib, route)
  {
    var trimmed := Trimmed(lib, route);
    if !FieldsOk(lib, trimmed) {
      return None;
    }
    var kept: seq<string> := [];
    for i := 0 to |route.upstreams|
      invariant Elements(kept) == Sanitized(lib, route.upstreams[..i]) && "" !in Elements(kept)
    {
      SanitizedSnoc(lib, route.upstreams[..i], route.upstreams[i]);
      assert route.upstreams[..i + 1] == route.upstreams[..i] + [route.upstreams[i]];
      var normalized := lib.sanitize(route.upstreams[i]);
      if normalized != "" {
        assert Elements(kept + [normalized]) == Elements(kept) + {normalized};
        kept := kept + [normalized];
      }
    }
    assert route.upstreams[..|route.upstreams|] == route.upstreams;
    var upstreams := UniqueSorted(kept);
    assert (set v | v in kept && v != "") == Elements(kept);
    result := Some(trimmed.(upstreams := Cap(upstreams)));
  }

  lemma SanitizedSnoc(lib: Library, upstreams: seq<string>, u: string)
    ensures Sanitized(lib, upstreams + [u])
         == Sanitized(lib, upstreams) + (if lib.sanitize(u) != "" then {lib.sanitize(u)} else {})
  {
    var all := upstreams + [u];
    assert forall v :: v in all <==> v in upstreams || v == u;
  }

  // ---- Merge ----

  function Itoa(n: nat): string {
    if n < 10 then [Digit(n)] else Itoa(n / 10) + [Digit(n % 10)]
  }

  function Digit(n: nat): char
    requires n < 10
  {
    ('0' as int + n) as char
  }

  lemma {:induction false} ItoaDigits(n: nat)
    ensures Itoa(n) != "" && forall c | c in Itoa(n) :: '0' <= c <= '9'
  {
    if n >= 10 {
      ItoaDigits(n / 10);
    }
  }

  function Key(route: Route): string {
    route.workload + ([NUL] + (route.scheme + ([NUL] + (route.host + ([NUL]
    + (Itoa(if route.port < 0 then 0 else route.port) + ([NUL] + route.path)))))))
  }

  function Rank(kind: Kind): nat {
    match kind
    case Site => 1
    case Static => 2
    case Proxy => 3
    case _ => 0
  }

  function Stronger(left: Kind, right: Kind): Kind {
    if Rank(right) > Rank(left) then right else left
  }

  ghost function Join(existing: Route, route: Route): Route {
    existing.(kind := Stronger(existing.kind, route.kind), upstreams := UniqueOrdered(existing.upstreams + route.upstreams))
  }

  ghost function Put(byKey: map<string, Route>, route: Route): map<string, Route> {
    byKey[Key(route) := if Key(route) in byKey then Join(byKey[Key(route)], route) else route]
  }

  ghost function ByKey(lib: Library, routes: seq<Route>): map<string, Route> {
    if routes == [] then map[]
    else
      var before, last := ByKey(lib, routes[..|routes| - 1]), Normalize(lib, routes[|routes| - 1]);
      if last.None? then before else Put(before, last.value)
  }

  // The map's routes in key order.
  ghost function Listed(byKey: map<string, Route>): (list: seq<Route>)
    ensures |list| == |Ordered(byKey.Keys)|
  {
    var keys := Ordered(byKey.Keys);
    seq(|keys|, i requires 0 <= i < |keys| => assert keys[i] in Elements(keys); byKey[keys[i]])
  }

  ghost function Merge(lib: Library, routes: seq<Route>): seq<Route> {
    Listed(ByKey(lib, routes))
  }

  method MergeProxyRoutes(lib: Library, routes: seq<Route>) returns (result: seq<Route>)
    ensures result == Merge(lib, routes)
  {
    var byKey: map<string, Route> := map[];
    for i := 0 to |routes|
      invariant byKey == ByKey(lib, routes[..i])
    {
      assert routes[..i + 1][..i] == routes[..i];
      var normalized := NormalizeProxyRoute(lib, routes[i]);
      if normalized.Some? {
        byKey := PutRoute(byKey, normalized.value);
      }
    }
    assert routes[..|routes|] == routes;
    result := ListRoutes(byKey);
  }

  method PutRoute(byKey: map<string, Route>, route: Route) returns (after: map<string, Route>)
    ensures after == Put(byKey, route)
  {
    var key := Key(route);
    if key in byKey {
      var existing := byKey[key];
      var upstreams := UniqueSorted(existing.upstreams + route.upstreams);
      after := byKey[key := existing.(kind := Stronger(existing.kind, route.kind), upstreams := upstreams)];
    } else {
      after := byKey[key := route];
    }
  }

  method ListRoutes(byKey: map<string, Route>) returns (result: seq<Route>)
    ensures result == Listed(byKey)
  {
    var keys := SortStrings(byKey.Keys);
    result := [];
    for i := 0 to |keys|
      invariant result == Listed(byKey)[..i]
    {
      assert keys[i] in Elements(keys);
      result := result + [byKey[keys[i]]];
    }
  }
}
