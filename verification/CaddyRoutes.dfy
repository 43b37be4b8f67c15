// The line scanner that reads proxy routes from a Caddyfile
// (internal/agent/proxy_routes.go).
module CaddyRoutes {
  import opened Text
  import opened RouteMerge
  import ConfigSyntax

  datatype Address = Address(scheme: string, host: string, port: int)

  // `parseAddress` stands for parseCaddyAddress, whose URL and port parsing is
  // library work.
  datatype Env = Env(workload: string, parseAddress: string -> Option<Address>, lib: Library)

  // The scanner's variables. `paths` maps a depth to the path matcher of the
  // block that opened it.
  datatype Scan = Scan(
    depth: int,
    addresses: seq<Address>,
    siteDepth: int,
    routeCount: nat,
    paths: map<int, string>,
    routes: seq<Route>)

  const START := Scan(0, [], 0, 0, map[], [])

  // ---- One line ----

  function RoutesFor(env: Env, addresses: seq<Address>, kind: Kind, path: string, upstreams: seq<string>): (rs: seq<Route>)
    ensures |rs| == |addresses|
  {
    if addresses == [] then []
    else
      var a := addresses[0];
      [Route(env.workload, kind, a.scheme, a.host, a.port, path, upstreams)]
      + RoutesFor(env, addresses[1..], kind, path, upstreams)
  }

  function SiteRoutes(env: Env, addresses: seq<Address>): seq<Route> {
    RoutesFor(env, addresses, Site, "/", [])
  }

  function FinishSite(env: Env, s: Scan): Scan {
    Scan(s.depth, [], 0, 0, map[],
         if s.addresses != [] && s.routeCount == 0 then s.routes + SiteRoutes(env, s.addresses) else s.routes)
  }

  function Close(env: Env, s: Scan): Scan {
    var after := s.(depth := s.depth - 1, paths := s.paths - {s.depth});
    if s.addresses != [] && after.depth < s.siteDepth then FinishSite(env, after) else after
  }

  function CloseMany(env: Env, s: Scan, n: nat): Scan
    decreases n
  {
    if n == 0 then s else CloseMany(env, Close(env, s), n - 1)
  }

  function LeadingCloses(tokens: seq<string>): (n: nat)
    ensures n <= |tokens|
  {
    if tokens == [] || tokens[0] != "}" then 0 else 1 + LeadingCloses(tokens[1..])
  }

  // The words in front of the first opening brace, or all of them.
  function Head(tokens: seq<string>): (head: seq<string>)
    ensures |head| <= |tokens|
  {
    if tokens == [] || tokens[0] == "{" then [] else [tokens[0]] + Head(tokens[1..])
  }

  predicate Opens(tokens: seq<string>) {
    "{" in tokens
  }

  function ParsedParts(env: Env, parts: seq<string>): seq<Address> {
    if parts == [] then []
    else
      var parsed := env.parseAddress(TrimSpace(parts[0]));
      (if parsed.Some? then [parsed.value] else []) + ParsedParts(env, parts[1..])
  }

  // The site addresses of a header: its words, split at commas.
  function AddressesOf(env: Env, words: seq<string>): seq<Address> {
    if words == [] then [] else ParsedParts(env, Split(words[0], ',')) + AddressesOf(env, words[1..])
  }

  function OpenSite(env: Env, s: Scan, tokens: seq<string>): Scan {
    if s.addresses == [] && s.depth == 0 && Opens(tokens) then
      var found := AddressesOf(env, Head(tokens));
      if found == [] then s else s.(addresses := found, siteDepth := s.depth + 1)
    else s
  }

  function MatcherPath(raw: string): string {
    var path := TrimSpace(raw);
    if "/" <= path && PathOk(path) then path else ""
  }

  function FirstPath(words: seq<string>): string {
    if words == [] then ""
    else if MatcherPath(words[0]) != "" then MatcherPath(words[0])
    else FirstPath(words[1..])
  }

  // The path of the innermost block that has one, between two depths.
  function CurrentPath(paths: map<int, string>, from: int, to: int): string
    decreases to - from
  {
    if to < from then "/"
    else if to in paths && paths[to] != "" then paths[to]
    else CurrentPath(paths, from, to - 1)
  }

  predicate IsHandle(directive: string) {
    directive == "handle" || directive == "handle_path" || directive == "route"
  }

  function Upstreams(env: Env, args: seq<string>): seq<string> {
    if args == [] then []
    else
      var upstream := env.lib.sanitize(args[0]);
      (if upstream != "" then [upstream] else []) + Upstreams(env, args[1..])
  }

  // The path of a proxy: its own, else the inherited one.
  function ProxyPath(inherited: string, args: seq<string>): string {
    if args != [] && MatcherPath(args[0]) != "" then MatcherPath(args[0]) else inherited
  }

  // A leading path or named matcher is not an upstream.
  function ProxyTargets(args: seq<string>): seq<string> {
    if args != [] && (MatcherPath(args[0]) != "" || "@" <= args[0]) then args[1..] else args
  }

  function ProxyRoutes(env: Env, addresses: seq<Address>, inherited: string, args: seq<string>): seq<Route> {
    RoutesFor(env, addresses, Proxy, ProxyPath(inherited, args), Upstreams(env, ProxyTargets(args)))
  }

  function Directive(env: Env, s: Scan, tokens: seq<string>): Scan
    requires tokens != []
  {
    var args := if Head(tokens) == [] then [] else Head(tokens)[1..];
    if s.addresses == [] || s.depth < s.siteDepth then s
    else if IsHandle(tokens[0]) && Opens(tokens) then
      if FirstPath(args) == "" then s else s.(paths := s.paths[s.depth + 1 := FirstPath(args)])
    else if tokens[0] == "reverse_proxy" then
      var found := ProxyRoutes(env, s.addresses, CurrentPath(s.paths, s.siteDepth, s.depth), args);
      s.(routes := s.routes + found, routeCount := s.routeCount + |found|)
    else s
  }

  function Braces(env: Env, s: Scan, tokens: seq<string>): Scan
    decreases |tokens|
  {
    if tokens == [] then s
    else
      var after := if tokens[0] == "{" then s.(depth := s.depth + 1) else if tokens[0] == "}" then Close(env, s) else s;
      Braces(env, after, tokens[1..])
  }

  function ScanRest(env: Env, s: Scan, tokens: seq<string>): Scan {
    if tokens == [] then s else Braces(env, Directive(env, OpenSite(env, s, tokens), tokens), tokens)
  }

  function ScanLine(env: Env, s: Scan, tokens: seq<string>): Scan {
    var n := LeadingCloses(tokens);
    ScanRest(env, CloseMany(env, s, n), tokens[n..])
  }

  function ScanLines(env: Env, s: Scan, lines: seq<seq<string>>): Scan
    decreases |lines|
  {
    if lines == [] then s else ScanLines(env, ScanLine(env, s, lines[0]), lines[1..])
  }

  function Finished(env: Env, s: Scan): Scan {
    if s.addresses != [] then FinishSite(env, s) else s
  }

  // ---- The file ----

  const MAX_PROXY_CONFIG_BYTES := 0x40_0000

  // The tokens of each line; a line without any is skipped.
  function LexedLines(lines: seq<string>): seq<seq<string>> {
    if lines == [] then []
    else
      var tokens := ConfigSyntax.Lex(lines[0]);
      (if tokens == [] then [] else [tokens]) + LexedLines(lines[1..])
  }

  function RoutesFound(env: Env, content: string): seq<Route> {
    Finished(env, ScanLines(env, START, LexedLines(Split(content, '\n')))).routes
  }

  // The canonical routes of a file, or nothing for one over the size limit.
  ghost function ParsedRoutes(env: Env, content: string): Option<seq<Route>> {
    if |content| > MAX_PROXY_CONFIG_BYTES then None else Some(Merge(env.lib, RoutesFound(env, content)))
  }

  // ---- Trees ----

  // A directive, or a block with its header. Braces are not words.
  datatype Node = Line(words: seq<string>) | Block(words: seq<string>, children: seq<Node>)

  predicate Plain(words: seq<string>) {
    "{" !in words && "}" !in words
  }

  predicate TreeOk(nodes: seq<Node>) {
    nodes == [] ||
    (Plain(nodes[0].words) && (nodes[0].Block? ==> TreeOk(nodes[0].children)) && TreeOk(nodes[1..]))
  }

  // One directive a line; a block opens at the end of its header's line and
  // closes on a line of its own.
  function Lines(nodes: seq<Node>): seq<seq<string>> {
    if nodes == [] then [] else NodeLines(nodes[0]) + Lines(nodes[1..])
  }

  function NodeLines(node: Node): seq<seq<string>> {
    match node
    case Line(words) => [words]
    case Block(words, children) => [words + ["{"]] + (Lines(children) + [["}"]])
  }

  // ---- What a tree means ----

  function Args(words: seq<string>): seq<string> {
    if words == [] then [] else words[1..]
  }

  function OwnRoutes(env: Env, addresses: seq<Address>, path: string, words: seq<string>): seq<Route> {
    if words != [] && words[0] == "reverse_proxy" then ProxyRoutes(env, addresses, path, Args(words)) else []
  }

  // The path inside a block: that of its matcher if it routes by path, else
  // the one around it.
  function InnerPath(path: string, words: seq<string>): string {
    if words != [] && IsHandle(words[0]) && FirstPath(Args(words)) != "" then FirstPath(Args(words)) else path
  }

  // The proxies below a site, each at its own path, else the nearest enclosing
  // one.
  function Proxies(env: Env, addresses: seq<Address>, path: string, nodes: seq<Node>): seq<Route>
    decreases nodes
  {
    if nodes == [] then []
    else
      OwnRoutes(env, addresses, path, nodes[0].words)
      + (if nodes[0].Block? then Proxies(env, addresses, InnerPath(path, nodes[0].words), nodes[0].children) else [])
      + Proxies(env, addresses, path, nodes[1..])
  }

  // A top-level block is a site when its header holds an address.
  function SiteMeaning(env: Env, node: Node): seq<Route> {
    match node
    case Line(_) => []
    case Block(words, children) =>
      var addresses := AddressesOf(env, words);
      var proxies := Proxies(env, addresses, "/", children);
      if addresses == [] then [] else if proxies == [] then SiteRoutes(env, addresses) else proxies
  }

  function Meaning(env: Env, nodes: seq<Node>): seq<Route> {
    if nodes == [] then [] else SiteMeaning(env, nodes[0]) + Meaning(env, nodes[1..])
  }
}
