// parseCaddyRoutes as it runs: one scanner object, stepped line by line
// (internal/agent/proxy_routes.go).
module CaddyScanner {
  import opened Text
  import opened RouteMerge
  import opened CaddyRoutes

  class Scanner {
    const env: Env
    var depth: int
    var addresses: seq<Address>
    var siteDepth: int
    var siteRouteCount: nat
    var paths: map<int, string>
    var routes: seq<Route>

    function State(): Scan
      reads this
    {
      Scan(depth, addresses, siteDepth, siteRouteCount, paths, routes)
    }

    constructor (env: Env)
      ensures this.env == env && State() == START
    {
      this.env := env;
      depth, addresses, siteDepth, siteRouteCount, paths, routes := 0, [], 0, 0, map[], [];
    }

    method Finish()
      modifies this
      ensures State() == FinishSite(env, old(State()))
    {
      if addresses != [] && siteRouteCount == 0 {
        AppendRoutes(Site, "/", []);
      }
      addresses, siteDepth, siteRouteCount, paths := [], 0, 0, map[];
    }

    // One route for every address of the site.
    method AppendRoutes(kind: Kind, path: string, upstreams: seq<string>)
      modifies this`routes
      ensures routes == old(routes) + RoutesFor(env, addresses, kind, path, upstreams)
    {
      for i := 0 to |addresses|
        invariant routes + RoutesFor(env, addresses[i..], kind, path, upstreams)
               == old(routes) + RoutesFor(env, addresses, kind, path, upstreams)
      {
        assert addresses[i..][1..] == addresses[i + 1..];
        var a := addresses[i];
        routes := routes + [Route(env.workload, kind, a.scheme, a.host, a.port, path, upstreams)];
      }
    }

    method CloseBrace()
      modifies this
      ensures State() == Close(env, old(State()))
    {
      depth := depth - 1;
      paths := paths - {depth + 1};
      if addresses != [] && depth < siteDepth {
        Finish();
      }
    }

    method Line(line: seq<string>)
      modifies this
      ensures State() == ScanLine(env, old(State()), line)
    {
      var tokens := line;
      while tokens != [] && tokens[0] == "}"
        invariant |tokens| <= |line| && tokens == line[|line| - |tokens|..]
        invariant LeadingCloses(line) == |line| - |tokens| + LeadingCloses(tokens)
        invariant CloseMany(env, old(State()), LeadingCloses(line)) == CloseMany(env, State(), LeadingCloses(tokens))
        decreases |tokens|
      {
        CloseBrace();
        tokens := tokens[1..];
      }
      if tokens == [] {
        return;
      }
      SiteAddresses(tokens);
      SiteDirective(tokens);
      CountBraces(tokens);
    }

    method SiteAddresses(tokens: seq<string>)
      requires tokens != []
      modifies this
      ensures State() == OpenSite(env, old(State()), tokens)
    {
      var open := TokenIndex(tokens);
      if addresses == [] && depth == 0 && open > 0 {
        var found := CollectAddresses(env, tokens[..open]);
        if found != [] {
          addresses, siteDepth := found, depth + 1;
        }
      }
    }

    method SiteDirective(tokens: seq<string>)
      requires tokens != []
      modifies this
      ensures State() == Directive(env, old(State()), tokens)
    {
      if addresses == [] || depth < siteDepth {
        return;
      }
      var open := TokenIndex(tokens);
      var directive := tokens[0];
      var currentPath := InnermostPath(paths, siteDepth, depth);
      if (directive == "handle" || directive == "handle_path" || directive == "route") && open >= 0 {
        assert tokens[..open][1..] == tokens[1..open];
        var path := FindPath(tokens[1..open]);
        if path != "" {
          paths := paths[depth + 1 := path];
        }
      }
      if directive == "reverse_proxy" {
        var args := if open >= 0 then tokens[1..open] else tokens[1..];
        assert open >= 0 ==> tokens[..open][1..] == tokens[1..open];
        ReverseProxy(currentPath, args);
      }
    }

    method ReverseProxy(inherited: string, args: seq<string>)
      modifies this`routes, this`siteRouteCount
      ensures var found := ProxyRoutes(env, addresses, inherited, args);
        routes == old(routes) + found && siteRouteCount == old(siteRouteCount) + |found|
    {
      var currentPath, targets := inherited, args;
      if |targets| > 0 {
        var path := MatcherPath(targets[0]);
        if path != "" {
          currentPath, targets := path, targets[1..];
        } else if "@" <= targets[0] {
          targets := targets[1..];
        }
      }
      var upstreams := CollectUpstreams(env, targets);
      AppendRoutes(Proxy, currentPath, upstreams);
      siteRouteCount := siteRouteCount + |addresses|;
    }

    method CountBraces(tokens: seq<string>)
      modifies this
      ensures State() == Braces(env, old(State()), tokens)
    {
      for i := 0 to |tokens|
        invariant Braces(env, State(), tokens[i..]) == Braces(env, old(State()), tokens)
      {
        assert tokens[i..][1..] == tokens[i + 1..];
        if tokens[i] == "{" {
          depth := depth + 1;
        } else if tokens[i] == "}" {
          CloseBrace();
        }
      }
    }
  }

  // The position of the first opening brace, or -1.
  method TokenIndex(tokens: seq<string>) returns (open: int)
    ensures open == if Opens(tokens) then |Head(tokens)| else -1
    ensures Head(tokens) == if open >= 0 then tokens[..open] else tokens
    ensures open > 0 <==> Opens(tokens) && Head(tokens) != []
    ensures open < |tokens|
  {
    for i := 0 to |tokens|
      invariant "{" !in tokens[..i] && Head(tokens) == tokens[..i] + Head(tokens[i..])
    {
      assert tokens[i..][1..] == tokens[i + 1..] && tokens[..i + 1] == tokens[..i] + [tokens[i]];
      if tokens[i] == "{" {
        return i;
      }
      assert tokens[..i] + ([tokens[i]] + Head(tokens[i + 1..])) == tokens[..i + 1] + Head(tokens[i + 1..]);
    }
    assert tokens[..|tokens|] == tokens;
    return -1;
  }

  method CollectAddresses(env: Env, words: seq<string>) returns (found: seq<Address>)
    ensures found == AddressesOf(env, words)
  {
    found := [];
    for i := 0 to |words|
      invariant found + AddressesOf(env, words[i..]) == AddressesOf(env, words)
    {
      assert words[i..][1..] == words[i + 1..];
      var parsed := ParseParts(env, Split(words[i], ','));
      assert found + (parsed + AddressesOf(env, words[i + 1..])) == (found + parsed) + AddressesOf(env, words[i + 1..]);
      found := found + parsed;
    }
  }

  method ParseParts(env: Env, parts: seq<string>) returns (found: seq<Address>)
    ensures found == ParsedParts(env, parts)
  {
    found := [];
    assert parts[0..] == parts;
    for i := 0 to |parts|
      invariant found + ParsedParts(env, parts[i..]) == ParsedParts(env, parts)
    {
      assert parts[i..][1..] == parts[i + 1..];
      var parsed := env.parseAddress(TrimSpace(parts[i]));
      if parsed.Some? {
        found := found + [parsed.value];
      }
    }
  }

  method InnermostPath(paths: map<int, string>, from: int, to: int) returns (path: string)
    ensures path == CurrentPath(paths, from, to)
  {
    path := "/";
    var at := from;
    while at <= to
      invariant at <= to + 1 || at == from
      invariant path == CurrentPath(paths, from, at - 1)
    {
      if at in paths && paths[at] != "" {
        path := paths[at];
      }
      at := at + 1;
    }
  }

  method FindPath(words: seq<string>) returns (path: string)
    ensures path == FirstPath(words)
  {
    for i := 0 to |words|
      invariant FirstPath(words[i..]) == FirstPath(words)
    {
      assert words[i..][1..] == words[i + 1..];
      path := MatcherPath(words[i]);
      if path != "" {
        return;
      }
    }
    path := "";
  }

  method CollectUpstreams(env: Env, args: seq<string>) returns (upstreams: seq<string>)
    ensures upstreams == Upstreams(env, args)
  {
    upstreams := [];
    for i := 0 to |args|
      invariant upstreams + Upstreams(env, args[i..]) == Upstreams(env, args)
    {
      assert args[i..][1..] == args[i + 1..];
      var upstream := env.lib.sanitize(args[i]);
      if upstream != "" {
        upstreams := upstreams + [upstream];
      }
    }
  }

  method ParseCaddyRoutes(env: Env, content: string) returns (result: Option<seq<Route>>)
    ensures result == ParsedRoutes(env, content)
    ensures result.None? <==> |content| > 4 * 1024 * 1024
  {
    if |content| > MAX_PROXY_CONFIG_BYTES {
      return None;
    }
    var scanner := new Scanner(env);
    var lines := Split(content, '\n');
    for i := 0 to |lines|
      invariant fresh(scanner) && scanner.env == env
      invariant ScanLines(env, scanner.State(), LexedLines(lines[i..])) == ScanLines(env, START, LexedLines(lines))
    {
      assert lines[i..][1..] == lines[i + 1..];
      var tokens := ConfigSyntax.LexConfig(lines[i]);
      ghost var rest := LexedLines(lines[i + 1..]);
      assert LexedLines(lines[i..]) == (if tokens == [] then rest else [tokens] + rest) by {
        assert [] + rest == rest;
      }
      if |tokens| != 0 {
        assert ([tokens] + rest)[1..] == rest;
        scanner.Line(tokens);
      }
    }
    if scanner.addresses != [] {
      scanner.Finish();
    }
    var merged := MergeProxyRoutes(env.lib, scanner.routes);
    result := Some(merged);
  }
}
