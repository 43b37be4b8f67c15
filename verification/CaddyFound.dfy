// Which routes the sites of a Caddyfile yield, directive by directive (internal/agent/proxy_routes.go).
module CaddyFound {
  import opened Text
  import opened RouteMerge
  import opened CaddyRoutes

  // ---- One directive ----

  // A word that matches by path: absolute, without query, fragment or control
  // characters, and not too long.
  predicate PathWord(word: string) {
    var path := TrimSpace(word);
    && 1 <= |path| <= 512 && path[0] == '/'
    && forall c :: c in path ==> c != '?' && c != '#' && !IsControl(c)
  }

  predicate RoutesByPath(words: seq<string>) {
    words != [] && (words[0] == "handle" || words[0] == "handle_path" || words[0] == "route")
  }

  // The first path matcher behind the directive's name.
  ghost predicate FirstPathAt(words: seq<string>, i: int) {
    1 <= i < |words| && PathWord(words[i]) && forall j :: 1 <= j < i ==> !PathWord(words[j])
  }

  // The path of a proxy: its own, else that of the blocks around it.
  function OwnPath(words: seq<string>, inherited: string): string {
    if |words| > 1 && PathWord(words[1]) then TrimSpace(words[1]) else inherited
  }

  // Its upstreams: what is left of the words behind a path or named matcher.
  predicate IsUpstream(env: Env, words: seq<string>, u: string) {
    var from := if |words| > 1 && (PathWord(words[1]) || (words[1] != "" && words[1][0] == '@')) then 2 else 1;
    u != "" && exists i | from <= i < |words| :: env.lib.sanitize(words[i]) == u
  }

  // A proxy route of a site: one for each of its addresses.
  ghost predicate ProxyRoute(env: Env, addresses: seq<Address>, inherited: string, words: seq<string>, r: Route) {
    && words != [] && words[0] == "reverse_proxy"
    && r.workload == env.workload && r.kind == Proxy && r.path == OwnPath(words, inherited)
    && (exists a :: a in addresses && a == Address(r.scheme, r.host, r.port))
    && forall u :: u in r.upstreams <==> IsUpstream(env, words, u)
  }

  // The path inside a block.
  ghost predicate PathInside(words: seq<string>, around: string, path: string) {
    if RoutesByPath(words) && exists i :: FirstPathAt(words, i)
    then exists i :: FirstPathAt(words, i) && path == TrimSpace(words[i])
    else path == around
  }

  // An address of a site: a part of a header word that parses as one.
  ghost predicate AddressIn(env: Env, words: seq<string>, a: Address) {
    exists i, j :: 0 <= i < |words| && 0 <= j < |Split(words[i], ',')| && env.parseAddress(TrimSpace(Split(words[i], ',')[j])) == Some(a)
  }

  // ---- The scanner's functions agree ----

  lemma MatcherIff(word: string)
    ensures MatcherPath(word) == if PathWord(word) then TrimSpace(word) else ""
  {
  }

  lemma {:induction false} FirstPathIs(words: seq<string>)
    ensures FirstPath(words) == "" ==> forall i :: 0 <= i < |words| ==> !PathWord(words[i])
    ensures FirstPath(words) != "" ==>
      exists i :: 0 <= i < |words| && PathWord(words[i]) && FirstPath(words) == TrimSpace(words[i])
                  && forall j :: 0 <= j < i ==> !PathWord(words[j])
  {
    if words != [] {
      MatcherIff(words[0]);
      if !PathWord(words[0]) {
        FirstPathIs(words[1..]);
        if FirstPath(words) != "" {
          var k :| 0 <= k < |words[1..]| && PathWord(words[1..][k]) && FirstPath(words) == TrimSpace(words[1..][k])
                   && forall j :: 0 <= j < k ==> !PathWord(words[1..][j]);
          assert words[k + 1] == words[1..][k];
          forall j | 0 <= j < k + 1 ensures !PathWord(words[j]) {
            assert j > 0 ==> words[j] == words[1..][j - 1];
          }
        } else {
          forall i | 0 <= i < |words| ensures !PathWord(words[i]) {
            assert i > 0 ==> words[i] == words[1..][i - 1];
          }
        }
      }
    }
  }

  lemma InnerPathMeans(path: string, words: seq<string>)
    ensures PathInside(words, path, InnerPath(path, words))
  {
    if RoutesByPath(words) {
      var args := Args(words);
      FirstPathIs(args);
      forall i | 1 <= i < |words| ensures words[i] == args[i - 1] {
      }
      if FirstPath(args) != "" {
        var k :| 0 <= k < |args| && PathWord(args[k]) && FirstPath(args) == TrimSpace(args[k])
                 && forall j :: 0 <= j < k ==> !PathWord(args[j]);
        assert FirstPathAt(words, k + 1);
      } else {
        forall i | 1 <= i < |words| ensures !FirstPathAt(words, i) {
          assert !PathWord(args[i - 1]);
        }
      }
    }
  }

  lemma {:induction false} UpstreamsMean(env: Env, args: seq<string>)
    ensures forall u :: u in Upstreams(env, args) <==> u != "" && exists i | 0 <= i < |args| :: env.lib.sanitize(args[i]) == u
  {
    if args != [] {
      UpstreamsMean(env, args[1..]);
      forall u
        ensures u in Upstreams(env, args) <==> u != "" && exists i | 0 <= i < |args| :: env.lib.sanitize(args[i]) == u
      {
        if exists i | 0 <= i < |args| :: env.lib.sanitize(args[i]) == u {
          var i :| 0 <= i < |args| && env.lib.sanitize(args[i]) == u;
          assert i > 0 ==> args[1..][i - 1] == args[i];
        }
        if exists i | 0 <= i < |args[1..]| :: env.lib.sanitize(args[1..][i]) == u {
          var i :| 0 <= i < |args[1..]| && env.lib.sanitize(args[1..][i]) == u;
          assert args[i + 1] == args[1..][i];
        }
      }
    }
  }

  lemma {:induction false} RoutesForEach(env: Env, addresses: seq<Address>, kind: Kind, path: string, upstreams: seq<string>)
    ensures forall i :: 0 <= i < |addresses| ==>
      var a := addresses[i];
      RoutesFor(env, addresses, kind, path, upstreams)[i] == Route(env.workload, kind, a.scheme, a.host, a.port, path, upstreams)
  {
    if addresses != [] {
      RoutesForEach(env, addresses[1..], kind, path, upstreams);
    }
  }

  lemma {:induction false} AddressesMean(env: Env, words: seq<string>, a: Address)
    ensures a in AddressesOf(env, words) <==> AddressIn(env, words, a)
  {
    if words != [] {
      var rest := words[1..];
      AddressesMean(env, rest, a);
      PartsMean(env, Split(words[0], ','), a);
      if AddressIn(env, rest, a) {
        var i, j :| 0 <= i < |rest| && 0 <= j < |Split(rest[i], ',')| && env.parseAddress(TrimSpace(Split(rest[i], ',')[j])) == Some(a);
        assert words[i + 1] == rest[i];
      }
      if AddressIn(env, words, a) {
        var i, j :| 0 <= i < |words| && 0 <= j < |Split(words[i], ',')| && env.parseAddress(TrimSpace(Split(words[i], ',')[j])) == Some(a);
        assert i > 0 ==> rest[i - 1] == words[i];
      }
    }
  }

  lemma {:induction false} PartsMean(env: Env, parts: seq<string>, a: Address)
    ensures a in ParsedParts(env, parts) <==> exists j :: 0 <= j < |parts| && env.parseAddress(TrimSpace(parts[j])) == Some(a)
  {
    if parts != [] {
      PartsMean(env, parts[1..], a);
      if exists j :: 0 <= j < |parts| && env.parseAddress(TrimSpace(parts[j])) == Some(a) {
        var j :| 0 <= j < |parts| && env.parseAddress(TrimSpace(parts[j])) == Some(a);
        assert j > 0 ==> parts[1..][j - 1] == parts[j];
      }
    }
  }

  // A proxy line gives one route for each address, with its own path and
  // targets.
  lemma ProxyLineMeans(env: Env, addresses: seq<Address>, inherited: string, words: seq<string>)
    ensures forall r :: r in OwnRoutes(env, addresses, inherited, words) ==> ProxyRoute(env, addresses, inherited, words, r)
    ensures words != [] && words[0] == "reverse_proxy" ==>
      forall a :: a in addresses ==> exists r :: r in OwnRoutes(env, addresses, inherited, words) && a == Address(r.scheme, r.host, r.port)
  {
    if words != [] && words[0] == "reverse_proxy" {
      var args := Args(words);
      var path, targets := ProxyPath(inherited, args), ProxyTargets(args);
      var found, upstreams := OwnRoutes(env, addresses, inherited, words), Upstreams(env, targets);
      if args != [] {
        MatcherIff(args[0]);
      }
      RoutesForEach(env, addresses, Proxy, path, upstreams);
      TargetsMean(env, words);
      forall r | r in found ensures ProxyRoute(env, addresses, inherited, words, r) {
        var i :| 0 <= i < |found| && found[i] == r;
        assert addresses[i] in addresses;
      }
      forall a | a in addresses ensures exists r :: r in found && a == Address(r.scheme, r.host, r.port) {
        var i :| 0 <= i < |addresses| && addresses[i] == a;
        assert found[i] in found;
      }
    }
  }

  lemma TargetsMean(env: Env, words: seq<string>)
    requires words != []
    ensures forall u :: u in Upstreams(env, ProxyTargets(Args(words))) <==> IsUpstream(env, words, u)
  {
    var args := Args(words);
    var targets := ProxyTargets(args);
    var from := |words| - |targets|;
    UpstreamsMean(env, targets);
    if args != [] {
      MatcherIff(args[0]);
    }
    assert targets == words[from..];
    forall u ensures u in Upstreams(env, targets) <==> IsUpstream(env, words, u) {
      if IsUpstream(env, words, u) {
        var i :| from <= i < |words| && env.lib.sanitize(words[i]) == u;
        assert targets[i - from] == words[i];
      }
      if u in Upstreams(env, targets) {
        var i :| 0 <= i < |targets| && env.lib.sanitize(targets[i]) == u;
        assert words[i + from] == targets[i];
      }
    }
  }

  // ---- A whole site ----

  // From one of the nodes down to a directive, block by block.
  ghost predicate Trail(nodes: seq<Node>, trail: seq<Node>) {
    && trail != [] && trail[0] in nodes
    && forall i :: 0 <= i < |trail| - 1 ==> trail[i].Block? && trail[i + 1] in trail[i].children
  }

  ghost predicate SetsPath(words: seq<string>) {
    RoutesByPath(words) && exists i :: FirstPathAt(words, i)
  }

  // The path a directive inherits: that of the innermost block around it that
  // routes by path, else the one outside.
  ghost predicate Inherits(trail: seq<Node>, outside: string, path: string) {
    || (path == outside && forall j :: 0 <= j < |trail| - 1 ==> !SetsPath(trail[j].words))
    || (exists i, k :: 0 <= i < |trail| - 1 && SetsPath(trail[i].words) && FirstPathAt(trail[i].words, k)
         && path == TrimSpace(trail[i].words[k]) && forall j :: i < j < |trail| - 1 ==> !SetsPath(trail[j].words))
  }

  ghost predicate FoundOn(env: Env, addresses: seq<Address>, trail: seq<Node>, outside: string, r: Route) {
    trail != [] && exists path :: Inherits(trail, outside, path) && ProxyRoute(env, addresses, path, trail[|trail| - 1].words, r)
  }

  lemma InheritsDeeper(node: Node, trail: seq<Node>, outside: string, inner: string, path: string)
    requires trail != [] && PathInside(node.words, outside, inner) && Inherits(trail, inner, path)
    ensures Inherits([node] + trail, outside, path)
  {
    var longer := [node] + trail;
    forall j | 0 < j < |longer| ensures longer[j] == trail[j - 1] {
    }
    if path == inner && forall j :: 0 <= j < |trail| - 1 ==> !SetsPath(trail[j].words) {
      forall j | 0 < j < |longer| - 1 ensures !SetsPath(longer[j].words) {
        assert !SetsPath(trail[j - 1].words);
      }
      if SetsPath(node.words) {
        var k :| FirstPathAt(node.words, k) && inner == TrimSpace(node.words[k]);
        assert SetsPath(longer[0].words) && FirstPathAt(longer[0].words, k);
      } else {
        assert path == outside;
      }
    } else {
      var i, k :| 0 <= i < |trail| - 1 && SetsPath(trail[i].words) && FirstPathAt(trail[i].words, k)
                  && path == TrimSpace(trail[i].words[k]) && forall j :: i < j < |trail| - 1 ==> !SetsPath(trail[j].words);
      assert longer[i + 1] == trail[i];
      forall j | i + 1 < j < |longer| - 1 ensures !SetsPath(longer[j].words) {
        assert !SetsPath(trail[j - 1].words);
      }
    }
  }

  lemma TrailDeeper(nodes: seq<Node>, node: Node, trail: seq<Node>)
    requires node in nodes && node.Block? && Trail(node.children, trail)
    ensures Trail(nodes, [node] + trail)
  {
    var longer := [node] + trail;
    forall i | 0 <= i < |longer| - 1 ensures longer[i].Block? && longer[i + 1] in longer[i].children {
      assert longer[i + 1] == trail[i];
      assert i > 0 ==> longer[i] == trail[i - 1];
    }
  }

  // Every proxy route of a site is that of a reverse_proxy somewhere below it.
  lemma {:induction false} ProxyIsFound(env: Env, addresses: seq<Address>, path: string, nodes: seq<Node>, r: Route) returns (trail: seq<Node>)
    requires r in Proxies(env, addresses, path, nodes)
    ensures Trail(nodes, trail) && FoundOn(env, addresses, trail, path, r)
    decreases nodes
  {
    var node := nodes[0];
    ProxyLineMeans(env, addresses, path, node.words);
    if r in OwnRoutes(env, addresses, path, node.words) {
      trail := [node];
      assert Inherits(trail, path, path);
    } else if node.Block? && r in Proxies(env, addresses, InnerPath(path, node.words), node.children) {
      var inner := InnerPath(path, node.words);
      var deeper := ProxyIsFound(env, addresses, inner, node.children, r);
      InnerPathMeans(path, node.words);
      trail := [node] + deeper;
      TrailDeeper(nodes, node, deeper);
      var p :| Inherits(deeper, inner, p) && ProxyRoute(env, addresses, p, deeper[|deeper| - 1].words, r);
      InheritsDeeper(node, deeper, path, inner, p);
      assert trail[|trail| - 1] == deeper[|deeper| - 1];
    } else {
      trail := ProxyIsFound(env, addresses, path, nodes[1..], r);
    }
  }

  // And every reverse_proxy below a site gives a route for each address.
  lemma {:induction false} TrailIsFound(env: Env, addresses: seq<Address>, path: string, nodes: seq<Node>, trail: seq<Node>, a: Address)
    returns (r: Route)
    requires Trail(nodes, trail) && a in addresses
    requires var words := trail[|trail| - 1].words; words != [] && words[0] == "reverse_proxy"
    ensures r in Proxies(env, addresses, path, nodes) && a == Address(r.scheme, r.host, r.port)
    ensures FoundOn(env, addresses, trail, path, r)
    decreases nodes
  {
    var node := nodes[0];
    if trail[0] != node {
      r := TrailIsFound(env, addresses, path, nodes[1..], trail, a);
    } else if |trail| == 1 {
      ProxyLineMeans(env, addresses, path, node.words);
      r :| r in OwnRoutes(env, addresses, path, node.words) && a == Address(r.scheme, r.host, r.port);
      assert Inherits(trail, path, path);
    } else {
      var inner, deeper := InnerPath(path, node.words), trail[1..];
      forall i | 0 <= i < |deeper| ensures deeper[i] == trail[i + 1] {
      }
      r := TrailIsFound(env, addresses, inner, node.children, deeper, a);
      InnerPathMeans(path, node.words);
      var p :| Inherits(deeper, inner, p) && ProxyRoute(env, addresses, p, deeper[|deeper| - 1].words, r);
      InheritsDeeper(node, deeper, path, inner, p);
      assert [node] + deeper == trail;
    }
  }

  ghost predicate HasProxy(nodes: seq<Node>) {
    exists trail: seq<Node> :: Trail(nodes, trail) && ProxyWords(trail[|trail| - 1].words)
  }

  predicate ProxyWords(words: seq<string>) {
    words != [] && words[0] == "reverse_proxy"
  }

  // What a top-level block yields: nothing without an address, its proxies, or
  // a plain site route for each address if there is no proxy below it.
  ghost predicate SiteYields(env: Env, words: seq<string>, children: seq<Node>, r: Route) {
    && AddressIn(env, words, Address(r.scheme, r.host, r.port))
    && if HasProxy(children) then
         exists trail :: Trail(children, trail) && FoundOn(env, AddressesOf(env, words), trail, "/", r)
       else
         r == Route(env.workload, Site, r.scheme, r.host, r.port, "/", [])
  }

  lemma SiteMeans(env: Env, words: seq<string>, children: seq<Node>, r: Route)
    requires r in SiteMeaning(env, Block(words, children))
    ensures SiteYields(env, words, children, r)
  {
    var addresses := AddressesOf(env, words);
    var proxies := Proxies(env, addresses, "/", children);
    if proxies != [] {
      var trail := ProxyIsFound(env, addresses, "/", children, r);
      AddressesMean(env, words, Address(r.scheme, r.host, r.port));
    } else {
      if HasProxy(children) {
        var trail: seq<Node> :| Trail(children, trail) && ProxyWords(trail[|trail| - 1].words);
        var found := TrailIsFound(env, addresses, "/", children, trail, addresses[0]);
        assert false;
      }
      RoutesForEach(env, addresses, Site, "/", []);
      var i :| 0 <= i < |addresses| && SiteRoutes(env, addresses)[i] == r;
      AddressesMean(env, words, addresses[i]);
    }
  }

  // Nothing of it is missing.
  lemma SiteIsComplete(env: Env, words: seq<string>, children: seq<Node>, a: Address, trail: seq<Node>)
    requires AddressIn(env, words, a)
    ensures !HasProxy(children) ==> Route(env.workload, Site, a.scheme, a.host, a.port, "/", []) in SiteMeaning(env, Block(words, children))
    ensures Trail(children, trail) && ProxyWords(trail[|trail| - 1].words) ==>
      exists r :: r in SiteMeaning(env, Block(words, children)) && a == Address(r.scheme, r.host, r.port)
                  && FoundOn(env, AddressesOf(env, words), trail, "/", r)
  {
    var addresses := AddressesOf(env, words);
    AddressesMean(env, words, a);
    var i :| 0 <= i < |addresses| && addresses[i] == a;
    if !HasProxy(children) {
      NoProxies(env, addresses, "/", children);
      RoutesForEach(env, addresses, Site, "/", []);
      assert SiteRoutes(env, addresses)[i] in SiteRoutes(env, addresses);
    }
    if Trail(children, trail) && ProxyWords(trail[|trail| - 1].words) {
      var r := TrailIsFound(env, addresses, "/", children, trail, a);
    }
  }

  lemma NoProxies(env: Env, addresses: seq<Address>, path: string, nodes: seq<Node>)
    requires !HasProxy(nodes)
    ensures Proxies(env, addresses, path, nodes) == []
  {
    var found := Proxies(env, addresses, path, nodes);
    if found != [] {
      var trail := ProxyIsFound(env, addresses, path, nodes, found[0]);
    }
  }
}
