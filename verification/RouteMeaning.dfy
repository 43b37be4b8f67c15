// What normalising and merging proxy routes mean, field by field (internal/agent/proxy_routes.go).
module RouteMeaning {
  import opened Text
  import opened StringOrder
  import opened RouteMerge
  import opened RouteCanonical

  // ---- Byte order ----

  lemma {:induction false} LessMeans(a: string, b: string)
    ensures Less(a, b) <==> exists i :: DiffersAt(a, b, i)
  {
    if a != [] && b != [] && a[0] == b[0] {
      LessMeans(a[1..], b[1..]);
      if Less(a, b) {
        var i :| DiffersAt(a[1..], b[1..], i);
        assert forall j :: 0 < j < i + 1 ==> a[j] == a[1..][j - 1] && b[j] == b[1..][j - 1];
        assert DiffersAt(a, b, i + 1);
      }
      if exists i :: DiffersAt(a, b, i) {
        var i :| DiffersAt(a, b, i);
        assert DiffersAt(a[1..], b[1..], i - 1);
      }
    } else if Less(a, b) {
      assert DiffersAt(a, b, 0);
    }
  }

  // The first difference decides, and a proper prefix comes first.
  predicate DiffersAt(a: string, b: string, i: int) {
    && 0 <= i <= |a| && i < |b|
    && (forall j | 0 <= j < i :: a[j] == b[j])
    && (i == |a| || a[i] < b[i])
  }

  // ---- One route ----

  predicate LetterOrDigit(c: char) {
    var code := c as int;
    48 <= code <= 57 || 65 <= code <= 90 || 97 <= code <= 122
  }

  // A host is absent, an address, or labels with dots between them.
  ghost predicate HostName(host: string, isAddress: string -> bool) {
    || host == ""
    || (&& |host| <= 253 && host[|host| - 1] != '.'
        && (isAddress(host) || forall k :: 0 <= k < |Split(host, '.')| ==> DomainPart(Split(host, '.')[k])))
  }

  predicate DomainPart(part: string) {
    && 1 <= |part| <= 63 && LetterOrDigit(part[0]) && LetterOrDigit(part[|part| - 1])
    && forall i | 0 <= i < |part| :: LetterOrDigit(part[i]) || part[i] == '-'
  }

  predicate Quiet(text: string) {
    forall i | 0 <= i < |text| :: !IsControl(text[i])
  }

  // `r` is `q` normalised.
  ghost predicate NormalForm(lib: Library, q: Route, r: Route) {
    var host, path := TrimSpace(q.host), TrimSpace(q.path);
    && r.workload == q.workload && 8 <= |r.workload| <= 512 && Quiet(r.workload)
    && (r.workload[..7] == "docker:" || r.workload[..8] == "systemd:")
    && r.scheme == lib.lower(TrimSpace(q.scheme)) && (r.scheme == "http" || r.scheme == "https")
    && r.host == lib.lower(if host != "" && host[|host| - 1] == '.' then host[..|host| - 1] else host)
    && HostName(r.host, lib.isAddress)
    && r.port == q.port && 0 < r.port < 65536
    && r.path == (if path == "" then "/" else path)
    && |r.path| <= 512 && r.path[..1] == "/" && '?' !in r.path && '#' !in r.path && Quiet(r.path)
    && r.kind == (if q.kind != Unset then q.kind else if |q.upstreams| > 0 then Proxy else Unknown)
    && (r.kind == Unknown || r.kind == Site || r.kind == Static || r.kind == Proxy)
    && FirstSixteen(r.upstreams, Sanitized(lib, q.upstreams))
  }

  // The sixteen smallest elements of a set, in order, or all of them.
  ghost predicate FirstSixteen(list: seq<string>, all: set<string>) {
    && Sorted(list) && |list| <= 16
    && (forall u :: u in list ==> u in all)
    && (forall v :: v in all && v !in list ==> |list| == 16 && forall u :: u in list ==> Less(u, v))
  }

  lemma CapIsFirst(all: set<string>)
    ensures FirstSixteen(Cap(Ordered(all)), all)
  {
    var list := Ordered(all);
    forall u | u in Cap(list) ensures u in all {
      assert u in Elements(list);
    }
    forall v | v in all && v !in Cap(list) ensures |Cap(list)| == 16 && forall u :: u in Cap(list) ==> Less(u, v) {
      assert v in Elements(list);
      var k :| 0 <= k < |list| && list[k] == v;
      assert forall i | 0 <= i < |Cap(list)| :: Cap(list)[i] == list[i];
      assert k >= |Cap(list)|;
    }
  }

  // The sixteen smallest are one list.
  lemma {:induction false} FirstIsOne(a: seq<string>, b: seq<string>, all: set<string>)
    requires FirstSixteen(a, all) && FirstSixteen(b, all)
    ensures a == b
  {
    forall u | u in a ensures u in b {
      FirstCovers(a, b, all, u);
    }
    forall u | u in b ensures u in a {
      FirstCovers(b, a, all, u);
    }
    assert Elements(a) == Elements(b);
    SortedUnique(a, b);
  }

  lemma FirstCovers(a: seq<string>, b: seq<string>, all: set<string>, u: string)
    requires FirstSixteen(a, all) && FirstSixteen(b, all) && u in a
    ensures u in b
  {
    if u !in b {
      // All sixteen of `b` are smaller than `u`, so all of them are in `a` too.
      forall w | w in b ensures w in a && w != u {
        assert Less(w, u);
        if w !in a {
          assert Less(u, w);
          LessAsymmetric(u, w);
        }
      }
      SortedLength(a);
      SortedLength(b);
      assert Elements(b) <= Elements(a) - {u};
      Subset(Elements(b), Elements(a) - {u});
    }
  }

  lemma WorkloadMeans(key: string)
    ensures WorkloadOk(key) <==> 8 <= |key| <= 512 && Quiet(key) && (key[..7] == "docker:" || key[..8] == "systemd:")
  {
    ControlMeans(key);
  }

  lemma ControlMeans(text: string)
    ensures HasControl(text) <==> !Quiet(text)
  {
    if !Quiet(text) {
      var i :| 0 <= i < |text| && IsControl(text[i]);
      assert text[i] in text;
    }
  }

  lemma PathMeans(path: string)
    ensures PathOk(path) <==> |path| <= 512 && path[..if path == "" then 0 else 1] == "/" && '?' !in path && '#' !in path && Quiet(path)
  {
    ControlMeans(path);
  }

  lemma AlphaMeans(c: char)
    ensures AlphaNumeric(c) <==> LetterOrDigit(c)
  {
  }

  lemma PartMeans(part: string)
    ensures LabelOk(part) <==> DomainPart(part)
  {
    forall i | 0 <= i < |part| ensures AlphaNumeric(part[i]) <==> LetterOrDigit(part[i]) {
      AlphaMeans(part[i]);
    }
  }

  lemma PartsMean(parts: seq<string>)
    ensures (forall part | part in parts :: LabelOk(part)) <==> (forall k :: 0 <= k < |parts| ==> DomainPart(parts[k]))
  {
    forall k | 0 <= k < |parts| ensures LabelOk(parts[k]) <==> DomainPart(parts[k]) {
      PartMeans(parts[k]);
    }
  }

  // Labels and dots leave no room for the characters that are refused.
  lemma NoOtherCharacter(host: string, c: char)
    requires c in host && forall part | part in Split(host, '.') :: LabelOk(part)
    ensures c !in {'/', ':', '@', '?', '#', '[', ']'}
  {
    if c != '.' {
      SplitCovers(host, '.', c);
      var part :| part in Split(host, '.') && c in part;
      var i :| 0 <= i < |part| && part[i] == c;
      PartMeans(part);
      assert LetterOrDigit(c) || c == '-';
    }
  }

  lemma HostMeans(host: string, isAddress: string -> bool)
    ensures HostOk(host, true, isAddress) <==> HostName(host, isAddress)
  {
    PartsMean(Split(host, '.'));
    if forall part | part in Split(host, '.') :: LabelOk(part) {
      forall c | c in host ensures c !in {'/', ':', '@', '?', '#', '[', ']'} {
        NoOtherCharacter(host, c);
      }
    }
  }

  // A route is accepted with this result exactly when it has this normal form.
  lemma NormalizeMeans(lib: Library, q: Route, r: Route)
    ensures Normalize(lib, q) == Some(r) <==> NormalForm(lib, q, r)
  {
    var trimmed := Trimmed(lib, q);
    WorkloadMeans(q.workload);
    PathMeans(trimmed.path);
    HostMeans(trimmed.host, lib.isAddress);
    CapIsFirst(Sanitized(lib, q.upstreams));
    if NormalForm(lib, q, r) {
      FirstIsOne(r.upstreams, Cap(Ordered(Sanitized(lib, q.upstreams))), Sanitized(lib, q.upstreams));
    }
  }

  // ---- The merged list ----

  // Two routes for the same place.
  predicate SamePlace(a: Route, b: Route) {
    a.workload == b.workload && a.scheme == b.scheme && a.host == b.host && a.port == b.port && a.path == b.path
  }

  // An input route normalises to this one.
  ghost predicate Given(lib: Library, routes: seq<Route>, n: Route) {
    exists i {:trigger NormalForm(lib, routes[i], n)} :: 0 <= i < |routes| && NormalForm(lib, routes[i], n)
  }

  ghost predicate GivenKind(lib: Library, routes: seq<Route>, place: Route, kind: Kind) {
    exists n :: Given(lib, routes, n) && SamePlace(n, place) && n.kind == kind
  }

  // The kind of a merged route: a proxy if one is known, then static, a site
  // and unknown.
  ghost predicate StrongestKind(lib: Library, routes: seq<Route>, r: Route) {
    if GivenKind(lib, routes, r, Proxy) then r.kind == Proxy
    else if GivenKind(lib, routes, r, Static) then r.kind == Static
    else if GivenKind(lib, routes, r, Site) then r.kind == Site
    else r.kind == Unknown
  }

  ghost predicate UnitedUpstreams(lib: Library, routes: seq<Route>, r: Route) {
    && Sorted(r.upstreams)
    && forall u :: u in r.upstreams <==> exists n :: Given(lib, routes, n) && SamePlace(n, r) && u in n.upstreams
  }

  // The text a merged list is sorted by.
  function Place(r: Route): string {
    r.workload + "\0" + r.scheme + "\0" + r.host + "\0" + Itoa(if r.port < 0 then 0 else r.port) + "\0" + r.path
  }

  // The merge of the given routes: one route for each place, in order.
  ghost predicate Merged(lib: Library, routes: seq<Route>, list: seq<Route>) {
    && (forall n :: Given(lib, routes, n) ==> ListsPlace(list, n))
    && (forall k :: 0 <= k < |list| ==> MergedRoute(lib, routes, list[k]))
    && (forall j, k :: 0 <= j < k < |list| ==> Less(Place(list[j]), Place(list[k])))
  }

  ghost predicate ListsPlace(list: seq<Route>, n: Route) {
    exists k :: 0 <= k < |list| && SamePlace(list[k], n)
  }

  ghost predicate MergedRoute(lib: Library, routes: seq<Route>, r: Route) {
    && (exists n :: Given(lib, routes, n) && SamePlace(n, r))
    && StrongestKind(lib, routes, r) && UnitedUpstreams(lib, routes, r)
  }

  lemma GivenIsNormal(lib: Library, routes: seq<Route>, n: Route)
    ensures Given(lib, routes, n) <==> n in NormalSet(lib, routes)
  {
    if Given(lib, routes, n) {
      var i :| 0 <= i < |routes| && NormalForm(lib, routes[i], n);
      NormalizeMeans(lib, routes[i], n);
      assert routes[i] in routes;
    }
    if n in NormalSet(lib, routes) {
      var q :| q in routes && Normalize(lib, q).Some? && Normalize(lib, q).value == n;
      var i :| 0 <= i < |routes| && routes[i] == q;
      NormalizeMeans(lib, q, n);
    }
  }

  lemma NormalKeyed(lib: Library, routes: seq<Route>, n: Route)
    requires LibraryOk(lib) && n in NormalSet(lib, routes)
    ensures Keyed(n) && KindOk(n.kind)
  {
    var q :| q in routes && Normalize(lib, q).Some? && Normalize(lib, q).value == n;
    NormalizedIsKeyed(lib, q);
  }

  // The members of a group are the given routes for its place.
  lemma GroupIsPlace(lib: Library, routes: seq<Route>, r: Route)
    requires LibraryOk(lib) && Represents(NormalSet(lib, routes), r)
    ensures forall n :: n in NormalSet(lib, routes) && Key(n) == Key(r) <==> Given(lib, routes, n) && SamePlace(n, r)
  {
    var normals := NormalSet(lib, routes);
    forall n ensures n in normals && Key(n) == Key(r) <==> Given(lib, routes, n) && SamePlace(n, r) {
      GivenIsNormal(lib, routes, n);
    }
  }

  lemma KindGiven(lib: Library, routes: seq<Route>, r: Route)
    requires LibraryOk(lib) && Represents(NormalSet(lib, routes), r)
    ensures GivenKind(lib, routes, r, r.kind) && KindOk(r.kind)
  {
    var normals := NormalSet(lib, routes);
    GroupIsPlace(lib, routes, r);
    var top :| top in normals && Key(top) == Key(r) && top.kind == r.kind;
    NormalKeyed(lib, routes, top);
    assert Given(lib, routes, top) && SamePlace(top, r);
  }

  lemma KindOutranked(lib: Library, routes: seq<Route>, r: Route, kind: Kind)
    requires LibraryOk(lib) && Represents(NormalSet(lib, routes), r) && GivenKind(lib, routes, r, kind)
    ensures Rank(kind) <= Rank(r.kind)
  {
    GroupIsPlace(lib, routes, r);
    var n :| Given(lib, routes, n) && SamePlace(n, r) && n.kind == kind;
    assert n in NormalSet(lib, routes) && Key(n) == Key(r);
  }

  lemma KindMerged(lib: Library, routes: seq<Route>, r: Route)
    requires LibraryOk(lib) && Represents(NormalSet(lib, routes), r)
    ensures StrongestKind(lib, routes, r)
  {
    KindGiven(lib, routes, r);
    if GivenKind(lib, routes, r, Proxy) {
      KindOutranked(lib, routes, r, Proxy);
    } else if GivenKind(lib, routes, r, Static) {
      KindOutranked(lib, routes, r, Static);
    } else if GivenKind(lib, routes, r, Site) {
      KindOutranked(lib, routes, r, Site);
    }
  }

  lemma UpstreamsMerged(lib: Library, routes: seq<Route>, r: Route)
    requires LibraryOk(lib) && Represents(NormalSet(lib, routes), r)
    ensures UnitedUpstreams(lib, routes, r)
  {
    var normals := NormalSet(lib, routes);
    GroupIsPlace(lib, routes, r);
    forall u ensures u in r.upstreams <==> exists n :: Given(lib, routes, n) && SamePlace(n, r) && u in n.upstreams {
      assert u in r.upstreams <==> Serves(normals, Key(r), u);
      if Serves(normals, Key(r), u) {
        var n :| n in normals && Key(n) == Key(r) && u in n.upstreams;
        assert Given(lib, routes, n) && SamePlace(n, r);
      }
      if exists n :: Given(lib, routes, n) && SamePlace(n, r) && u in n.upstreams {
        var n :| Given(lib, routes, n) && SamePlace(n, r) && u in n.upstreams;
        assert n in normals && Key(n) == Key(r);
      }
    }
  }

  lemma RouteMerged(lib: Library, routes: seq<Route>, r: Route)
    requires LibraryOk(lib) && Represents(NormalSet(lib, routes), r)
    ensures MergedRoute(lib, routes, r)
  {
    KindMerged(lib, routes, r);
    UpstreamsMerged(lib, routes, r);
    GroupIsPlace(lib, routes, r);
    var top :| top in NormalSet(lib, routes) && Key(top) == Key(r) && top.kind == r.kind;
    assert Given(lib, routes, top) && SamePlace(top, r);
  }

  lemma PlaceListed(lib: Library, routes: seq<Route>, n: Route)
    requires LibraryOk(lib) && Given(lib, routes, n)
    ensures ListsPlace(Merge(lib, routes), n)
  {
    var list := Merge(lib, routes);
    MergeIsCanonical(lib, routes);
    GivenIsNormal(lib, routes, n);
    var r := RouteOfGroup(NormalSet(lib, routes), list, n);
    var k :| 0 <= k < |list| && list[k] == r;
    assert Represents(NormalSet(lib, routes), r);
    GroupIsPlace(lib, routes, r);
    assert SamePlace(n, r);
  }

  lemma PlaceIsKey(r: Route)
    ensures Place(r) == Key(r)
  {
    var port := Itoa(if r.port < 0 then 0 else r.port);
    assert "\0" == [NUL];
    Reassociate(r.workload, r.scheme, r.host, port, r.path, [NUL]);
  }

  lemma Reassociate(a: string, b: string, c: string, d: string, e: string, z: string)
    ensures a + z + b + z + c + z + d + z + e == a + (z + (b + (z + (c + (z + (d + (z + e)))))))
  {
  }

  // The whole of merging: which routes come out, with which kind and which
  // upstreams, and in which order.
  lemma MergeMeans(lib: Library, routes: seq<Route>)
    requires LibraryOk(lib)
    ensures Merged(lib, routes, Merge(lib, routes))
  {
    var list := Merge(lib, routes);
    MergeIsCanonical(lib, routes);
    forall k | 0 <= k < |list| ensures MergedRoute(lib, routes, list[k]) {
      assert list[k] in list;
      RouteMerged(lib, routes, list[k]);
    }
    forall n | Given(lib, routes, n) ensures ListsPlace(list, n) {
      PlaceListed(lib, routes, n);
    }
    forall j, k | 0 <= j < k < |list| ensures Less(Place(list[j]), Place(list[k])) {
      PlaceIsKey(list[j]);
      PlaceIsKey(list[k]);
      assert Less(Keys(list)[j], Keys(list)[k]);
    }
  }
}
