// What merging promises: one canonical list for a set of routes.
module RouteCanonical {
  import opened Text
  import opened StringOrder
  import opened RouteMerge

  // ---- Keys ----

  lemma {:induction false} FirstSplit(a: string, b: string, x: string, y: string)
    requires NUL !in a && NUL !in b && a + ([NUL] + x) == b + ([NUL] + y)
    ensures a == b && x == y
  {
    BeforeSeparator(a, NUL, x);
    BeforeSeparator(b, NUL, y);
    assert a + [NUL] + x == a + ([NUL] + x) && b + [NUL] + y == b + ([NUL] + y);
    assert a == b;
    assert (a + ([NUL] + x))[|a| + 1..] == x && (b + ([NUL] + y))[|b| + 1..] == y;
  }

  lemma {:induction false} ItoaInjective(m: nat, n: nat)
    requires Itoa(m) == Itoa(n)
    ensures m == n
    decreases m
  {
    ItoaDigits(m / 10);
    ItoaDigits(n / 10);
    var s, t := Itoa(m), Itoa(n);
    if m >= 10 && n >= 10 {
      AppendInjective(Itoa(m / 10), Itoa(n / 10), Digit(m % 10), Digit(n % 10));
      ItoaInjective(m / 10, n / 10);
    } else {
      assert |s| == 1 && |t| == 1;
    }
  }

  lemma AppendInjective(a: string, b: string, x: char, y: char)
    requires a + [x] == b + [y]
    ensures a == b && x == y
  {
    assert (a + [x])[..|a|] == a && (b + [y])[..|b|] == b;
    assert (a + [x])[|a|] == x && (b + [y])[|b|] == y;
  }

  // The part of a route that its key stands for.
  predicate SameEndpoint(a: Route, b: Route) {
    a.workload == b.workload && a.scheme == b.scheme && a.host == b.host && a.port == b.port && a.path == b.path
  }

  predicate Keyed(r: Route) {
    NUL !in r.workload && NUL !in r.scheme && NUL !in r.host && 1 <= r.port && KindOk(r.kind)
  }

  // Two normalised routes are merged only when all five key fields agree.
  lemma KeyInjective(a: Route, b: Route)
    requires Keyed(a) && Keyed(b)
    ensures Key(a) == Key(b) <==> SameEndpoint(a, b)
  {
    if Key(a) == Key(b) {
      ItoaDigits(a.port);
      ItoaDigits(b.port);
      var restA, restB := Itoa(a.port) + ([NUL] + a.path), Itoa(b.port) + ([NUL] + b.path);
      FirstSplit(a.workload, b.workload, a.scheme + ([NUL] + (a.host + ([NUL] + restA))), b.scheme + ([NUL] + (b.host + ([NUL] + restB))));
      FirstSplit(a.scheme, b.scheme, a.host + ([NUL] + restA), b.host + ([NUL] + restB));
      FirstSplit(a.host, b.host, restA, restB);
      FirstSplit(Itoa(a.port), Itoa(b.port), a.path, b.path);
      ItoaInjective(a.port, b.port);
    }
  }

  // ---- What normalising establishes ----

  lemma HostChars(lib: Library, host: string, c: char)
    requires LibraryOk(lib) && HostOk(host, true, lib.isAddress) && c in host
    ensures AddressChar(c) || c == '-'
  {
    if !lib.isAddress(host) && c != '.' {
      SplitCovers(host, '.', c);
      var part :| part in Split(host, '.') && c in part;
      assert LabelOk(part);
    }
  }

  lemma NormalizedIsKeyed(lib: Library, route: Route)
    requires LibraryOk(lib) && Normalize(lib, route).Some?
    ensures Keyed(Normalize(lib, route).value)
  {
    var r := Normalize(lib, route).value;
    assert IsControl(NUL);
    if NUL in r.host {
      HostChars(lib, r.host, NUL);
      assert false;
    }
  }

  lemma NormalizedUpstreams(lib: Library, route: Route)
    requires LibraryOk(lib) && Normalize(lib, route).Some?
    ensures var ups := Normalize(lib, route).value.upstreams;
      Sorted(ups) && |ups| <= 16 && forall u | u in ups :: u != "" && lib.sanitize(u) == u
  {
    var all := Ordered(Sanitized(lib, route.upstreams));
    forall u | u in Cap(all)
      ensures u != "" && lib.sanitize(u) == u
    {
      assert u in Elements(all);
    }
  }

  // ---- The canonical merge, without order ----

  // The normalised routes of an input list.
  ghost function NormalSet(lib: Library, routes: seq<Route>): set<Route> {
    set q | q in routes && Normalize(lib, q).Some? :: Normalize(lib, q).value
  }

  ghost predicate Serves(from: set<Route>, key: string, upstream: string) {
    exists n :: n in from && Key(n) == key && upstream in n.upstreams
  }

  ghost predicate HasKind(from: set<Route>, key: string, kind: Kind) {
    exists n :: n in from && Key(n) == key && n.kind == kind
  }

  // `r` is the merge of the routes with its key: their fields, their strongest
  // kind, and the sorted union of their upstreams.
  ghost predicate Represents(from: set<Route>, r: Route) {
    && HasKind(from, Key(r), r.kind)
    && (forall n | n in from && Key(n) == Key(r) :: SameEndpoint(n, r) && Rank(n.kind) <= Rank(r.kind))
    && Sorted(r.upstreams)
    && (forall u :: u in r.upstreams <==> Serves(from, Key(r), u))
  }

  function Keys(list: seq<Route>): seq<string> {
    seq(|list|, i requires 0 <= i < |list| => Key(list[i]))
  }

  // `list` is the canonical merge of `from`: strictly sorted by key, one route
  // for every key that occurs, each the merge of its group.
  ghost predicate Canonical(from: set<Route>, list: seq<Route>) {
    && Sorted(Keys(list))
    && (forall n | n in from :: Key(n) in Keys(list))
    && (forall r | r in list :: Represents(from, r))
  }

  lemma RepresentsUnique(from: set<Route>, a: Route, b: Route)
    requires forall n | n in from :: KindOk(n.kind)
    requires Represents(from, a) && Represents(from, b) && Key(a) == Key(b)
    ensures a == b
  {
    var m :| m in from && Key(m) == Key(a) && m.kind == a.kind;
    var n :| n in from && Key(n) == Key(b) && n.kind == b.kind;
    assert SameEndpoint(m, a) && SameEndpoint(m, b);
    assert Rank(a.kind) == Rank(b.kind);
    forall u
      ensures u in Elements(a.upstreams) <==> u in Elements(b.upstreams)
    {
      assert u in a.upstreams <==> Serves(from, Key(a), u);
    }
    SortedUnique(a.upstreams, b.upstreams);
  }

  lemma KeyElements(list: seq<Route>, r: Route)
    requires r in list
    ensures Key(r) in Elements(Keys(list))
  {
    var i :| 0 <= i < |list| && list[i] == r;
    assert Keys(list)[i] == Key(r);
  }

  lemma CanonicalKeys(from: set<Route>, list: seq<Route>, key: string)
    requires Canonical(from, list)
    ensures key in Elements(Keys(list)) <==> exists n :: n in from && Key(n) == key
  {
    if key in Elements(Keys(list)) {
      var i :| 0 <= i < |list| && Keys(list)[i] == key;
      assert Represents(from, list[i]);
    }
  }

  // A set of routes has one canonical merge.
  lemma CanonicalUnique(from: set<Route>, a: seq<Route>, b: seq<Route>)
    requires forall n | n in from :: KindOk(n.kind)
    requires Canonical(from, a) && Canonical(from, b)
    ensures a == b
  {
    forall key
      ensures key in Elements(Keys(a)) <==> key in Elements(Keys(b))
    {
      CanonicalKeys(from, a, key);
      CanonicalKeys(from, b, key);
    }
    SortedUnique(Keys(a), Keys(b));
    assert |Keys(a)| == |a| && |Keys(b)| == |b|;
    forall i | 0 <= i < |a|
      ensures a[i] == b[i]
    {
      assert Keys(a)[i] == Keys(b)[i];
      RepresentsUnique(from, a[i], b[i]);
    }
  }

  // ---- The fold builds it ----

  ghost predicate MapOk(from: set<Route>, byKey: map<string, Route>) {
    && (forall n | n in from :: Keyed(n) && Sorted(n.upstreams) && "" !in n.upstreams && Key(n) in byKey)
    && (forall key | key in byKey :: Key(byKey[key]) == key && Keyed(byKey[key]) && Represents(from, byKey[key]))
  }

  lemma RepresentsNew(from: set<Route>, r: Route)
    requires forall n | n in from :: Keyed(n) && Key(n) != Key(r)
    requires Keyed(r) && Sorted(r.upstreams)
    ensures Represents(from + {r}, r)
  {
    assert r in from + {r};
    assert HasKind(from + {r}, Key(r), r.kind);
    forall u
      ensures u in r.upstreams <==> Serves(from + {r}, Key(r), u)
    {
    }
  }

  lemma RepresentsJoin(from: set<Route>, existing: Route, r: Route)
    requires forall n | n in from :: Keyed(n) && "" !in n.upstreams
    requires Represents(from, existing) && Key(existing) == Key(r) && Keyed(existing) && Keyed(r) && "" !in r.upstreams
    ensures Key(Join(existing, r)) == Key(r) && Keyed(Join(existing, r))
    ensures Represents(from + {r}, Join(existing, r))
  {
    var joined, all := Join(existing, r), from + {r};
    KeyInjective(existing, r);
    var n :| n in from && Key(n) == Key(r) && n.kind == existing.kind;
    assert n in all && r in all;
    assert HasKind(all, Key(r), joined.kind);
    forall u
      ensures u in joined.upstreams <==> Serves(all, Key(r), u)
    {
      UniqueMembers(existing.upstreams + r.upstreams, u);
      assert u in existing.upstreams <==> Serves(from, Key(r), u);
      if Serves(from, Key(r), u) {
        var m :| m in from && Key(m) == Key(r) && u in m.upstreams;
        assert m in all;
      }
    }
  }

  lemma UniqueMembers(values: seq<string>, u: string)
    ensures u in UniqueOrdered(values) <==> u in values && u != ""
  {
    assert u in UniqueOrdered(values) <==> u in Elements(UniqueOrdered(values));
  }

  lemma PutKeeps(from: set<Route>, byKey: map<string, Route>, r: Route)
    requires MapOk(from, byKey) && Keyed(r) && Sorted(r.upstreams) && "" !in r.upstreams
    ensures MapOk(from + {r}, Put(byKey, r))
  {
    var after := Put(byKey, r);
    if Key(r) in byKey {
      RepresentsJoin(from, byKey[Key(r)], r);
    } else {
      RepresentsNew(from, r);
    }
    forall key | key in after && key != Key(r)
      ensures Represents(from + {r}, after[key])
    {
    }
  }

  lemma NormalSetSnoc(lib: Library, routes: seq<Route>)
    requires routes != []
    ensures var before, last := NormalSet(lib, routes[..|routes| - 1]), Normalize(lib, routes[|routes| - 1]);
      NormalSet(lib, routes) == if last.None? then before else before + {last.value}
  {
    var init, last := routes[..|routes| - 1], routes[|routes| - 1];
    assert routes == init + [last];
    assert forall q :: q in routes <==> q in init || q == last;
  }

  lemma {:induction false} ByKeyOk(lib: Library, routes: seq<Route>)
    requires LibraryOk(lib)
    ensures MapOk(NormalSet(lib, routes), ByKey(lib, routes))
  {
    if routes != [] {
      var init, last := routes[..|routes| - 1], routes[|routes| - 1];
      ByKeyOk(lib, init);
      NormalSetSnoc(lib, routes);
      if Normalize(lib, last).Some? {
        NormalizedIsKeyed(lib, last);
        NormalizedUpstreams(lib, last);
        PutKeeps(NormalSet(lib, init), ByKey(lib, init), Normalize(lib, last).value);
      }
    }
  }

  lemma ListedIsCanonical(from: set<Route>, byKey: map<string, Route>)
    requires MapOk(from, byKey)
    ensures Canonical(from, Listed(byKey))
  {
    var keys, list := Ordered(byKey.Keys), Listed(byKey);
    forall i | 0 <= i < |keys|
      ensures keys[i] in byKey && Key(list[i]) == keys[i]
    {
      assert keys[i] in Elements(keys);
    }
    assert Keys(list) == keys;
    forall n | n in from
      ensures Key(n) in keys
    {
      assert Key(n) in Elements(keys);
    }
  }

  // The result is the canonical merge of the normalised input.
  lemma MergeIsCanonical(lib: Library, routes: seq<Route>)
    requires LibraryOk(lib)
    ensures Canonical(NormalSet(lib, routes), Merge(lib, routes))
  {
    ByKeyOk(lib, routes);
    ListedIsCanonical(NormalSet(lib, routes), ByKey(lib, routes));
  }

  // Neither the order of the input nor repetition in it matters.
  lemma OrderDoesNotMatter(lib: Library, a: seq<Route>, b: seq<Route>)
    requires LibraryOk(lib) && Elements(a) == Elements(b)
    ensures Merge(lib, a) == Merge(lib, b)
  {
    assert forall q :: q in a <==> q in Elements(a);
    assert forall q :: q in b <==> q in Elements(b);
    assert NormalSet(lib, a) == NormalSet(lib, b);
    MergeIsCanonical(lib, a);
    MergeIsCanonical(lib, b);
    CanonicalUnique(NormalSet(lib, a), Merge(lib, a), Merge(lib, b));
  }

  // ---- Merging again ----

  // A merged route passes normalising again, except that its upstreams are
  // cut to sixteen.
  lemma NormalizeAgain(lib: Library, from: seq<Route>, r: Route)
    requires LibraryOk(lib) && Represents(NormalSet(lib, from), r)
    ensures Normalize(lib, r) == Some(r.(upstreams := Cap(r.upstreams)))
  {
    var normals := NormalSet(lib, from);
    var n :| n in normals && Key(n) == Key(r) && n.kind == r.kind;
    var q :| q in from && Normalize(lib, q).Some? && Normalize(lib, q).value == n;
    TrimmedAgain(lib, q, r);
    SanitizedAgain(lib, from, r);
  }

  lemma SanitizedAgain(lib: Library, from: seq<Route>, r: Route)
    requires LibraryOk(lib) && Represents(NormalSet(lib, from), r)
    ensures Ordered(Sanitized(lib, r.upstreams)) == r.upstreams
  {
    forall u | u in r.upstreams
      ensures u != "" && lib.sanitize(u) == u
    {
      MergedUpstream(lib, from, r, u);
    }
    assert Sanitized(lib, r.upstreams) == Elements(r.upstreams);
    SortedUnique(Ordered(Elements(r.upstreams)), r.upstreams);
  }

  lemma MergedUpstream(lib: Library, from: seq<Route>, r: Route, u: string)
    requires LibraryOk(lib) && Represents(NormalSet(lib, from), r) && u in r.upstreams
    ensures u != "" && lib.sanitize(u) == u
  {
    var normals := NormalSet(lib, from);
    assert Serves(normals, Key(r), u);
    var m :| m in normals && Key(m) == Key(r) && u in m.upstreams;
    var p :| p in from && Normalize(lib, p).Some? && Normalize(lib, p).value == m;
    NormalizedUpstreams(lib, p);
  }

  lemma TrimmedAgain(lib: Library, q: Route, r: Route)
    requires LibraryOk(lib) && FieldsOk(lib, Trimmed(lib, q)) && SameEndpoint(Trimmed(lib, q), r) && KindOk(r.kind)
    ensures FieldsOk(lib, r) && Trimmed(lib, r) == r
  {
    TrimSpaceEnds(q.path);
    TrimSpaceKeeps(r.path);
    TrimSpaceKeeps(r.scheme);
    if r.host != "" {
      HostChars(lib, r.host, r.host[0]);
      HostChars(lib, r.host, r.host[|r.host| - 1]);
      TrimSpaceKeeps(r.host);
    }
  }

  function Capped(list: seq<Route>): seq<Route> {
    seq(|list|, i requires 0 <= i < |list| => list[i].(upstreams := Cap(list[i].upstreams)))
  }

  // Merging a merged list only cuts every upstream list to sixteen entries.
  lemma MergeAgain(lib: Library, routes: seq<Route>)
    requires LibraryOk(lib)
    ensures Merge(lib, Merge(lib, routes)) == Capped(Merge(lib, routes))
  {
    var list := Merge(lib, routes);
    var capped := Capped(list);
    MergeIsCanonical(lib, routes);
    forall r | r in list
      ensures Normalize(lib, r) == Some(r.(upstreams := Cap(r.upstreams)))
    {
      NormalizeAgain(lib, routes, r);
    }
    var from := NormalSet(lib, list);
    CappedElements(lib, list);
    CappedIsCanonical(list, from);
    MergeIsCanonical(lib, list);
    CanonicalUnique(from, Merge(lib, list), capped);
  }

  lemma CappedElements(lib: Library, list: seq<Route>)
    requires forall r | r in list :: Normalize(lib, r) == Some(r.(upstreams := Cap(r.upstreams)))
    ensures NormalSet(lib, list) == Elements(Capped(list))
  {
    var capped := Capped(list);
    forall r | r in NormalSet(lib, list)
      ensures r in capped
    {
      var i :| 0 <= i < |list| && Normalize(lib, list[i]) == Some(r);
      assert list[i] in list && capped[i] == r;
    }
    forall i | 0 <= i < |list|
      ensures capped[i] in NormalSet(lib, list)
    {
      assert list[i] in list;
    }
  }

  lemma CappedIsCanonical(list: seq<Route>, from: set<Route>)
    requires Sorted(Keys(list)) && from == Elements(Capped(list))
    requires forall r | r in list :: Sorted(r.upstreams)
    ensures Canonical(from, Capped(list))
  {
    var capped := Capped(list);
    assert Keys(capped) == Keys(list);
    forall n | n in from
      ensures Key(n) in Keys(capped)
    {
      KeyElements(capped, n);
    }
    forall i | 0 <= i < |capped|
      ensures Represents(from, capped[i])
    {
      AloneInGroup(capped, i);
      assert capped[i] in from;
    }
  }

  lemma AloneInGroup(list: seq<Route>, i: nat)
    requires i < |list| && Sorted(Keys(list)) && Sorted(list[i].upstreams)
    ensures Represents(Elements(list), list[i])
  {
    var from, r := Elements(list), list[i];
    forall n | n in from && Key(n) == Key(r)
      ensures n == r
    {
      var j :| 0 <= j < |list| && list[j] == n;
      if j < i {
        LessAsymmetric(Keys(list)[j], Keys(list)[i]);
      } else if i < j {
        LessAsymmetric(Keys(list)[i], Keys(list)[j]);
      }
    }
    assert r in from;
    assert HasKind(from, Key(r), r.kind);
    forall u
      ensures u in r.upstreams <==> Serves(from, Key(r), u)
    {
    }
  }

  // Merging is idempotent exactly when every merged upstream list has at most
  // sixteen entries; a merged list may be longer, because only the lists that
  // go in are cut.
  lemma IdempotentIffShort(lib: Library, routes: seq<Route>)
    requires LibraryOk(lib)
    ensures Merge(lib, Merge(lib, routes)) == Merge(lib, routes)
       <==> forall r | r in Merge(lib, routes) :: |r.upstreams| <= 16
  {
    MergeAgain(lib, routes);
    var list := Merge(lib, routes);
    if forall r | r in list :: |r.upstreams| <= 16 {
      forall i | 0 <= i < |list|
        ensures Capped(list)[i] == list[i]
      {
        assert list[i] in list;
      }
    } else {
      var i :| 0 <= i < |list| && |list[i].upstreams| > 16;
      assert |Capped(list)[i].upstreams| == 16;
    }
  }

  // The upstreams, capped per entry, that the entries of one key bring along.
  ghost function GroupUpstreams(normals: set<Route>, key: string): set<string> {
    set n, u | n in normals && Key(n) == key && u in n.upstreams :: u
  }

  lemma MergedLength(normals: set<Route>, r: Route)
    requires Represents(normals, r)
    ensures |r.upstreams| == |GroupUpstreams(normals, Key(r))|
  {
    forall u ensures u in Elements(r.upstreams) <==> u in GroupUpstreams(normals, Key(r)) {
      assert u in r.upstreams <==> Serves(normals, Key(r), u);
    }
    assert Elements(r.upstreams) == GroupUpstreams(normals, Key(r));
    SortedLength(r.upstreams);
  }

  ghost predicate GroupShort(normals: set<Route>, key: string) {
    |GroupUpstreams(normals, key)| <= 16
  }

  lemma RouteOfGroup(normals: set<Route>, list: seq<Route>, n: Route) returns (r: Route)
    requires Canonical(normals, list) && n in normals
    ensures r in list && Key(r) == Key(n) && |r.upstreams| == |GroupUpstreams(normals, Key(n))|
  {
    assert Key(n) in Keys(list);
    var i :| 0 <= i < |Keys(list)| && Keys(list)[i] == Key(n);
    r := list[i];
    MergedLength(normals, r);
  }

  lemma GroupOfRoute(normals: set<Route>, list: seq<Route>, r: Route) returns (n: Route)
    requires Canonical(normals, list) && r in list
    ensures n in normals && Key(n) == Key(r) && |r.upstreams| == |GroupUpstreams(normals, Key(n))|
  {
    assert HasKind(normals, Key(r), r.kind);
    n :| n in normals && Key(n) == Key(r) && n.kind == r.kind;
    MergedLength(normals, r);
  }

  lemma GroupsShortWhenRoutesAre(normals: set<Route>, list: seq<Route>)
    requires Canonical(normals, list) && forall r | r in list :: |r.upstreams| <= 16
    ensures forall n | n in normals :: GroupShort(normals, Key(n))
  {
    forall n | n in normals ensures GroupShort(normals, Key(n)) {
      var r := RouteOfGroup(normals, list, n);
    }
  }

  lemma RoutesShortWhenGroupsAre(normals: set<Route>, list: seq<Route>)
    requires Canonical(normals, list) && forall n | n in normals :: GroupShort(normals, Key(n))
    ensures forall r | r in list :: |r.upstreams| <= 16
  {
    forall r | r in list ensures |r.upstreams| <= 16 {
      var n := GroupOfRoute(normals, list, r);
      assert GroupShort(normals, Key(n));
    }
  }

  // The same read off the input: the entries of one key bring at most sixteen
  // different upstreams together.
  lemma IdempotentIffGroupsShort(lib: Library, routes: seq<Route>)
    requires LibraryOk(lib)
    ensures Merge(lib, Merge(lib, routes)) == Merge(lib, routes)
       <==> forall n | n in NormalSet(lib, routes) :: GroupShort(NormalSet(lib, routes), Key(n))
  {
    IdempotentIffShort(lib, routes);
    MergeIsCanonical(lib, routes);
    if forall r | r in Merge(lib, routes) :: |r.upstreams| <= 16 {
      GroupsShortWhenRoutesAre(NormalSet(lib, routes), Merge(lib, routes));
    }
    if forall n | n in NormalSet(lib, routes) :: GroupShort(NormalSet(lib, routes), Key(n)) {
      RoutesShortWhenGroupsAre(NormalSet(lib, routes), Merge(lib, routes));
    }
  }

  // An input on which merging is not idempotent: two entries for one route
  // with seventeen upstreams between them, which the normaliser keeps.
  function Example(upstreams: seq<string>): Route {
    Route("docker:w", Proxy, "http", "", 80, "/", upstreams)
  }

  predicate KeepsExample(lib: Library, upstreams: seq<string>) {
    && lib.lower("http") == "http" && lib.lower("") == ""
    && forall u | u in upstreams :: u != "" && lib.sanitize(u) == u
  }

  lemma SeventeenUpstreams(lib: Library, names: seq<string>)
    requires LibraryOk(lib) && KeepsExample(lib, names)
    requires |names| == 17 && forall i, j :: 0 <= i < j < 17 ==> names[i] != names[j]
    ensures var input := [Example(names[..16]), Example(names[16..])];
      Merge(lib, Merge(lib, input)) != Merge(lib, input)
  {
    var a, b := Example(names[..16]), Example(names[16..]);
    var input := [a, b];
    assert names == names[..16] + names[16..];
    DistinctElements(names);
    DistinctElements(names[..16]);
    DistinctElements(names[16..]);
    ExampleNormalizes(lib, names[..16]);
    ExampleNormalizes(lib, names[16..]);
    var normals := NormalSet(lib, input);
    var na, nb := Normalize(lib, a).value, Normalize(lib, b).value;
    assert a in input && b in input;
    assert na in normals && nb in normals;
    MergeIsCanonical(lib, input);
    var r := RouteOfGroup(normals, Merge(lib, input), na);
    assert Represents(normals, r);
    forall u | u in names
      ensures u in Elements(r.upstreams)
    {
      assert u in names[..16] || u in names[16..];
      assert Serves(normals, Key(r), u);
    }
    SortedLength(r.upstreams);
    Subset(Elements(names), Elements(r.upstreams));
    IdempotentIffShort(lib, input);
  }

  lemma {:induction false} DistinctElements(names: seq<string>)
    requires forall i, j :: 0 <= i < j < |names| ==> names[i] != names[j]
    ensures |Elements(names)| == |names|
  {
    if names != [] {
      var n := |names| - 1;
      DistinctElements(names[..n]);
      assert names == names[..n] + [names[n]];
      assert Elements(names) == Elements(names[..n]) + {names[n]};
    }
  }

  // A short list of distinct upstreams is only sorted.
  lemma ExampleNormalizes(lib: Library, upstreams: seq<string>)
    requires KeepsExample(lib, upstreams) && |Elements(upstreams)| == |upstreams| <= 16
    ensures Normalize(lib, Example(upstreams)) == Some(Example(Ordered(Elements(upstreams))))
    ensures forall u :: u in upstreams ==> u in Ordered(Elements(upstreams))
  {
    ExampleTexts();
    TrimSpaceKeeps("http");
    TrimSpaceKeeps("/");
    assert Sanitized(lib, upstreams) == Elements(upstreams);
    var all := Ordered(Elements(upstreams));
    SortedLength(all);
    assert forall u :: u in upstreams ==> u in Elements(all);
  }

  lemma ExampleTexts()
    ensures WorkloadOk("docker:w") && PathOk("/")
  {
  }

  lemma Subset(a: set<string>, b: set<string>)
    requires a <= b
    ensures |a| <= |b|
  {
    assert b == a + (b - a);
  }
}
