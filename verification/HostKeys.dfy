// When two hosts can form event keys with one text (internal/hub/event_rules.go, internal/hub/projection.go).
module HostKeys {
  import opened Text
  import opened Telemetry
  import opened Projection

  // The host ids of a configuration (internal/hub/config.go). They may hold
  // colons, and so may workload keys and bind addresses.
  predicate HostIdOk(host: HostId) {
    Identifier(host, 128) && TrimSpace(host) == host
  }

  function Head(protocol: string): string {
    "listener:" + protocol + "://"
  }

  function Opening(protocol: string): string {
    Head(protocol) + "["
  }

  // A bind address that begins like this has a zone behind a real address, and
  // is public neither as it stands nor however it goes on.
  predicate Zoned(lib: Library, start: string) {
    '%' in start && lib.address(Unzoned(start)).Some? && !lib.address(Unzoned(start)).value.Unspecified?
  }

  predicate OpensListener(lib: Library, rest: string, protocol: string) {
    Opening(protocol) <= rest && !Zoned(lib, rest[|Opening(protocol)|..])
  }

  // What a host id may go on with for a workload key or a bind address to
  // spell the remainder and another key behind it.
  predicate Spellable(lib: Library, rest: string) {
    || rest == "workload" || "workload:" <= rest
    || OpensListener(lib, rest, "tcp") || OpensListener(lib, rest, "udp")
  }

  predicate Nested(lib: Library, a: HostId, b: HostId) {
    a + ":" <= b && Spellable(lib, b[|a| + 1..])
  }

  ghost predicate ShareText(lib: Library, h1: HostId, h2: HostId) {
    exists k1, k2 :: SharedText(lib, h1, k1, h2, k2)
  }

  ghost predicate SharedText(lib: Library, h1: HostId, k1: Key, h2: HostId, k2: Key) {
    Formable(lib, k1) && Formable(lib, k2) && DedupeKey(h1, k1) == DedupeKey(h2, k2)
  }

  // Two hosts have the text of a key in common exactly when one is nested in
  // the other.
  lemma HostsCollideIffNested(lib: Library, h1: HostId, h2: HostId)
    requires LibraryOk(lib) && HostIdOk(h1) && HostIdOk(h2) && h1 != h2
    ensures ShareText(lib, h1, h2) <==> Nested(lib, h1, h2) || Nested(lib, h2, h1)
  {
    forall k1, k2 | SharedText(lib, h1, k1, h2, k2)
      ensures Nested(lib, h1, h2) || Nested(lib, h2, h1)
    {
      if |h1| <= |h2| {
        SharedTextNests(lib, h1, k1, h2, k2);
      } else {
        SharedTextNests(lib, h2, k2, h1, k1);
      }
    }
    if Nested(lib, h1, h2) {
      var k1, k2 := NestedShareText(lib, h1, h2);
      assert SharedText(lib, h1, k1, h2, k2);
    }
    if Nested(lib, h2, h1) {
      var k2, k1 := NestedShareText(lib, h2, h1);
      assert SharedText(lib, h1, k1, h2, k2);
    }
  }

  // The text of a key the hub can form names host, family and argument, as
  // long as neither host is nested in the other.
  lemma DedupeKeyInjective(lib: Library, h1: HostId, k1: Key, h2: HostId, k2: Key)
    requires SharedText(lib, h1, k1, h2, k2)
    requires !Nested(lib, h1, h2) && !Nested(lib, h2, h1)
    ensures h1 == h2 && k1 == k2
  {
    if h1 != h2 {
      if |h1| <= |h2| {
        SharedTextNests(lib, h1, k1, h2, k2);
      } else {
        SharedTextNests(lib, h2, k2, h1, k1);
      }
      assert false;
    }
    SameHostText(h1, k1, k2);
  }

  // Without colons in host ids nothing is nested.
  lemma PlainHostsNeverNest(lib: Library, a: HostId, b: HostId)
    requires ':' !in b
    ensures !Nested(lib, a, b)
  {
    var start := a + ":";
    assert start[|a|] == ':';
    if start <= b {
      assert false;
    }
  }

  // ---- A shared text nests the hosts ----

  lemma SharedTextNests(lib: Library, a: HostId, ka: Key, b: HostId, kb: Key)
    requires SharedText(lib, a, ka, b, kb) && a != b && |a| <= |b|
    ensures Nested(lib, a, b)
  {
    CutAtColon(a, KeySuffix(ka), b, KeySuffix(kb));
    var rest := b[|a| + 1..];
    InnerColon(ka, rest, kb);
    if ka.ListenerAdded? {
      InnerListener(lib, ka, rest, kb);
    }
  }

  lemma CutAtColon(a: string, ta: string, b: string, tb: string)
    requires a + ":" + ta == b + ":" + tb && a != b && |a| <= |b|
    ensures a + ":" <= b && ta == b[|a| + 1..] + ":" + tb
  {
    var text := a + ":" + ta;
    assert a == text[..|a|] && b == text[..|b|];
    assert |a| < |b| && b[|a|] == text[|a|] == ':';
    assert b == a + ":" + b[|a| + 1..];
    assert ta == text[|a| + 1..];
  }

  // A suffix that holds another one behind a colon is of the two families
  // with a variable part.
  lemma InnerColon(ka: Key, rest: string, kb: Key)
    requires KeySuffix(ka) == rest + ":" + KeySuffix(kb)
    ensures ka.WorkloadFailed? || ka.ListenerAdded?
    ensures ka.WorkloadFailed? ==> rest == "workload" || "workload:" <= rest
  {
    var t, n := KeySuffix(ka), |rest| + 1 + ColonOf(kb);
    assert t[|rest|] == ':' && t[n] == ':';
    if ka.WorkloadFailed? {
      FirstWord(ka, rest, KeySuffix(kb));
    } else if !ka.ListenerAdded? {
      assert t[|rest| + 1] == KeySuffix(kb)[0];
      FixedColons(ka, |rest|, n);
      assert false;
    }
  }

  lemma FirstWord(key: Key, rest: string, inner: string)
    requires key.WorkloadFailed? && KeySuffix(key) == rest + ":" + inner
    ensures rest == "workload" || "workload:" <= rest
  {
    var t, word := KeySuffix(key), "workload:";
    assert word == t[..9];
    assert forall i | 0 <= i < 8 :: t[i] == word[i] != ':';
    assert t[|rest|] == ':';
    assert rest == t[..|rest|];
    if |rest| == 8 {
      assert t[..8] == word[..8];
    } else {
      assert word == rest[..9];
    }
  }

  // Of the suffixes without a variable part one has two colons.
  lemma FixedColons(key: Key, i: nat, j: nat)
    requires !key.WorkloadFailed? && !key.ListenerAdded?
    requires i < j < |KeySuffix(key)| && KeySuffix(key)[i] == KeySuffix(key)[j] == ':'
    ensures key.RootDisk? && i == 8 && j == 13
  {
  }

  // The colon after the first word of a suffix.
  function ColonOf(key: Key): (at: nat)
    ensures at < |KeySuffix(key)| && KeySuffix(key)[at] == ':'
    ensures at == 4 ==> KeySuffix(key)[0] == 'h'
  {
    match key
    case HostOffline => 4
    case SshBruteforce => 3
    case _ => 8
  }

  // ---- A listener key that holds another key ----

  // Everything of a listener's suffix in front of its port.
  function Stem(protocol: string, bind: string): string {
    Head(protocol) + Bracketed(bind)
  }

  lemma DecimalDigits(port: int)
    requires port >= 1
    ensures Decimal(port) != "" && forall c :: c in Decimal(port) ==> '0' <= c <= '9'
  {
    RouteMerge.ItoaDigits(port);
  }

  lemma ListenerSuffix(protocol: string, bind: string, port: int)
    ensures KeySuffix(ListenerAdded(EndpointKey(protocol, bind, port))) == Stem(protocol, bind) + ":" + Decimal(port)
  {
    Flatten("listener:", protocol, "://", Bracketed(bind), ":", Decimal(port));
  }

  lemma Flatten(a: string, b: string, c: string, d: string, e: string, f: string)
    ensures a + (b + c + d + e + f) == (a + b + c) + d + e + f
  {
  }

  // Only a listener's suffix ends in a digit.
  lemma SuffixEnd(key: Key)
    requires '0' <= KeySuffix(key)[|KeySuffix(key)| - 1] <= '9'
    ensures key.ListenerAdded?
  {
  }

  lemma SameStem(x: string, c: string, y: string, d: string)
    requires x + ":" + c == y + ":" + d && ':' !in c && ':' !in d
    ensures x == y
  {
    var t := x + ":" + c;
    LastColon(x, c);
    LastColon(y, d);
    assert |x| == |y|;
    assert x == t[..|x|] && y == t[..|y|];
  }

  lemma LastColon(x: string, c: string)
    requires ':' !in c
    ensures var t := x + ":" + c; t[|x|] == ':' && forall i :: |x| < i < |t| ==> t[i] != ':'
  {
    var t := x + ":" + c;
    assert forall i :: |x| < i < |t| ==> t[i] == c[i - |x| - 1];
  }

  lemma InnerIsListener(x: string, digits: string, rest: string, kb: Key)
    requires digits != "" && forall c :: c in digits ==> '0' <= c <= '9'
    requires x + ":" + digits == rest + ":" + KeySuffix(kb)
    ensures kb.ListenerAdded?
  {
    var t, inner := x + ":" + digits, KeySuffix(kb);
    assert ColonOf(kb) < |inner|;
    assert digits[|digits| - 1] in digits;
    assert t[|t| - 1] == digits[|digits| - 1] == inner[|inner| - 1];
    SuffixEnd(kb);
  }

  lemma InnerListener(lib: Library, ka: Key, rest: string, kb: Key)
    requires Formable(lib, ka) && Formable(lib, kb) && ka.ListenerAdded?
    requires KeySuffix(ka) == rest + ":" + KeySuffix(kb)
    ensures OpensListener(lib, rest, "tcp") || OpensListener(lib, rest, "udp")
  {
    var p, bind, port :| ListenerKey(lib, ka.endpoint, p, bind, port);
    ListenerSuffix(p, bind, port);
    DecimalDigits(port);
    InnerIsListener(Stem(p, bind), Decimal(port), rest, kb);
    var p2, bind2, port2 :| ListenerKey(lib, kb.endpoint, p2, bind2, port2);
    ListenerSuffix(p2, bind2, port2);
    DecimalDigits(port2);
    Regroup(rest, Stem(p2, bind2), Decimal(port2));
    SameStem(Stem(p, bind), Decimal(port), rest + ":" + Stem(p2, bind2), Decimal(port2));
    StemInStem(p, bind, rest, p2, bind2);
    OpeningOfBind(lib, p, bind, rest);
  }

  // A stem inside a stem lies behind the bracket of the bind address.
  lemma StemInStem(p: string, bind: string, rest: string, p2: string, bind2: string)
    requires p == "tcp" || p == "udp"
    requires Stem(p, bind) == rest + ":" + Stem(p2, bind2)
    ensures Opening(p) <= rest && rest[|Opening(p)|..] <= bind
  {
    HeadColons(p);
    assert Stem(p2, bind2)[0] == 'l';
    BehindHead(Head(p), bind, rest, Stem(p2, bind2));
  }

  lemma HeadColons(p: string)
    requires p == "tcp" || p == "udp"
    ensures var h := Head(p);
      |h| == 15 && h[9] != 'l' && h[13] != 'l' && forall i | 0 <= i < 15 && h[i] == ':' :: i == 8 || i == 12
  {
  }

  lemma BehindHead(head: string, bind: string, rest: string, inner: string)
    requires |head| == 15 && head[9] != 'l' && head[13] != 'l'
    requires forall i | 0 <= i < 15 && head[i] == ':' :: i == 8 || i == 12
    requires inner != "" && inner[0] == 'l'
    requires head + Bracketed(bind) == rest + ":" + inner
    ensures head + "[" <= rest && rest[|head + "["|..] <= bind
  {
    var t, q, tail := head + Bracketed(bind), |rest|, Bracketed(bind);
    assert t[q] == ':' && t[q + 1] == 'l';
    assert q >= 15 by {
      assert forall i | 0 <= i < 15 :: t[i] == head[i];
    }
    assert tail[q - 15] == t[q];
    assert tail == "[" + bind + "]";
    assert q >= 16 && q - 16 < |bind|;
    assert rest == t[..q] == head + "[" + bind[..q - 16];
  }

  lemma OpeningOfBind(lib: Library, p: string, bind: string, rest: string)
    requires Opening(p) <= rest && rest[|Opening(p)|..] <= bind && ClassifyBind(lib, bind).Public?
    ensures OpensListener(lib, rest, p)
  {
    var start := rest[|Opening(p)|..];
    if Zoned(lib, start) {
      ZoneDecides(start, bind);
      assert false;
    }
  }

  // ---- Zones ----

  lemma {:induction false} TrimLeftMark(u: string, w: string)
    ensures TrimLeft(u + "%" + w) == TrimLeft(u) + "%" + w
  {
    if u != "" {
      assert (u + "%" + w)[1..] == u[1..] + "%" + w;
      if IsSpace(u[0]) {
        TrimLeftMark(u[1..], w);
      }
    }
  }

  lemma {:induction false} TrimRightMark(u: string, w: string)
    ensures TrimRight(u + "%" + w) == u + "%" + TrimRight(w)
  {
    var t := u + "%" + w;
    if w != "" && IsSpace(w[|w| - 1]) {
      assert t[..|t| - 1] == u + "%" + w[..|w| - 1];
      TrimRightMark(u, w[..|w| - 1]);
    }
  }

  lemma {:induction false} DropLeftMark(u: string, w: string)
    ensures DropLeft(u + "%" + w) == DropLeft(u) + "%" + w
  {
    if u != "" {
      assert (u + "%" + w)[1..] == u[1..] + "%" + w;
      if IsBracket(u[0]) {
        DropLeftMark(u[1..], w);
      }
    }
  }

  lemma {:induction false} DropRightMark(u: string, w: string)
    ensures DropRight(u + "%" + w) == u + "%" + DropRight(w)
  {
    var t := u + "%" + w;
    if w != "" && IsBracket(w[|w| - 1]) {
      assert t[..|t| - 1] == u + "%" + w[..|w| - 1];
      DropRightMark(u, w[..|w| - 1]);
    }
  }

  lemma {:induction false} DropLeftMembers(text: string)
    ensures forall c :: c in DropLeft(text) ==> c in text
    ensures forall c :: c in text && !IsBracket(c) ==> c in DropLeft(text)
  {
    if text != "" && IsBracket(text[0]) {
      DropLeftMembers(text[1..]);
      assert text == [text[0]] + text[1..];
    }
  }

  lemma {:induction false} DropRightMembers(text: string)
    ensures forall c :: c in DropRight(text) ==> c in text
    ensures forall c :: c in text && !IsBracket(c) ==> c in DropRight(text)
  {
    var n := |text| - 1;
    if text != "" && IsBracket(text[n]) {
      DropRightMembers(text[..n]);
      assert text == text[..n] + [text[n]];
    }
  }

  lemma {:induction false} TrimLeftMembers(text: string)
    ensures forall c :: c in TrimLeft(text) ==> c in text
    ensures forall c :: c in text && !IsSpace(c) ==> c in TrimLeft(text)
  {
    if text != "" && IsSpace(text[0]) {
      TrimLeftMembers(text[1..]);
      assert text == [text[0]] + text[1..];
    }
  }

  lemma {:induction false} TrimRightMembers(text: string)
    ensures forall c :: c in TrimRight(text) ==> c in text
    ensures forall c :: c in text && !IsSpace(c) ==> c in TrimRight(text)
  {
    var n := |text| - 1;
    if text != "" && IsSpace(text[n]) {
      TrimRightMembers(text[..n]);
      assert text == text[..n] + [text[n]];
    }
  }

  lemma BareMembers(bind: string)
    ensures forall c :: c in Bare(bind) ==> c in bind
    ensures forall c :: c in bind && !IsSpace(c) && !IsBracket(c) ==> c in Bare(bind)
  {
    TrimLeftMembers(bind);
    TrimRightMembers(TrimLeft(bind));
    DropLeftMembers(TrimSpace(bind));
    DropRightMembers(DropLeft(TrimSpace(bind)));
  }

  lemma BareMark(u: string, w: string)
    requires '%' !in u
    ensures Unzoned(u + "%" + w) == DropLeft(TrimLeft(u)) && '%' in Bare(u + "%" + w)
  {
    var bind := u + "%" + w;
    var v := TrimLeft(u);
    TrimLeftMark(u, w);
    TrimRightMark(v, w);
    DropLeftMark(v, TrimRight(w));
    DropRightMark(DropLeft(v), TrimRight(w));
    TrimLeftMembers(u);
    DropLeftMembers(v);
    BeforeSeparator(DropLeft(v), '%', DropRight(TrimRight(w)));
    assert bind[|u|] == '%';
    BareMembers(bind);
  }

  lemma {:induction false} FirstMark(text: string) returns (u: string, w: string)
    requires '%' in text
    ensures text == u + "%" + w && '%' !in u
  {
    if text[0] == '%' {
      u, w := "", text[1..];
    } else {
      u, w := FirstMark(text[1..]);
      u := [text[0]] + u;
    }
  }

  // A zone mark decides what comes in front of it, however the text goes on.
  lemma ZoneDecides(start: string, bind: string)
    requires '%' in start && start <= bind
    ensures Unzoned(bind) == Unzoned(start) && '%' in Bare(bind)
  {
    var u, w := FirstMark(start);
    assert bind == u + "%" + (w + bind[|start|..]);
    BareMark(u, w);
    BareMark(u, w + bind[|start|..]);
  }

  // ---- Nested hosts share a text ----

  // Keys of two nested hosts with one text: of two workloads, or of two
  // listeners.
  lemma NestedShareText(lib: Library, a: HostId, b: HostId) returns (ka: Key, kb: Key)
    requires LibraryOk(lib) && HostIdOk(b) && Nested(lib, a, b)
    ensures SharedText(lib, a, ka, b, kb)
    ensures (ka.WorkloadFailed? && kb.WorkloadFailed?) || (ka.ListenerAdded? && kb.ListenerAdded?)
  {
    var rest := b[|a| + 1..];
    assert b == a + ":" + rest;
    TailIsQuiet(b, |a| + 1);
    if rest == "workload" || "workload:" <= rest {
      ka, kb := OuterWorkload(rest);
    } else if OpensListener(lib, rest, "tcp") {
      ka, kb := OuterListener(lib, rest, "tcp");
    } else {
      ka, kb := OuterListener(lib, rest, "udp");
    }
    Regroup(a, rest, KeySuffix(kb));
  }

  lemma TailIsQuiet(host: HostId, n: nat)
    requires Identifier(host, 128) && n <= |host|
    ensures |host[n..]| <= 128 && !HasControl(host[n..])
  {
    assert forall c :: c in host[n..] ==> c in host;
  }

  lemma Regroup(a: string, b: string, c: string)
    ensures a + ":" + (b + ":" + c) == (a + ":" + b) + ":" + c
  {
  }

  lemma RegroupEnd(a: string, b: string, c: string, d: string)
    ensures a + (b + c) + d == (a + b) + (c + d)
  {
  }

  lemma QuietConcat(a: string, b: string)
    ensures HasControl(a + b) <==> HasControl(a) || HasControl(b)
  {
    if HasControl(a) || HasControl(b) {
      var c :| (c in a || c in b) && IsControl(c);
      assert c in a + b;
    }
  }

  lemma OuterWorkload(rest: string) returns (ka: Key, kb: Key)
    requires (rest == "workload" || "workload:" <= rest) && |rest| <= 128 && !HasControl(rest)
    ensures KeySuffix(ka) == rest + ":" + KeySuffix(kb)
    ensures ka.WorkloadFailed? && Identifier(ka.workload, 512) && kb == WorkloadFailed("x")
  {
    var rest' := rest + ":";
    QuietConcat(rest, ":");
    assert "workload:" <= rest';
    var r := rest'[9..];
    assert rest' == "workload:" + r;
    QuietConcat("workload:", r);
    QuietConcat(r, "workload:" + "x");
    ka, kb := WorkloadFailed(r + ("workload:" + "x")), WorkloadFailed("x");
    RegroupEnd("workload:", r, "workload:" + "x", ":failed");
  }

  const ANYWHERE := "::"

  lemma AnywhereIsPublic(lib: Library)
    ensures ClassifyBind(lib, ANYWHERE).Public?
    ensures ListenerKey(lib, EndpointKey("tcp", ANYWHERE, 80), "tcp", ANYWHERE, 80)
  {
  }

  // The bind address that spells the remainder and a listener behind it.
  function OuterBind(start: string): string {
    start + ":" + (Head("tcp") + "[::")
  }

  lemma OuterBindIsPublic(lib: Library, start: string)
    requires LibraryOk(lib) && !Zoned(lib, start)
    ensures ClassifyBind(lib, OuterBind(start)).Public?
  {
    var bind := OuterBind(start);
    assert start <= bind;
    assert Head("tcp")[0] == 'l';
    assert bind[|start| + 1] == 'l';
    BareMembers(bind);
    assert 'l' in Bare(bind);
    if '%' in start {
      ZoneDecides(start, bind);
    } else {
      assert '%' !in Head("tcp") + "[::";
      assert '%' !in bind;
      BeforeNone(Bare(bind), '%');
      assert Unzoned(bind) == Bare(bind);
    }
  }

  lemma {:induction false} BeforeNone(text: string, separator: char)
    requires separator !in text
    ensures Before(text, separator) == text
  {
    if text != "" {
      BeforeNone(text[1..], separator);
    }
  }

  lemma OuterListener(lib: Library, rest: string, p: string) returns (ka: Key, kb: Key)
    requires LibraryOk(lib) && (p == "tcp" || p == "udp") && OpensListener(lib, rest, p) && |rest| <= 128 && !HasControl(rest)
    ensures KeySuffix(ka) == rest + ":" + KeySuffix(kb)
    ensures ka.ListenerAdded? && kb.ListenerAdded? && Formable(lib, ka) && Formable(lib, kb)
  {
    var start := rest[|Opening(p)|..];
    var bind := OuterBind(start);
    ka, kb := ListenerAdded(EndpointKey(p, bind, 80)), ListenerAdded(EndpointKey("tcp", ANYWHERE, 80));
    OuterBindIsPublic(lib, start);
    AnywhereIsPublic(lib);
    OuterTexts(rest, p);
    assert ListenerKey(lib, ka.endpoint, p, bind, 80);
  }

  lemma OuterTexts(rest: string, p: string)
    requires (p == "tcp" || p == "udp") && Opening(p) <= rest && |rest| <= 128 && !HasControl(rest)
    ensures var key := EndpointKey(p, OuterBind(rest[|Opening(p)|..]), 80);
      && Identifier(key, 512)
      && "listener:" + key == rest + ":" + KeySuffix(ListenerAdded(EndpointKey("tcp", ANYWHERE, 80)))
  {
    var start := rest[|Opening(p)|..];
    var bind := OuterBind(start);
    assert rest == Opening(p) + start;
    ListenerSuffix(p, bind, 80);
    ListenerSuffix("tcp", ANYWHERE, 80);
    OuterStem(Head(p), start, Head("tcp"));
    assert Stem(p, bind) == rest + ":" + Stem("tcp", ANYWHERE);
    Regroup(rest, Stem("tcp", ANYWHERE), Decimal(80));
    OuterIdentifier(rest, EndpointKey(p, bind, 80));
  }

  lemma OuterStem(h: string, s: string, x: string)
    ensures h + Bracketed(s + ":" + (x + "[::")) == (h + "[" + s) + ":" + (x + Bracketed(ANYWHERE))
  {
    var bind := s + ":" + (x + "[::");
    assert bind[|s|] == ':';
    assert Bracketed(bind) == "[" + bind + "]";
    assert "[::" + "]" == Bracketed(ANYWHERE);
  }

  lemma OuterIdentifier(rest: string, key: string)
    requires |rest| <= 128 && !HasControl(rest) && key != ""
    requires "listener:" + key == rest + ":" + KeySuffix(ListenerAdded(EndpointKey("tcp", ANYWHERE, 80)))
    ensures Identifier(key, 512)
  {
    var inner := KeySuffix(ListenerAdded(EndpointKey("tcp", ANYWHERE, 80)));
    assert inner == "listener:tcp://[::]:80";
    QuietConcat(rest, ":");
    QuietConcat(rest + ":", inner);
    QuietConcat("listener:", key);
  }

  // Two hosts of which one is nested in the other, with a text in common.
  lemma DedupeKeyCollision(lib: Library)
    ensures SharedText(lib, "a", WorkloadFailed("b:workload:x"), "a:workload:b", WorkloadFailed("x"))
  {
    var inner := KeySuffix(WorkloadFailed("x"));
    RegroupEnd("workload:", "b:", "workload:x", ":failed");
    assert "b:" + "workload:x" == "b:workload:x" && "workload:" + "b:" == "workload:b" + ":";
    assert inner == "workload:x" + ":failed";
    Regroup("a", "workload:b", inner);
    assert "a" + ":" + "workload:b" == "a:workload:b";
    PlainIdentifiers();
  }

  lemma PlainIdentifiers()
    ensures Identifier("b:workload:x", 512) && Identifier("x", 512)
  {
  }
}
