// The Caddy line scanner computes the meaning of the tree it reads.
module CaddyMeaning {
  import opened Text
  import opened RouteMerge
  import opened CaddyRoutes

  // ---- Lines without braces, block openings and block closings ----

  lemma {:induction false} HeadOfPlain(words: seq<string>)
    requires Plain(words)
    ensures Head(words) == words && Head(words + ["{"]) == words && LeadingCloses(words) == 0
  {
    if words != [] {
      assert Plain(words[1..]);
      HeadOfPlain(words[1..]);
      assert (words + ["{"])[1..] == words[1..] + ["{"];
    }
  }

  lemma {:induction false} BracesOfPlain(env: Env, s: Scan, words: seq<string>)
    requires Plain(words)
    ensures Braces(env, s, words) == s
  {
    if words != [] {
      assert words[0] in words && Plain(words[1..]);
      BracesOfPlain(env, s, words[1..]);
    }
  }

  lemma {:induction false} BracesOfHeader(env: Env, s: Scan, words: seq<string>)
    requires Plain(words)
    ensures Braces(env, s, words + ["{"]) == s.(depth := s.depth + 1)
  {
    var tokens := words + ["{"];
    if words == [] {
      assert tokens[1..] == [];
    } else {
      assert words[0] in words && Plain(words[1..]);
      BracesOfHeader(env, s, words[1..]);
      assert tokens[1..] == words[1..] + ["{"];
    }
  }

  lemma PlainLine(env: Env, s: Scan, words: seq<string>)
    requires Plain(words)
    ensures ScanLine(env, s, words)
         == if words == [] then s else Directive(env, s, words)
  {
    HeadOfPlain(words);
    assert words[0..] == words;
    if words != [] {
      BracesOfPlain(env, Directive(env, s, words), words);
    }
  }

  lemma HeaderLine(env: Env, s: Scan, words: seq<string>)
    requires Plain(words)
    ensures var tokens, sited := words + ["{"], OpenSite(env, s, words + ["{"]);
      ScanLine(env, s, tokens) == Directive(env, sited, tokens).(depth := Directive(env, sited, tokens).depth + 1)
  {
    var tokens := words + ["{"];
    HeadOfPlain(words);
    assert tokens[0] == (if words == [] then "{" else words[0]);
    assert words != [] ==> words[0] in words;
    assert LeadingCloses(tokens) == 0 && tokens[0..] == tokens;
    BracesOfHeader(env, Directive(env, OpenSite(env, s, tokens), tokens), words);
  }

  lemma {:induction false} ScanAppend(env: Env, s: Scan, a: seq<seq<string>>, b: seq<seq<string>>)
    ensures ScanLines(env, s, a + b) == ScanLines(env, ScanLines(env, s, a), b)
    decreases |a|
  {
    if a == [] {
      assert a + b == b;
    } else {
      ScanAppend(env, ScanLine(env, s, a[0]), a[1..], b);
      assert (a + b)[1..] == a[1..] + b;
    }
  }

  lemma ScanBlock(env: Env, s: Scan, words: seq<string>, children: seq<Node>)
    ensures ScanLines(env, s, NodeLines(Block(words, children)))
         == ScanLine(env, ScanLines(env, ScanLine(env, s, words + ["{"]), Lines(children)), ["}"])
  {
    var header := [words + ["{"]];
    ScanAppend(env, s, header, Lines(children) + [["}"]]);
    var inside := ScanLine(env, s, words + ["{"]);
    ScanAppend(env, inside, Lines(children), [["}"]]);
  }

  // ---- Inside a site ----

  // Between two lines of a site: no path is remembered for a deeper block.
  predicate InSite(s: Scan) {
    s.addresses != [] && s.siteDepth == 1 <= s.depth && forall k | k in s.paths :: k <= s.depth
  }

  function PathAt(s: Scan): string {
    CurrentPath(s.paths, s.siteDepth, s.depth)
  }

  function Adding(s: Scan, found: seq<Route>): Scan {
    s.(routes := s.routes + found, routeCount := s.routeCount + |found|)
  }

  lemma DirectiveMeans(env: Env, s: Scan, words: seq<string>)
    requires InSite(s) && Plain(words) && words != []
    ensures Directive(env, s, words) == Adding(s, OwnRoutes(env, s.addresses, PathAt(s), words))
  {
    HeadOfPlain(words);
    if IsHandle(words[0]) {
      assert s.routes + [] == s.routes;
    } else if words[0] != "reverse_proxy" {
      assert s.routes + [] == s.routes;
    }
  }

  // What a block's header leaves: its own routes, and its path one level down.
  function Entered(s: Scan, words: seq<string>, found: seq<Route>): Scan {
    var path := FirstPath(Args(words));
    var added := Adding(s, found).(depth := s.depth + 1);
    if words != [] && IsHandle(words[0]) && path != "" then added.(paths := s.paths[s.depth + 1 := path]) else added
  }

  lemma HeaderMeans(env: Env, s: Scan, words: seq<string>)
    requires InSite(s) && Plain(words)
    ensures ScanLine(env, s, words + ["{"]) == Entered(s, words, OwnRoutes(env, s.addresses, PathAt(s), words))
  {
    var tokens := words + ["{"];
    HeaderLine(env, s, words);
    HeadOfPlain(words);
    assert s.routes + [] == s.routes;
    assert "{" in tokens;
    if words == [] {
      assert tokens[0] == "{";
    } else {
      assert tokens[0] == words[0];
    }
  }

  lemma EnteredPath(s: Scan, words: seq<string>, found: seq<Route>)
    requires InSite(s)
    ensures InSite(Entered(s, words, found))
    ensures PathAt(Entered(s, words, found)) == InnerPath(PathAt(s), words)
  {
    var e := Entered(s, words, found);
    if e.paths == s.paths {
      assert s.depth + 1 !in s.paths;
    }
  }

  lemma LeaveBlock(env: Env, s: Scan, words: seq<string>, found: seq<Route>, more: seq<Route>)
    requires InSite(s)
    ensures Close(env, Adding(Entered(s, words, found), more)) == Adding(s, found + more)
  {
    var e := Adding(Entered(s, words, found), more);
    assert s.depth + 1 !in s.paths;
    assert e.paths - {e.depth} == s.paths;
    assert s.routes + found + more == s.routes + (found + more);
  }

  // Scanning the lines of a tree inside a site adds exactly its proxies, and
  // gives back depth and paths as they were.
  lemma {:induction false} ScanMeansProxies(env: Env, s: Scan, nodes: seq<Node>)
    requires InSite(s) && TreeOk(nodes)
    ensures ScanLines(env, s, Lines(nodes)) == Adding(s, Proxies(env, s.addresses, PathAt(s), nodes))
    decreases nodes, 1
  {
    if nodes == [] {
      assert s.routes + [] == s.routes;
    } else {
      var first := NodeProxies(env, s, nodes[0]);
      ScanAppend(env, s, NodeLines(nodes[0]), Lines(nodes[1..]));
      NodeMeansProxies(env, s, nodes[0]);
      ScanMeansProxies(env, Adding(s, first), nodes[1..]);
      AddingTwice(s, first, Proxies(env, s.addresses, PathAt(s), nodes[1..]));
    }
  }

  lemma AddingTwice(s: Scan, first: seq<Route>, more: seq<Route>)
    ensures Adding(Adding(s, first), more) == Adding(s, first + more)
  {
    assert s.routes + first + more == s.routes + (first + more);
  }

  function NodeProxies(env: Env, s: Scan, node: Node): seq<Route> {
    var path := PathAt(s);
    OwnRoutes(env, s.addresses, path, node.words)
    + (if node.Block? then Proxies(env, s.addresses, InnerPath(path, node.words), node.children) else [])
  }

  lemma {:induction false} NodeMeansProxies(env: Env, s: Scan, node: Node)
    requires InSite(s) && Plain(node.words) && (node.Block? ==> TreeOk(node.children))
    ensures ScanLines(env, s, NodeLines(node)) == Adding(s, NodeProxies(env, s, node))
    decreases node, 0
  {
    var own := OwnRoutes(env, s.addresses, PathAt(s), node.words);
    match node
    case Line(words) =>
      PlainLine(env, s, words);
      assert own + [] == own && s.routes + [] == s.routes;
      if words != [] {
        DirectiveMeans(env, s, words);
      }
    case Block(words, children) =>
      ScanBlock(env, s, words, children);
      HeaderMeans(env, s, words);
      EnteredPath(s, words, own);
      var inside := Entered(s, words, own);
      ScanMeansProxies(env, inside, children);
      var more := Proxies(env, s.addresses, InnerPath(PathAt(s), words), children);
      LeaveBlock(env, s, words, own, more);
  }

  // ---- Outside sites ----

  // Inside a top-level block that is not a site, or between blocks.
  predicate Outside(s: Scan) {
    s.addresses == [] && s.siteDepth == 0 && s.routeCount == 0 && s.paths == map[] && s.depth >= 0
  }

  lemma {:induction false} OutsideIgnores(env: Env, s: Scan, nodes: seq<Node>)
    requires Outside(s) && s.depth >= 1 && TreeOk(nodes)
    ensures ScanLines(env, s, Lines(nodes)) == s
    decreases nodes
  {
    if nodes != [] {
      ScanAppend(env, s, NodeLines(nodes[0]), Lines(nodes[1..]));
      OutsideIgnores(env, s, nodes[1..]);
      match nodes[0]
      case Line(words) =>
        PlainLine(env, s, words);
      case Block(words, children) =>
        ScanBlock(env, s, words, children);
        HeaderLine(env, s, words);
        var inside := s.(depth := s.depth + 1);
        OutsideIgnores(env, inside, children);
        assert inside.paths - {inside.depth} == s.paths;
    }
  }

  lemma SiteHeader(env: Env, s: Scan, words: seq<string>)
    requires Outside(s) && s.depth == 0 && Plain(words)
    ensures var addresses := AddressesOf(env, words);
      ScanLine(env, s, words + ["{"])
      == if addresses == [] then s.(depth := 1) else s.(depth := 1, addresses := addresses, siteDepth := 1)
  {
    HeaderLine(env, s, words);
    HeadOfPlain(words);
    assert "{" in words + ["{"];
  }

  lemma TopLevelMeans(env: Env, s: Scan, node: Node)
    requires Outside(s) && s.depth == 0 && Plain(node.words) && (node.Block? ==> TreeOk(node.children))
    ensures ScanLines(env, s, NodeLines(node)) == s.(routes := s.routes + SiteMeaning(env, node))
  {
    match node
    case Line(words) =>
      PlainLine(env, s, words);
      assert s.routes + [] == s.routes;
    case Block(words, children) =>
      ScanBlock(env, s, words, children);
      SiteHeader(env, s, words);
      var addresses := AddressesOf(env, words);
      if addresses == [] {
        OutsideIgnores(env, s.(depth := 1), children);
        assert s.paths - {1} == s.paths && s.routes + [] == s.routes;
      } else {
        var site := s.(depth := 1, addresses := addresses, siteDepth := 1);
        assert PathAt(site) == "/";
        ScanMeansProxies(env, site, children);
        assert s.routes + [] == s.routes;
      }
  }

  lemma {:induction false} ScanMeansTree(env: Env, s: Scan, nodes: seq<Node>)
    requires Outside(s) && s.depth == 0 && TreeOk(nodes)
    ensures ScanLines(env, s, Lines(nodes)) == s.(routes := s.routes + Meaning(env, nodes))
    decreases |nodes|
  {
    if nodes == [] {
      assert s.routes + [] == s.routes;
    } else {
      ScanAppend(env, s, NodeLines(nodes[0]), Lines(nodes[1..]));
      TopLevelMeans(env, s, nodes[0]);
      ScanMeansTree(env, s.(routes := s.routes + SiteMeaning(env, nodes[0])), nodes[1..]);
      assert s.routes + SiteMeaning(env, nodes[0]) + Meaning(env, nodes[1..])
          == s.routes + (SiteMeaning(env, nodes[0]) + Meaning(env, nodes[1..]));
    }
  }

  // Whatever its spacing, quoting and comments, a file whose lines lex to the
  // lines of a tree yields the canonical merge of the tree's meaning.
  lemma FileMeansTree(env: Env, content: string, nodes: seq<Node>)
    requires TreeOk(nodes) && LexedLines(Split(content, '\n')) == Lines(nodes)
    requires |content| <= MAX_PROXY_CONFIG_BYTES
    ensures ParsedRoutes(env, content) == Some(Merge(env.lib, Meaning(env, nodes)))
  {
    ScanMeansTree(env, START, nodes);
    assert [] + Meaning(env, nodes) == Meaning(env, nodes);
  }

  // ---- Printed trees ----

  // Every word quoted, one line for each entry.
  function FileText(lines: seq<seq<string>>): string {
    if lines == [] then "" else LineText(lines[0]) + ("\n" + FileText(lines[1..]))
  }

  function LineText(tokens: seq<string>): string {
    ConfigSyntax.Text(ConfigSyntax.Pieces(tokens))
  }

  predicate Printable(lines: seq<seq<string>>) {
    forall line | line in lines :: line != [] && forall word | word in line :: '\n' !in word
  }

  lemma {:induction false} EscapedStaysOnLine(word: string, quote: char)
    requires '\n' !in word
    ensures '\n' !in ConfigSyntax.Escaped(word, quote)
  {
    if word != [] {
      EscapedStaysOnLine(word[1..], quote);
    }
  }

  lemma {:induction false} TokensStayOnLine(tokens: seq<string>)
    requires forall word | word in tokens :: '\n' !in word
    ensures '\n' !in LineText(tokens)
  {
    if tokens != [] {
      TokensStayOnLine(tokens[1..]);
      EscapedStaysOnLine(tokens[0], '"');
      var pieces := ConfigSyntax.Pieces(tokens);
      assert pieces[1..] == ConfigSyntax.Pieces(tokens[1..]);
      assert tokens[0] in tokens;
      assert '\n' !in ConfigSyntax.PieceText(pieces[0]);
    }
  }

  lemma {:induction false} SplitAtNewline(line: string, rest: string)
    requires '\n' !in line
    ensures Split(line + ("\n" + rest), '\n') == [line] + Split(rest, '\n')
  {
    var text := line + ("\n" + rest);
    if line == "" {
      assert text[1..] == rest;
    } else {
      SplitAtNewline(line[1..], rest);
      assert text[1..] == line[1..] + ("\n" + rest) && text[0] == line[0];
      assert line == [line[0]] + line[1..];
    }
  }

  lemma {:induction false} PrintedLines(lines: seq<seq<string>>)
    requires Printable(lines)
    ensures LexedLines(Split(FileText(lines), '\n')) == lines
  {
    if lines == [] {
      assert Split("", '\n') == [""] && [""][1..] == [];
    } else {
      assert lines[0] in lines && forall line | line in lines[1..] :: line in lines;
      PrintedLines(lines[1..]);
      TokensStayOnLine(lines[0]);
      SplitAtNewline(LineText(lines[0]), FileText(lines[1..]));
      ConfigSyntax.PiecesRender(lines[0]);
      ConfigSyntax.LexUndoesText(ConfigSyntax.Pieces(lines[0]));
      var parts := [LineText(lines[0])] + Split(FileText(lines[1..]), '\n');
      assert parts[1..] == Split(FileText(lines[1..]), '\n');
    }
  }

  // From a tree to a file and back: parsing the printed file gives the
  // canonical merge of the tree's meaning.
  lemma PrintedTreeMeans(env: Env, nodes: seq<Node>)
    requires TreeOk(nodes) && Printable(Lines(nodes)) && |FileText(Lines(nodes))| <= MAX_PROXY_CONFIG_BYTES
    ensures ParsedRoutes(env, FileText(Lines(nodes))) == Some(Merge(env.lib, Meaning(env, nodes)))
  {
    PrintedLines(Lines(nodes));
    FileMeansTree(env, FileText(Lines(nodes)), nodes);
  }
}
