// The lexer and the block parser shared by the proxy-config readers
// (internal/agent/proxy_routes.go). Characters stand for the bytes of the file.
module ConfigSyntax {

  // ---- Lexer ----

  predicate IsBlank(c: char) {
    c == ' ' || c == '\t' || c == '\r' || c == '\n'
  }

  predicate IsMark(c: char) {
    c == '{' || c == '}' || c == ';'
  }

  predicate IsQuote(c: char) {
    c == '\'' || c == '"'
  }

  // A bare word stops in front of one of these; a quote inside it does not stop it.
  predicate EndsBare(c: char) {
    IsBlank(c) || IsMark(c) || c == '#'
  }

  function AfterComment(s: string): (rest: string)
    ensures |rest| <= |s| && (s != [] && s[0] != '\n' ==> |rest| < |s|)
  {
    if s == [] || s[0] == '\n' then s else AfterComment(s[1..])
  }

  function BareLength(s: string): (n: nat)
    ensures n <= |s| && (s != [] && !EndsBare(s[0]) ==> n > 0)
  {
    if s == [] || EndsBare(s[0]) then 0 else 1 + BareLength(s[1..])
  }

  // The value of a quoted word, reading just behind its opening quote, and
  // what follows its closing quote.
  function Quoted(s: string, quote: char): (r: (string, string))
    ensures |r.1| <= |s|
  {
    if s == [] then ([], [])
    else if s[0] == quote then ([], s[1..])
    else if s[0] == '\\' && |s| > 1 then
      var r := Quoted(s[2..], quote);
      ([s[1]] + r.0, r.1)
    else
      var r := Quoted(s[1..], quote);
      ([s[0]] + r.0, r.1)
  }

  // The token at the front of the text, if any, and the text behind it.
  function First(s: string): seq<string>
    requires s != []
  {
    if s[0] == '#' || IsBlank(s[0]) then []
    else if IsMark(s[0]) then [[s[0]]]
    else if IsQuote(s[0]) then [Quoted(s[1..], s[0]).0]
    else [s[..BareLength(s)]]
  }

  function AfterFirst(s: string): (rest: string)
    requires s != []
    ensures |rest| < |s|
  {
    if s[0] == '#' then AfterComment(s)
    else if IsBlank(s[0]) || IsMark(s[0]) then s[1..]
    else if IsQuote(s[0]) then Quoted(s[1..], s[0]).1
    else s[BareLength(s)..]
  }

  function Lex(s: string): seq<string>
    decreases |s|
  {
    if s == [] then [] else First(s) + Lex(AfterFirst(s))
  }

  method LexConfig(content: string) returns (tokens: seq<string>)
    ensures tokens == Lex(content)
  {
    tokens := [];
    var index := 0;
    while index < |content|
      invariant index <= |content|
      invariant tokens + Lex(content[index..]) == Lex(content)
    {
      var found, next := LexFirst(content, index);
      assert tokens + (found + Lex(content[next..])) == (tokens + found) + Lex(content[next..]);
      tokens, index := tokens + found, next;
    }
  }

  method LexFirst(content: string, start: nat) returns (found: seq<string>, index: nat)
    requires start < |content|
    ensures start < index <= |content|
    ensures found == First(content[start..]) && content[index..] == AfterFirst(content[start..])
  {
    var character := content[start];
    assert content[start..][1..] == content[start + 1..];
    if character == '#' {
      index := SkipComment(content, start);
      found := [];
    } else if IsBlank(character) {
      found, index := [], start + 1;
    } else if IsMark(character) {
      found, index := [[character]], start + 1;
    } else if IsQuote(character) {
      var value;
      value, index := ReadQuoted(content, start + 1, character);
      found := [value];
    } else {
      index := SkipBare(content, start);
      assert content[start..][..index - start] == content[start..index];
      assert content[start..][index - start..] == content[index..];
      found := [content[start..index]];
    }
  }

  method SkipComment(content: string, start: nat) returns (index: nat)
    requires start < |content| && content[start] == '#'
    ensures start < index <= |content|
    ensures content[index..] == AfterComment(content[start..])
  {
    index := start;
    while index < |content| && content[index] != '\n'
      invariant start <= index <= |content|
      invariant AfterComment(content[index..]) == AfterComment(content[start..])
    {
      assert content[index..][1..] == content[index + 1..];
      index := index + 1;
    }
  }

  method SkipBare(content: string, start: nat) returns (index: nat)
    requires start <= |content|
    ensures start <= index <= |content| && index - start == BareLength(content[start..])
  {
    index := start;
    while index < |content| && !EndsBare(content[index])
      invariant start <= index <= |content|
      invariant BareLength(content[start..]) == index - start + BareLength(content[index..])
    {
      assert content[index..][1..] == content[index + 1..];
      index := index + 1;
    }
  }

  method ReadQuoted(content: string, start: nat, quote: char) returns (value: string, index: nat)
    requires start <= |content|
    ensures start <= index <= |content|
    ensures value == Quoted(content[start..], quote).0 && content[index..] == Quoted(content[start..], quote).1
  {
    value, index := [], start;
    while index < |content| && content[index] != quote
      invariant start <= index <= |content|
      invariant ReadSoFar(content, start, quote, value, index)
    {
      ReadOneMore(content, start, quote, value, index);
      if content[index] == '\\' && index + 1 < |content| {
        index := index + 1;
      }
      value := value + [content[index]];
      index := index + 1;
    }
    if index < |content| {
      assert content[index..][1..] == content[index + 1..];
      index := index + 1;
    }
  }

  // `value` is what the quoted word holds up to `index`.
  predicate ReadSoFar(content: string, start: nat, quote: char, value: string, index: nat)
    requires start <= |content| && index <= |content|
  {
    var all, more := Quoted(content[start..], quote), Quoted(content[index..], quote);
    value + more.0 == all.0 && more.1 == all.1
  }

  lemma ReadOneMore(content: string, start: nat, quote: char, value: string, index: nat)
    requires start <= |content| && index < |content| && content[index] != quote
    requires ReadSoFar(content, start, quote, value, index)
    ensures var k := if content[index] == '\\' && index + 1 < |content| then index + 1 else index;
      ReadSoFar(content, start, quote, value + [content[k]], k + 1)
  {
    var k := if content[index] == '\\' && index + 1 < |content| then index + 1 else index;
    var more := Quoted(content[k + 1..], quote);
    assert value + ([content[k]] + more.0) == (value + [content[k]]) + more.0;
  }

  // ---- Writing words so that the lexer reads them back ----

  datatype Style = Bare | Quote(quote: char)

  // A piece of configuration text: a word, a mark, or something to skip.
  datatype Piece = Word(word: string, style: Style) | Mark(mark: char) | Comment(text: string)

  predicate BareOk(word: string) {
    word != [] && !IsQuote(word[0]) && forall c | c in word :: !EndsBare(c)
  }

  predicate PieceOk(p: Piece) {
    match p
    case Word(word, Bare) => BareOk(word)
    case Word(word, Quote(quote)) => IsQuote(quote)
    case Mark(mark) => IsMark(mark)
    case Comment(text) => '\n' !in text
  }

  function Escaped(word: string, quote: char): string {
    if word == [] then []
    else (if word[0] == quote || word[0] == '\\' then ['\\'] else []) + [word[0]] + Escaped(word[1..], quote)
  }

  function PieceText(p: Piece): string {
    match p
    case Word(word, Bare) => word + " "
    case Word(word, Quote(quote)) => [quote] + Escaped(word, quote) + [quote] + " "
    case Mark(mark) => [mark] + " "
    case Comment(text) => "#" + text + "\n"
  }

  function Text(ps: seq<Piece>): string {
    if ps == [] then [] else PieceText(ps[0]) + Text(ps[1..])
  }

  function Token(p: Piece): seq<string> {
    match p
    case Word(word, _) => [word]
    case Mark(mark) => [[mark]]
    case Comment(_) => []
  }

  function Tokens(ps: seq<Piece>): seq<string> {
    if ps == [] then [] else Token(ps[0]) + Tokens(ps[1..])
  }

  lemma {:induction false} QuotedReadsBack(word: string, quote: char, rest: string)
    requires IsQuote(quote)
    ensures Quoted(Escaped(word, quote) + [quote] + rest, quote).0 == word
    ensures Quoted(Escaped(word, quote) + [quote] + rest, quote).1 == rest
  {
    var s := Escaped(word, quote) + [quote] + rest;
    if word == [] {
      assert s[1..] == rest;
    } else {
      var more := Escaped(word[1..], quote) + [quote] + rest;
      QuotedReadsBack(word[1..], quote, rest);
      if word[0] == quote || word[0] == '\\' {
        assert s == ['\\', word[0]] + more;
        assert s[2..] == more;
      } else {
        assert s == [word[0]] + more;
        assert s[1..] == more;
      }
    }
  }

  lemma {:induction false} BareReadsBack(word: string, rest: string)
    requires forall c | c in word :: !EndsBare(c)
    ensures BareLength(word + " " + rest) == |word|
  {
    if word != [] {
      BareReadsBack(word[1..], rest);
      assert (word + " " + rest)[1..] == word[1..] + " " + rest;
    }
  }

  lemma {:induction false} CommentSkipped(text: string, rest: string)
    requires '\n' !in text
    ensures AfterComment(text + "\n" + rest) == "\n" + rest
  {
    if text == [] {
      assert text + "\n" + rest == "\n" + rest;
    } else {
      CommentSkipped(text[1..], rest);
      assert (text + "\n" + rest)[1..] == text[1..] + "\n" + rest;
    }
  }

  // A piece is lexed as its token; the blank behind it is skipped.
  lemma BareLexed(word: string, rest: string)
    requires BareOk(word)
    ensures Lex(word + " " + rest) == [word] + Lex(rest)
  {
    var s := word + " " + rest;
    BlankSkipped(' ', rest);
    BareReadsBack(word, rest);
    assert s[0] == word[0] && word[0] in word;
    assert s[..|word|] == word && s[|word|..] == [' '] + rest;
  }

  lemma QuotedLexed(word: string, quote: char, rest: string)
    requires IsQuote(quote)
    ensures Lex([quote] + (Escaped(word, quote) + [quote] + ([' '] + rest))) == [word] + Lex(rest)
  {
    var tail := Escaped(word, quote) + [quote] + ([' '] + rest);
    BlankSkipped(' ', rest);
    QuotedReadsBack(word, quote, [' '] + rest);
    assert ([quote] + tail)[1..] == tail;
  }

  lemma CommentLexed(text: string, rest: string)
    requires '\n' !in text
    ensures Lex(("#" + text) + "\n" + rest) == Lex(rest)
  {
    CommentSkipped("#" + text, rest);
    BlankSkipped('\n', rest);
  }

  lemma BlankSkipped(blank: char, rest: string)
    requires IsBlank(blank)
    ensures Lex([blank] + rest) == Lex(rest)
  {
    assert ([blank] + rest)[1..] == rest;
  }

  lemma JoinQuoted(quote: string, body: string, rest: string)
    ensures quote + body + quote + " " + rest == quote + (body + quote + ([' '] + rest))
  {
  }

  lemma PieceReadsBack(p: Piece, rest: string)
    requires PieceOk(p)
    ensures Lex(PieceText(p) + rest) == Token(p) + Lex(rest)
  {
    match p
    case Word(word, Bare) =>
      BareLexed(word, rest);
    case Word(word, Quote(quote)) =>
      QuotedLexed(word, quote, rest);
      JoinQuoted([quote], Escaped(word, quote), rest);
    case Mark(mark) =>
      BlankSkipped(' ', rest);
      assert (PieceText(p) + rest)[1..] == [' '] + rest;
    case Comment(text) =>
      CommentLexed(text, rest);
      assert PieceText(p) + rest == ("#" + text) + "\n" + rest;
  }

  // The lexer undoes rendering: words in any mix of styles, with comments
  // between them, come back as they were, even empty ones and ones that hold
  // quotes, backslashes, blanks or marks.
  lemma {:induction false} LexUndoesText(ps: seq<Piece>)
    requires forall p | p in ps :: PieceOk(p)
    ensures Lex(Text(ps)) == Tokens(ps)
  {
    if ps != [] {
      LexUndoesText(ps[1..]);
      PieceReadsBack(ps[0], Text(ps[1..]));
    }
  }

  // ---- Block parser ----

  datatype ConfigNode = Node(name: string, args: seq<string>, children: seq<ConfigNode>)

  datatype ParseError = UnexpectedBrace | UnterminatedDirective | UnterminatedBlock

  datatype Outcome = Parsed(nodes: seq<ConfigNode>, rest: seq<string>) | Failed(error: ParseError)

  predicate Structural(token: string) {
    token == ";" || token == "{" || token == "}"
  }

  // A directive up to the token that ends it: `after` starts with that token.
  datatype Head = Head(name: string, args: seq<string>, after: seq<string>)

  function ArgCount(tokens: seq<string>): (n: nat)
    ensures n <= |tokens|
  {
    if tokens == [] || Structural(tokens[0]) then 0 else 1 + ArgCount(tokens[1..])
  }

  function HeadOf(tokens: seq<string>): (h: Head)
    requires tokens != []
    ensures |h.after| < |tokens|
  {
    var n := ArgCount(tokens[1..]);
    Head(tokens[0], tokens[1..][..n], tokens[1..][n..])
  }

  lemma {:induction false} ArgsSplit(tokens: seq<string>)
    ensures var n := ArgCount(tokens);
      (forall a | a in tokens[..n] :: !Structural(a)) && (n < |tokens| ==> Structural(tokens[n]))
  {
    if tokens != [] && !Structural(tokens[0]) {
      ArgsSplit(tokens[1..]);
      var n := ArgCount(tokens);
      assert tokens[..n] == [tokens[0]] + tokens[1..][..n - 1];
    }
  }

  function Prepend(nodes: seq<ConfigNode>, outcome: Outcome): Outcome {
    match outcome
    case Parsed(more, rest) => Parsed(nodes + more, rest)
    case Failed(_) => outcome
  }

  function Parse(tokens: seq<string>, nested: bool): (outcome: Outcome)
    ensures outcome.Parsed? ==> |outcome.rest| <= |tokens|
    decreases |tokens|, 1
  {
    if tokens == [] then (if nested then Failed(UnterminatedBlock) else Parsed([], []))
    else if tokens[0] == "}" then (if nested then Parsed([], tokens[1..]) else Failed(UnexpectedBrace))
    else
      var one := ParseOne(tokens);
      if one.Failed? then one else Prepend(one.nodes, Parse(one.rest, nested))
  }

  // One directive or one whole block.
  function ParseOne(tokens: seq<string>): (one: Outcome)
    requires tokens != []
    ensures one.Parsed? ==> |one.rest| < |tokens|
    decreases |tokens|, 0
  {
    var h := HeadOf(tokens);
    if h.after == [] then Failed(UnterminatedDirective)
    else if h.after[0] == ";" then Parsed([Node(h.name, h.args, [])], h.after[1..])
    else if h.after[0] == "{" then
      var inner := Parse(h.after[1..], true);
      if inner.Failed? then inner else Parsed([Node(h.name, h.args, inner.nodes)], inner.rest)
    else Failed(UnexpectedBrace)
  }

  method ReadHead(tokens: seq<string>, start: nat) returns (name: string, args: seq<string>, position: nat)
    requires start < |tokens|
    ensures start < position <= |tokens|
    ensures HeadOf(tokens[start..]) == Head(name, args, tokens[position..])
  {
    name := tokens[start];
    args, position := [], start + 1;
    while position < |tokens| && !Structural(tokens[position])
      invariant start < position <= |tokens| && args == tokens[start + 1..position]
      invariant ArgCount(tokens[start + 1..]) == |args| + ArgCount(tokens[position..])
    {
      assert tokens[position..][1..] == tokens[position + 1..];
      args := args + [tokens[position]];
      position := position + 1;
    }
    ghost var t := tokens[start + 1..];
    assert tokens[start..][1..] == t;
    assert ArgCount(t) == |args| && t[..|args|] == args && t[|args|..] == tokens[position..];
  }

  method ParseConfigNodes(tokens: seq<string>, start: nat, nested: bool) returns (outcome: Outcome, position: nat)
    requires start <= |tokens|
    ensures start <= position <= |tokens|
    ensures outcome == Parse(tokens[start..], nested)
    ensures outcome.Parsed? ==> outcome.rest == tokens[position..]
    decreases |tokens| - start, 1
  {
    var nodes := [];
    position := start;
    while position < |tokens|
      invariant start <= position <= |tokens|
      invariant Parse(tokens[start..], nested) == Prepend(nodes, Parse(tokens[position..], nested))
    {
      if tokens[position] == "}" {
        if !nested {
          return Failed(UnexpectedBrace), position;
        }
        assert tokens[position..][1..] == tokens[position + 1..];
        position := position + 1;
        return Parsed(nodes, tokens[position..]), position;
      }
      var one, next := ParseConfigNode(tokens, position);
      if one.Failed? {
        return one, next;
      }
      PrependTwice(nodes, one.nodes, Parse(tokens[next..], nested));
      nodes, position := nodes + one.nodes, next;
    }
    outcome := if nested then Failed(UnterminatedBlock) else Parsed(nodes, tokens[position..]);
  }

  // One round of the loop above.
  method ParseConfigNode(tokens: seq<string>, start: nat) returns (one: Outcome, position: nat)
    requires start < |tokens|
    ensures start < position <= |tokens|
    ensures one == ParseOne(tokens[start..])
    ensures one.Parsed? ==> one.rest == tokens[position..]
    decreases |tokens| - start, 0
  {
    var name, args, stop := ReadHead(tokens, start);
    position := stop;
    if stop >= |tokens| {
      one := Failed(UnterminatedDirective);
    } else if tokens[stop] == ";" {
      one, position := Parsed([Node(name, args, [])], tokens[stop + 1..]), stop + 1;
    } else if tokens[stop] == "{" {
      var inner;
      inner, position := ParseConfigNodes(tokens, stop + 1, true);
      one := if inner.Failed? then inner else Parsed([Node(name, args, inner.nodes)], inner.rest);
    } else {
      one := Failed(UnexpectedBrace);
    }
  }

  lemma PrependTwice(some: seq<ConfigNode>, more: seq<ConfigNode>, outcome: Outcome)
    ensures Prepend(some, Prepend(more, outcome)) == Prepend(some + more, outcome)
  {
    if outcome.Parsed? {
      assert some + (more + outcome.nodes) == some + more + outcome.nodes;
    }
  }

  // ---- The grammar, stated without the parser ----

  // A plain directive and an empty block are different texts for one node.
  datatype Item = Directive(name: string, args: seq<string>) | Block(name: string, args: seq<string>, items: seq<Item>)

  // A name may be any token but a closing brace; an argument is never structural.
  predicate WordsOk(name: string, args: seq<string>) {
    name != "}" && forall a | a in args :: !Structural(a)
  }

  predicate ItemsOk(items: seq<Item>) {
    items == [] ||
    (&& WordsOk(items[0].name, items[0].args)
     && (items[0].Block? ==> ItemsOk(items[0].items))
     && ItemsOk(items[1..]))
  }

  function Flat(items: seq<Item>): seq<string> {
    if items == [] then [] else Flat1(items[0]) + Flat(items[1..])
  }

  function Flat1(item: Item): seq<string> {
    match item
    case Directive(name, args) => [name] + args + [";"]
    case Block(name, args, inner) => [name] + args + ["{"] + Flat(inner) + ["}"]
  }

  function Meaning(items: seq<Item>): seq<ConfigNode> {
    if items == [] then [] else [Meaning1(items[0])] + Meaning(items[1..])
  }

  function Meaning1(item: Item): ConfigNode {
    match item
    case Directive(name, args) => Node(name, args, [])
    case Block(name, args, inner) => Node(name, args, Meaning(inner))
  }

  lemma {:induction false} ArgsStop(args: seq<string>, stop: string, rest: seq<string>)
    requires Structural(stop) && forall a | a in args :: !Structural(a)
    ensures ArgCount(args + [stop] + rest) == |args|
  {
    if args != [] {
      ArgsStop(args[1..], stop, rest);
      assert (args + [stop] + rest)[1..] == args[1..] + [stop] + rest;
    }
  }

  lemma HeadReadsBack(name: string, args: seq<string>, stop: string, rest: seq<string>)
    requires Structural(stop) && forall a | a in args :: !Structural(a)
    ensures HeadOf([name] + args + [stop] + rest) == Head(name, args, [stop] + rest)
  {
    var t := [name] + args + [stop] + rest;
    ArgsStop(args, stop, rest);
    assert t[1..] == args + [stop] + rest;
    assert t[1..][..|args|] == args && t[1..][|args|..] == [stop] + rest;
  }

  // Every text of the grammar parses to its meaning, at any nesting and in
  // front of any continuation.
  lemma {:induction false} GrammarParses(items: seq<Item>, nested: bool, rest: seq<string>)
    requires ItemsOk(items)
    ensures Parse(Flat(items) + rest, nested) == Prepend(Meaning(items), Parse(rest, nested))
    decreases items, 2
  {
    if items == [] {
      assert Flat(items) + rest == rest;
    } else {
      GrammarParses(items[1..], nested, rest);
      ItemThenParses(items[0], Flat(items[1..]) + rest, nested);
      assert Flat(items) + rest == Flat1(items[0]) + (Flat(items[1..]) + rest);
      PrependTwice([Meaning1(items[0])], Meaning(items[1..]), Parse(rest, nested));
    }
  }

  lemma {:induction false} ItemThenParses(item: Item, rest: seq<string>, nested: bool)
    requires WordsOk(item.name, item.args) && (item.Block? ==> ItemsOk(item.items))
    ensures Parse(Flat1(item) + rest, nested) == Prepend([Meaning1(item)], Parse(rest, nested))
    decreases item, 1
  {
    ItemParses(item, rest);
    assert Flat1(item)[0] == item.name;
    assert (Flat1(item) + rest)[0] == item.name;
  }

  lemma {:induction false} ItemParses(item: Item, rest: seq<string>)
    requires WordsOk(item.name, item.args) && (item.Block? ==> ItemsOk(item.items))
    ensures ParseOne(Flat1(item) + rest) == Parsed([Meaning1(item)], rest)
    decreases item, 0
  {
    match item
    case Directive(name, args) =>
      HeadReadsBack(name, args, ";", rest);
      assert Flat1(item) + rest == [name] + args + [";"] + rest;
    case Block(name, args, inner) =>
      var after := ["}"] + rest;
      GrammarParses(inner, true, after);
      assert after[1..] == rest && Meaning(inner) + [] == Meaning(inner);
      BlockParses(name, args, Flat(inner) + after);
      JoinBody([name] + args + ["{"], Flat(inner), ["}"], rest);
  }

  lemma JoinBody(a: seq<string>, b: seq<string>, c: seq<string>, d: seq<string>)
    ensures a + b + c + d == a + (b + (c + d))
  {
  }

  lemma BlockParses(name: string, args: seq<string>, body: seq<string>)
    requires (forall a | a in args :: !Structural(a)) && Parse(body, true).Parsed?
    ensures ParseOne([name] + args + ["{"] + body)
         == Parsed([Node(name, args, Parse(body, true).nodes)], Parse(body, true).rest)
  {
    HeadReadsBack(name, args, "{", body);
    assert (["{"] + body)[1..] == body;
  }

  // Whatever the parser accepts is a text of the grammar, consumed whole: up
  // to the end, or up to the brace that closes the block.
  lemma {:induction false} ParsedIsGrammar(tokens: seq<string>, nested: bool) returns (items: seq<Item>)
    requires Parse(tokens, nested).Parsed?
    ensures ItemsOk(items) && Meaning(items) == Parse(tokens, nested).nodes
    ensures tokens == Flat(items) + (if nested then ["}"] else []) + Parse(tokens, nested).rest
    ensures !nested ==> Parse(tokens, nested).rest == []
    decreases |tokens|, 1
  {
    if tokens == [] || tokens[0] == "}" {
      items := [];
    } else {
      var first := FirstItem(tokens);
      var after := ParseOne(tokens).rest;
      var more := ParsedIsGrammar(after, nested);
      items := [first] + more;
      assert items[1..] == more;
      assert Flat(items) == Flat1(first) + Flat(more);
      JoinFlat(Flat1(first), Flat(more), if nested then ["}"] else [], Parse(after, nested).rest);
    }
  }

  lemma JoinFlat(a: seq<string>, b: seq<string>, c: seq<string>, d: seq<string>)
    ensures a + (b + c + d) == (a + b) + c + d
  {
  }

  lemma HeadSplits(tokens: seq<string>)
    requires tokens != [] && tokens[0] != "}"
    ensures var h := HeadOf(tokens);
      && WordsOk(h.name, h.args)
      && (h.after != [] ==> Structural(h.after[0]) && tokens == ([h.name] + h.args + [h.after[0]]) + h.after[1..])
  {
    ArgsSplit(tokens[1..]);
  }

  lemma {:induction false} FirstItem(tokens: seq<string>) returns (item: Item)
    requires tokens != [] && tokens[0] != "}" && ParseOne(tokens).Parsed?
    ensures WordsOk(item.name, item.args) && (item.Block? ==> ItemsOk(item.items))
    ensures ParseOne(tokens).nodes == [Meaning1(item)] && tokens == Flat1(item) + ParseOne(tokens).rest
    decreases |tokens|, 0
  {
    var h := HeadOf(tokens);
    HeadSplits(tokens);
    if h.after[0] == ";" {
      item := Directive(h.name, h.args);
    } else {
      var inner := ParsedIsGrammar(h.after[1..], true);
      item := Block(h.name, h.args, inner);
      JoinFlat([h.name] + h.args + ["{"], Flat(inner), ["}"], ParseOne(tokens).rest);
    }
  }

  ghost predicate Derives(items: seq<Item>, tokens: seq<string>) {
    ItemsOk(items) && Flat(items) == tokens
  }

  // The parser accepts exactly the token lists of the grammar, consumes them
  // all, and gives the meaning of any derivation.
  lemma AcceptsExactlyGrammar(tokens: seq<string>)
    ensures Parse(tokens, false).Parsed? <==> exists items :: Derives(items, tokens)
    ensures forall items | Derives(items, tokens) :: Parse(tokens, false) == Parsed(Meaning(items), [])
  {
    forall items | Derives(items, tokens)
      ensures Parse(tokens, false) == Parsed(Meaning(items), [])
    {
      GrammarParses(items, false, []);
      assert Flat(items) + [] == tokens;
    }
    if Parse(tokens, false).Parsed? {
      var items := ParsedIsGrammar(tokens, false);
      assert Flat(items) + [] + [] == tokens;
      assert Derives(items, tokens);
    }
  }

  // ---- Printing trees ----

  predicate Printable(nodes: seq<ConfigNode>) {
    nodes == [] || (WordsOk(nodes[0].name, nodes[0].args) && Printable(nodes[0].children) && Printable(nodes[1..]))
  }

  // A node without children is printed as a directive.
  function Items(nodes: seq<ConfigNode>): seq<Item> {
    if nodes == [] then []
    else
      var node := nodes[0];
      [if node.children == [] then Directive(node.name, node.args) else Block(node.name, node.args, Items(node.children))]
      + Items(nodes[1..])
  }

  lemma {:induction false} ItemsMean(nodes: seq<ConfigNode>)
    ensures Meaning(Items(nodes)) == nodes
    ensures ItemsOk(Items(nodes)) <==> Printable(nodes)
  {
    if nodes != [] {
      var node := nodes[0];
      ItemsMean(node.children);
      ItemsMean(nodes[1..]);
      var items := Items(nodes);
      assert items[1..] == Items(nodes[1..]);
      assert Node(node.name, node.args, node.children) == node && [node] + nodes[1..] == nodes;
    }
  }

  lemma {:induction false} MeaningPrintable(items: seq<Item>)
    requires ItemsOk(items)
    ensures Printable(Meaning(items))
  {
    if items != [] {
      if items[0].Block? {
        MeaningPrintable(items[0].items);
      }
      MeaningPrintable(items[1..]);
      assert Meaning(items)[1..] == Meaning(items[1..]);
    }
  }

  // Parsing the printed form returns the tree exactly when its words are not
  // structural tokens: the lexer gives a quoted brace or semicolon the same
  // token as a bare one, so no quoting can save such a word.
  lemma ParseUndoesPrint(nodes: seq<ConfigNode>)
    ensures Parse(Flat(Items(nodes)), false) == Parsed(nodes, []) <==> Printable(nodes)
  {
    ItemsMean(nodes);
    var tokens := Flat(Items(nodes));
    if Printable(nodes) {
      GrammarParses(Items(nodes), false, []);
      assert tokens + [] == tokens;
    }
    if Parse(tokens, false) == Parsed(nodes, []) {
      var items := ParsedIsGrammar(tokens, false);
      MeaningPrintable(items);
    }
  }

  // Quoted words, and marks bare.
  function Pieces(tokens: seq<string>): seq<Piece> {
    if tokens == [] then []
    else [if Structural(tokens[0]) then Mark(tokens[0][0]) else Word(tokens[0], Quote('"'))] + Pieces(tokens[1..])
  }

  lemma {:induction false} PiecesRender(tokens: seq<string>)
    ensures Tokens(Pieces(tokens)) == tokens && forall p | p in Pieces(tokens) :: PieceOk(p)
  {
    if tokens != [] {
      PiecesRender(tokens[1..]);
      assert Pieces(tokens)[1..] == Pieces(tokens[1..]);
      assert [tokens[0]] + tokens[1..] == tokens;
    }
  }

  // From a tree to text and back through lexer and parser.
  lemma TextRoundTrip(nodes: seq<ConfigNode>)
    ensures Parse(Lex(Text(Pieces(Flat(Items(nodes))))), false) == Parsed(nodes, []) <==> Printable(nodes)
  {
    PiecesRender(Flat(Items(nodes)));
    LexUndoesText(Pieces(Flat(Items(nodes))));
    ParseUndoesPrint(nodes);
  }
}
