// The tokens of any text, as a division into segments (internal/agent/proxy_routes.go).
module ConfigLexing {
  import opened ConfigSyntax

  // A stretch of text: a blank, a mark, a remark up to the end of its line, a
  // quoted word, closed or cut off by the end of the text, or a bare word.
  datatype Segment =
    | Gap(c: char)
    | Sign(c: char)
    | Remark(text: string)
    | Citation(quote: char, body: seq<Letter>, closed: bool)
    | Plain(word: string)

  // A character of a quoted word, perhaps behind a backslash.
  datatype Letter = Letter(c: char, escaped: bool)

  predicate StopsWord(c: char) {
    c in {' ', '\t', '\r', '\n', '{', '}', ';', '#'}
  }

  function LettersText(body: seq<Letter>): string {
    if body == [] then "" else (if body[0].escaped then ['\\'] else []) + [body[0].c] + LettersText(body[1..])
  }

  function LettersValue(body: seq<Letter>): string {
    if body == [] then "" else [body[0].c] + LettersValue(body[1..])
  }

  function SegmentText(g: Segment): string {
    match g
    case Gap(c) => [c]
    case Sign(c) => [c]
    case Remark(text) => "#" + text
    case Citation(quote, body, closed) => [quote] + (LettersText(body) + if closed then [quote] else [])
    case Plain(word) => word
  }

  // `rest` is the text behind the segment.
  predicate SegmentFits(g: Segment, rest: string) {
    match g
    case Gap(c) => c in {' ', '\t', '\r', '\n'}
    case Sign(c) => c in {'{', '}', ';'}
    case Remark(text) => '\n' !in text && (rest == "" || rest[0] == '\n')
    case Citation(quote, body, closed) =>
      && quote in {'\'', '"'} && (!closed ==> rest == "")
      && LettersFit(body, quote, closed)
    case Plain(word) =>
      && word != "" && word[0] !in {'\'', '"'}
      && (forall i | 0 <= i < |word| :: !StopsWord(word[i]))
      && (rest == "" || StopsWord(rest[0]))
  }

  // Inside quotes the quote itself needs a backslash, and a backslash stands
  // for itself only at the end of the text.
  predicate LettersFit(body: seq<Letter>, quote: char, closed: bool) {
    forall i | 0 <= i < |body| && !body[i].escaped ::
      body[i].c != quote && (body[i].c == '\\' ==> !closed && i == |body| - 1)
  }

  function SegmentToken(g: Segment): seq<string> {
    match g
    case Gap(_) => []
    case Sign(c) => [[c]]
    case Remark(_) => []
    case Citation(_, body, _) => [LettersValue(body)]
    case Plain(word) => [word]
  }

  function Joined(gs: seq<Segment>): string {
    if gs == [] then "" else SegmentText(gs[0]) + Joined(gs[1..])
  }

  function TokensOf(gs: seq<Segment>): seq<string> {
    if gs == [] then [] else SegmentToken(gs[0]) + TokensOf(gs[1..])
  }

  predicate Divides(gs: seq<Segment>) {
    gs == [] || (SegmentFits(gs[0], Joined(gs[1..])) && Divides(gs[1..]))
  }

  // ---- Any division gives the tokens ----

  lemma EscapedRead(c: char, more: string, quote: char)
    requires quote in {'\'', '"'}
    ensures Quoted(['\\', c] + more, quote) == ([c] + Quoted(more, quote).0, Quoted(more, quote).1)
  {
    var s := ['\\', c] + more;
    assert s[0] == '\\' && s[1] == c && s[2..] == more;
  }

  lemma LetterRead(c: char, more: string, quote: char)
    requires c != quote && (c == '\\' ==> more == "")
    ensures Quoted([c] + more, quote) == ([c] + Quoted(more, quote).0, Quoted(more, quote).1)
  {
    var s := [c] + more;
    assert s[0] == c && s[1..] == more;
  }

  lemma {:induction false} LettersRead(body: seq<Letter>, quote: char, closed: bool, rest: string)
    requires quote in {'\'', '"'} && LettersFit(body, quote, closed) && (!closed ==> rest == "")
    ensures Quoted(LettersText(body) + ((if closed then [quote] else []) + rest), quote) == (LettersValue(body), rest)
  {
    var tail := (if closed then [quote] else []) + rest;
    if body == [] {
      assert LettersText(body) + tail == tail;
      assert closed ==> tail[1..] == rest;
    } else {
      var more := LettersText(body[1..]) + tail;
      assert forall i | 0 <= i < |body[1..]| :: body[1..][i] == body[i + 1];
      LettersRead(body[1..], quote, closed, rest);
      if body[0].escaped {
        assert LettersText(body) + tail == ['\\', body[0].c] + more;
        EscapedRead(body[0].c, more, quote);
      } else {
        assert LettersText(body) + tail == [body[0].c] + more;
        if body[0].c == '\\' {
          assert body[1..] == [];
          assert more == "";
        }
        LetterRead(body[0].c, more, quote);
      }
    }
  }

  lemma {:induction false} PlainRead(word: string, rest: string)
    requires (forall i | 0 <= i < |word| :: !StopsWord(word[i])) && (rest == "" || StopsWord(rest[0]))
    ensures BareLength(word + rest) == |word|
  {
    if word == "" {
      assert word + rest == rest;
    } else {
      assert (word + rest)[1..] == word[1..] + rest;
      PlainRead(word[1..], rest);
    }
  }

  lemma {:induction false} RemarkRead(text: string, rest: string)
    requires '\n' !in text && (rest == "" || rest[0] == '\n')
    ensures AfterComment(text + rest) == rest
  {
    if text == "" {
      assert text + rest == rest;
    } else {
      assert (text + rest)[1..] == text[1..] + rest;
      RemarkRead(text[1..], rest);
    }
  }

  lemma CitationFirst(quote: char, body: seq<Letter>, closed: bool, rest: string)
    requires SegmentFits(Citation(quote, body, closed), rest)
    ensures var s := [quote] + (LettersText(body) + if closed then [quote] else []) + rest;
            First(s) == [LettersValue(body)] && AfterFirst(s) == rest
  {
    var s := [quote] + (LettersText(body) + if closed then [quote] else []) + rest;
    var tail := (if closed then [quote] else []) + rest;
    LettersRead(body, quote, closed, rest);
    assert s[0] == quote;
    assert s[1..] == LettersText(body) + tail;
  }

  lemma PlainFirst(word: string, rest: string)
    requires SegmentFits(Plain(word), rest)
    ensures First(word + rest) == [word] && AfterFirst(word + rest) == rest
  {
    var s := word + rest;
    PlainRead(word, rest);
    assert s[0] == word[0] && !StopsWord(word[0]);
    assert s[..|word|] == word && s[|word|..] == rest;
  }

  lemma RemarkFirst(text: string, rest: string)
    requires SegmentFits(Remark(text), rest)
    ensures First("#" + text + rest) == [] && AfterFirst("#" + text + rest) == rest
  {
    RemarkRead("#" + text, rest);
  }

  lemma SegmentFirst(g: Segment, rest: string)
    requires SegmentFits(g, rest)
    ensures SegmentText(g) != "" && First(SegmentText(g) + rest) == SegmentToken(g) && AfterFirst(SegmentText(g) + rest) == rest
  {
    match g {
      case Gap(c) => assert ([c] + rest)[1..] == rest;
      case Sign(c) => assert ([c] + rest)[1..] == rest;
      case Remark(text) => RemarkFirst(text, rest);
      case Citation(quote, body, closed) => CitationFirst(quote, body, closed, rest);
      case Plain(word) => PlainFirst(word, rest);
    }
  }

  lemma SegmentLexed(g: Segment, rest: string)
    requires SegmentFits(g, rest)
    ensures SegmentText(g) != "" && Lex(SegmentText(g) + rest) == SegmentToken(g) + Lex(rest)
  {
    SegmentFirst(g, rest);
  }

  lemma {:induction false} DivisionLexed(gs: seq<Segment>)
    requires Divides(gs)
    ensures Lex(Joined(gs)) == TokensOf(gs)
  {
    if gs != [] {
      SegmentLexed(gs[0], Joined(gs[1..]));
      DivisionLexed(gs[1..]);
    }
  }

  // ---- Every text has one ----

  lemma {:induction false} LettersOf(s: string, quote: char) returns (body: seq<Letter>, closed: bool, rest: string)
    ensures LettersFit(body, quote, closed) && (!closed ==> rest == "") && |rest| <= |s|
    ensures s == LettersText(body) + ((if closed then [quote] else []) + rest)
    decreases |s|
  {
    if s == "" {
      body, closed, rest := [], false, "";
    } else if s[0] == quote {
      body, closed, rest := [], true, s[1..];
    } else {
      var escaped := s[0] == '\\' && |s| > 1;
      var letter := if escaped then Letter(s[1], true) else Letter(s[0], false);
      var more;
      more, closed, rest := LettersOf(if escaped then s[2..] else s[1..], quote);
      body := [letter] + more;
      assert body[1..] == more;
      forall i | 0 <= i < |body| && !body[i].escaped
        ensures body[i].c != quote && (body[i].c == '\\' ==> !closed && i == |body| - 1)
      {
        if i > 0 {
          assert body[i] == more[i - 1];
        } else if s[0] == '\\' {
          assert |s| == 1 && s[1..] == "";
          assert LettersText(more) + ((if closed then [quote] else []) + rest) == "";
        }
      }
      assert s == (if escaped then ['\\'] else []) + [letter.c] + (if escaped then s[2..] else s[1..]);
    }
  }

  lemma {:induction false} WordOf(s: string) returns (n: nat)
    ensures n <= |s| && (forall i | 0 <= i < n :: !StopsWord(s[i])) && (n == |s| || StopsWord(s[n]))
  {
    n := 0;
    if s != "" && !StopsWord(s[0]) {
      var k := WordOf(s[1..]);
      n := k + 1;
      assert forall i | 0 < i < n :: s[i] == s[1..][i - 1];
    }
  }

  lemma {:induction false} LineOf(s: string) returns (n: nat)
    ensures n <= |s| && '\n' !in s[..n] && (n == |s| || s[n] == '\n')
  {
    n := 0;
    if s != "" && s[0] != '\n' {
      var k := LineOf(s[1..]);
      n := k + 1;
      assert s[..n] == [s[0]] + s[1..][..k];
    }
  }

  lemma FirstSegment(s: string) returns (g: Segment, rest: string)
    requires s != ""
    ensures s == SegmentText(g) + rest && SegmentFits(g, rest) && |rest| < |s|
  {
    if s[0] in {' ', '\t', '\r', '\n'} {
      g, rest := Gap(s[0]), s[1..];
    } else if s[0] in {'{', '}', ';'} {
      g, rest := Sign(s[0]), s[1..];
    } else if s[0] == '#' {
      var n := LineOf(s[1..]);
      g, rest := Remark(s[1..][..n]), s[1..][n..];
      assert s == "#" + s[1..][..n] + s[1..][n..];
    } else if s[0] in {'\'', '"'} {
      var body, closed, more := LettersOf(s[1..], s[0]);
      g, rest := Citation(s[0], body, closed), more;
      assert s == [s[0]] + s[1..];
      assert s == [s[0]] + (LettersText(body) + if closed then [s[0]] else []) + rest;
    } else {
      var n := WordOf(s);
      g, rest := Plain(s[..n]), s[n..];
      assert s == s[..n] + s[n..];
    }
  }

  lemma {:induction false} DivisionOf(s: string) returns (gs: seq<Segment>)
    ensures Divides(gs) && Joined(gs) == s
    decreases |s|
  {
    if s == "" {
      gs := [];
    } else {
      var g, rest := FirstSegment(s);
      var more := DivisionOf(rest);
      gs := [g] + more;
      assert gs[1..] == more;
    }
  }

  // The tokens of a text are those of its division into segments, which every
  // text has.
  lemma LexIffDivided(s: string, tokens: seq<string>)
    ensures Lex(s) == tokens <==> exists gs :: Divides(gs) && Joined(gs) == s && TokensOf(gs) == tokens
  {
    var gs := DivisionOf(s);
    DivisionLexed(gs);
    forall other | Divides(other) && Joined(other) == s ensures Lex(s) == TokensOf(other) {
      DivisionLexed(other);
    }
  }
}
