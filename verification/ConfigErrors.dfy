// Why the block parser rejects a text (internal/agent/proxy_routes.go).
module ConfigErrors {
  import opened ConfigSyntax

  // A text of the grammar.
  ghost predicate Accepted(tokens: seq<string>) {
    exists items :: Derives(items, tokens)
  }

  function Braces(n: nat): (braces: seq<string>)
    ensures |braces| == n && forall b | b in braces :: b == "}"
  {
    seq(n, _ => "}")
  }

  // ---- Texts continue ----

  lemma {:induction false} ArgsMore(tokens: seq<string>, more: seq<string>)
    requires ArgCount(tokens) < |tokens|
    ensures ArgCount(tokens + more) == ArgCount(tokens)
  {
    if !Structural(tokens[0]) {
      ArgsMore(tokens[1..], more);
      assert (tokens + more)[1..] == tokens[1..] + more;
    }
  }

  lemma HeadMore(tokens: seq<string>, more: seq<string>)
    requires tokens != [] && HeadOf(tokens).after != []
    ensures var h := HeadOf(tokens); HeadOf(tokens + more) == Head(h.name, h.args, h.after + more)
  {
    var t, n := tokens[1..], ArgCount(tokens[1..]);
    ArgsMore(t, more);
    assert (tokens + more)[1..] == t + more;
    assert (t + more)[..n] == t[..n] && (t + more)[n..] == t[n..] + more;
  }

  // A directive that ends with the text takes the next token as its end.
  lemma HeadEnds(tokens: seq<string>, more: seq<string>)
    requires tokens != [] && HeadOf(tokens).after == [] && more != [] && Structural(more[0])
    ensures var h := HeadOf(tokens); HeadOf(tokens + more) == Head(h.name, h.args, more)
  {
    var t := tokens[1..];
    ArgsSplit(t);
    assert t[..ArgCount(t)] == t;
    assert t + more == t + [more[0]] + more[1..];
    ArgsStop(t, more[0], more[1..]);
    assert (tokens + more)[1..] == t + more;
    assert (t + more)[..|t|] == t && (t + more)[|t|..] == more;
  }

  lemma BraceCloses(rest: seq<string>)
    ensures Parse(["}"] + rest, true) == Parsed([], rest)
  {
    assert (["}"] + rest)[1..] == rest;
  }

  lemma Regroup(a: seq<string>, b: seq<string>, c: seq<string>, d: seq<string>)
    ensures a + b + c + d == a + (b + (c + d))
  {
  }

  // Whatever follows a parsed block or directive does not change it.
  lemma BlockMore(tokens: seq<string>, more: seq<string>)
    requires Parse(tokens, true).Parsed?
    ensures Parse(tokens + more, true) == Parsed(Parse(tokens, true).nodes, Parse(tokens, true).rest + more)
  {
    var rest := Parse(tokens, true).rest;
    var items := ParsedIsGrammar(tokens, true);
    var tail := ["}"] + (rest + more);
    assert tokens + more == Flat(items) + tail by { Regroup(Flat(items), ["}"], rest, more); }
    GrammarParses(items, true, tail);
    BraceCloses(rest + more);
    assert Meaning(items) + [] == Meaning(items);
  }

  lemma OneMore(tokens: seq<string>, more: seq<string>)
    requires tokens != [] && ParseOne(tokens).Parsed?
    ensures ParseOne(tokens + more) == Parsed(ParseOne(tokens).nodes, ParseOne(tokens).rest + more)
  {
    var after := HeadOf(tokens).after;
    HeadMore(tokens, more);
    assert (after + more)[1..] == after[1..] + more;
    if after[0] == "{" {
      BlockMore(after[1..], more);
    }
  }

  // An unexpected brace stays one, and so does a brace behind a directive that
  // has not ended.
  predicate Hopeless(outcome: Outcome, more: seq<string>) {
    || outcome == Failed(UnexpectedBrace)
    || (outcome == Failed(UnterminatedDirective) && more != [] && more[0] == "}")
  }

  lemma {:induction false} Stuck(tokens: seq<string>, nested: bool, more: seq<string>)
    requires Hopeless(Parse(tokens, nested), more)
    ensures Parse(tokens + more, nested) == Failed(UnexpectedBrace)
    decreases |tokens|
  {
    if tokens[0] != "}" {
      var one, after := ParseOne(tokens), HeadOf(tokens).after;
      if one.Parsed? {
        OneMore(tokens, more);
        Stuck(one.rest, nested, more);
      } else if after == [] {
        HeadEnds(tokens, more);
      } else {
        HeadMore(tokens, more);
        assert (after + more)[1..] == after[1..] + more;
        if after[0] == "{" {
          Stuck(after[1..], true, more);
        }
      }
    }
  }

  // ---- Texts that can be completed ----

  // What completes a text: the end of its last directive and its open blocks.
  function Completion(error: ParseError, n: nat): seq<string> {
    (if error.UnterminatedDirective? then [";"] else []) + Braces(n)
  }

  lemma OneClosed(tokens: seq<string>, end: seq<string>, nested: bool)
    requires tokens != [] && tokens[0] != "}" && ParseOne(tokens + end).Parsed? && ParseOne(tokens + end).rest == []
    ensures Parse(tokens + end + (if nested then ["}"] else []), nested).Parsed?
    ensures Parse(tokens + end + (if nested then ["}"] else []), nested).rest == []
  {
    var all := tokens + end;
    assert all[0] == tokens[0];
    if nested {
      OneMore(all, ["}"]);
      assert (all + ["}"])[0] == tokens[0];
      assert [] + ["}"] == ["}"];
      assert Parse(["}"], true) == Parsed([], []);
    } else {
      assert all + [] == all;
    }
  }

  lemma CompletionGrows(error: ParseError, n: nat, nested: bool)
    ensures Completion(error, n) + (if nested then ["}"] else []) == Completion(error, if nested then n + 1 else n)
  {
    assert Braces(n) + ["}"] == Braces(n + 1);
  }

  lemma DirectiveEnded(tokens: seq<string>)
    requires tokens != [] && HeadOf(tokens).after == []
    ensures ParseOne(tokens + [";"]).Parsed? && ParseOne(tokens + [";"]).rest == []
  {
    HeadEnds(tokens, [";"]);
  }

  lemma BlockEnded(tokens: seq<string>, more: seq<string>)
    requires tokens != [] && HeadOf(tokens).after != [] && HeadOf(tokens).after[0] == "{"
    requires var inner := Parse(HeadOf(tokens).after[1..] + more, true); inner.Parsed? && inner.rest == []
    ensures ParseOne(tokens + more).Parsed? && ParseOne(tokens + more).rest == []
  {
    var after := HeadOf(tokens).after;
    HeadMore(tokens, more);
    BodyOf(after, more);
    InnerParsed(tokens + more, after[1..] + more);
  }

  lemma BodyOf(after: seq<string>, more: seq<string>)
    requires after != []
    ensures (after + more)[0] == after[0] && (after + more)[1..] == after[1..] + more
  {
  }

  lemma InnerParsed(tokens: seq<string>, body: seq<string>)
    requires tokens != [] && HeadOf(tokens).after != [] && HeadOf(tokens).after[0] == "{" && HeadOf(tokens).after[1..] == body
    requires Parse(body, true).Parsed?
    ensures ParseOne(tokens).Parsed? && ParseOne(tokens).rest == Parse(body, true).rest
  {
  }

  predicate Completed(tokens: seq<string>, nested: bool, error: ParseError, n: nat) {
    var outcome := Parse(tokens + Completion(error, n), nested);
    outcome.Parsed? && outcome.rest == [] && (error.UnterminatedBlock? ==> n > 0)
  }

  lemma RestCompleted(tokens: seq<string>, nested: bool, error: ParseError, n: nat)
    requires tokens != [] && tokens[0] != "}" && ParseOne(tokens).Parsed? && Completed(ParseOne(tokens).rest, nested, error, n)
    ensures Completed(tokens, nested, error, n)
  {
    var end := Completion(error, n);
    OneMore(tokens, end);
    assert (tokens + end)[0] == tokens[0];
  }

  lemma LastCompleted(tokens: seq<string>, nested: bool, error: ParseError, n: nat)
    requires tokens != [] && tokens[0] != "}" && (error.UnterminatedBlock? ==> n > 0)
    requires var one := ParseOne(tokens + Completion(error, n)); one.Parsed? && one.rest == []
    ensures Completed(tokens, nested, error, if nested then n + 1 else n)
  {
    var end, brace := Completion(error, n), if nested then ["}"] else [];
    OneClosed(tokens, end, nested);
    CompletionGrows(error, n, nested);
    assert tokens + end + brace == tokens + (end + brace);
  }

  lemma NothingCompleted()
    ensures Completed([], true, UnterminatedBlock, 1)
  {
    assert [] + Completion(UnterminatedBlock, 1) == ["}"];
  }

  lemma {:induction false} Completes(tokens: seq<string>, nested: bool) returns (n: nat)
    requires Parse(tokens, nested).Failed? && !Parse(tokens, nested).error.UnexpectedBrace?
    ensures Completed(tokens, nested, Parse(tokens, nested).error, n)
    decreases |tokens|, 1
  {
    var error := Parse(tokens, nested).error;
    if tokens == [] {
      n := 1;
      NothingCompleted();
    } else if ParseOne(tokens).Parsed? {
      n := Completes(ParseOne(tokens).rest, nested);
      RestCompleted(tokens, nested, error, n);
    } else {
      n := LastCompletes(tokens);
      LastCompleted(tokens, nested, error, n);
      n := if nested then n + 1 else n;
    }
  }

  // The directive or block in which the text ends.
  lemma {:induction false} LastCompletes(tokens: seq<string>) returns (n: nat)
    requires tokens != [] && ParseOne(tokens).Failed? && !ParseOne(tokens).error.UnexpectedBrace?
    ensures ParseOne(tokens).error.UnterminatedBlock? ==> n > 0
    ensures var one := ParseOne(tokens + Completion(ParseOne(tokens).error, n)); one.Parsed? && one.rest == []
    decreases |tokens|, 0
  {
    var after := HeadOf(tokens).after;
    if after == [] {
      n := 0;
      assert Completion(UnterminatedDirective, 0) == [";"];
      DirectiveEnded(tokens);
    } else {
      n := Completes(after[1..], true);
      BlockEnded(tokens, Completion(ParseOne(tokens).error, n));
    }
  }

  // ---- Which error a rejected text gets ----

  lemma AcceptedIff(tokens: seq<string>)
    ensures Accepted(tokens) <==> Parse(tokens, false).Parsed?
  {
    AcceptsExactlyGrammar(tokens);
  }

  ghost predicate Completable(tokens: seq<string>, more: seq<string>) {
    Accepted(tokens + more)
  }

  // "Unexpected closing brace" is said of exactly the texts that no
  // continuation makes acceptable; "unterminated block" of those that closing
  // braces alone complete, and "unterminated directive" of the others.
  lemma RejectionMeans(tokens: seq<string>)
    ensures Parse(tokens, false) == Failed(UnexpectedBrace) <==> !exists more :: Completable(tokens, more)
    ensures Parse(tokens, false) == Failed(UnterminatedBlock) <==>
      !Accepted(tokens) && exists n: nat :: Completable(tokens, Braces(n))
    ensures Parse(tokens, false) == Failed(UnterminatedDirective) <==>
      !Accepted(tokens) && (exists more :: Completable(tokens, more)) && !exists n: nat :: Completable(tokens, Braces(n))
  {
    var outcome := Parse(tokens, false);
    AcceptedIff(tokens);
    forall more | Hopeless(outcome, more) ensures !Completable(tokens, more) {
      Stuck(tokens, false, more);
      AcceptedIff(tokens + more);
    }
    assert tokens + [] == tokens;
    if outcome.Parsed? {
      assert Completable(tokens, []);
    } else if !outcome.error.UnexpectedBrace? {
      var n := Completes(tokens, false);
      AcceptedIff(tokens + Completion(outcome.error, n));
      assert Completable(tokens, Completion(outcome.error, n));
      if outcome.error.UnterminatedBlock? {
        assert Completion(outcome.error, n) == Braces(n);
      } else {
        forall k: nat ensures !Completable(tokens, Braces(k)) {
          if k == 0 {
            assert Braces(0) == [];
          }
        }
      }
    }
  }
}
