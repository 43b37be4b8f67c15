// Optional values, and the few operations of Go's strings and unicode
// packages that the event rules, the validators and the configuration readers
// rely on: searching, trimming, splitting and comparing without case. Strings
// are sequences of characters; nothing here depends on how they are encoded.
// The lemmas say what trimming and splitting keep.
module Text {
  datatype Option<+T> = None | Some(value: T) {
    function GetOrElse(default: T): T {
      match this
      case None => default
      case Some(v) => v
    }
  }

  predicate Contains(text: string, needle: string) {
    exists i | 0 <= i <= |text| - |needle| :: MatchesAt(text, needle, i)
  }

  predicate MatchesAt(text: string, needle: string, i: int)
    requires 0 <= i <= |text| - |needle|
  {
    text[i..i + |needle|] == needle
  }

  // The text before the first occurrence of a separator.
  function Before(text: string, separator: char): string {
    if text == "" || text[0] == separator then "" else [text[0]] + Before(text[1..], separator)
  }

  lemma {:induction false} BeforeSeparator(head: string, separator: char, tail: string)
    requires separator !in head
    ensures Before(head + [separator] + tail, separator) == head
  {
    var text := head + [separator] + tail;
    if head != "" {
      assert text[1..] == head[1..] + [separator] + tail;
      BeforeSeparator(head[1..], separator, tail);
    }
  }

  // unicode.IsSpace
  predicate IsSpace(c: char) {
    c in {'\t', '\n', '\U{0B}', '\U{0C}', '\r', ' ', '\U{85}', '\U{A0}', '\U{1680}',
          '\U{2028}', '\U{2029}', '\U{202F}', '\U{205F}', '\U{3000}'}
    || '\U{2000}' <= c <= '\U{200A}'
  }

  // unicode.IsControl
  predicate IsControl(c: char) {
    c < ' ' || '\U{7F}' <= c <= '\U{9F}'
  }

  predicate HasControl(text: string) {
    exists c | c in text :: IsControl(c)
  }

  // A name the domain accepts: not empty, bounded, without control characters.
  predicate Identifier(value: string, maximum: nat) {
    value != "" && |value| <= maximum && !HasControl(value)
  }

  function TrimLeft(text: string): string {
    if text != "" && IsSpace(text[0]) then TrimLeft(text[1..]) else text
  }

  function TrimRight(text: string): string {
    if text != "" && IsSpace(text[|text| - 1]) then TrimRight(text[..|text| - 1]) else text
  }

  function TrimSpace(text: string): string {
    TrimRight(TrimLeft(text))
  }

  predicate Blank(text: string) {
    TrimSpace(text) == ""
  }

  lemma {:induction false} BlankIffAllSpace(text: string)
    ensures Blank(text) <==> forall c :: c in text ==> IsSpace(c)
  {
    TrimLeftAllSpace(text);
    TrimRightAllSpace(TrimLeft(text));
  }

  lemma {:induction false} TrimLeftAllSpace(text: string)
    ensures (forall c :: c in TrimLeft(text) ==> IsSpace(c)) <==> (forall c :: c in text ==> IsSpace(c))
    ensures forall c :: c in TrimLeft(text) ==> c in text
  {
    if text != "" && IsSpace(text[0]) {
      TrimLeftAllSpace(text[1..]);
      assert text == [text[0]] + text[1..];
    }
  }

  lemma {:induction false} TrimRightAllSpace(text: string)
    ensures TrimRight(text) == "" <==> forall c :: c in text ==> IsSpace(c)
  {
    var n := |text| - 1;
    if text != "" && IsSpace(text[n]) {
      TrimRightAllSpace(text[..n]);
      assert text == text[..n] + [text[n]];
    }
  }

  // strings.Split by one character; always at least one part.
  function Split(text: string, separator: char): (parts: seq<string>)
    ensures parts != []
  {
    if text == "" then [""]
    else
      var rest := Split(text[1..], separator);
      if text[0] == separator then [""] + rest else [[text[0]] + rest[0]] + rest[1..]
  }

  // Every character is the separator or belongs to a part.
  lemma {:induction false} SplitCovers(text: string, separator: char, c: char)
    requires c in text && c != separator
    ensures exists part | part in Split(text, separator) :: c in part
  {
    var rest, parts := Split(text[1..], separator), Split(text, separator);
    if text[0] == separator || c != text[0] {
      SplitCovers(text[1..], separator, c);
      var k :| 0 <= k < |rest| && c in rest[k];
      if text[0] == separator {
        assert parts[k + 1] == rest[k];
      } else if k == 0 {
        assert c in parts[0];
      } else {
        assert parts[k] == rest[k];
      }
    } else {
      assert c in parts[0];
    }
  }

  lemma TrimSpaceKeeps(text: string)
    requires text != "" && !IsSpace(text[0]) && !IsSpace(text[|text| - 1])
    ensures TrimSpace(text) == text
  {
  }

  lemma {:induction false} TrimSpaceEnds(text: string)
    ensures var t := TrimSpace(text); t != "" ==> !IsSpace(t[0]) && !IsSpace(t[|t| - 1])
  {
    TrimLeftEnds(text);
    TrimRightEnds(TrimLeft(text));
  }

  lemma {:induction false} TrimLeftEnds(text: string)
    ensures TrimLeft(text) != "" ==> !IsSpace(TrimLeft(text)[0])
  {
    if text != "" {
      TrimLeftEnds(text[1..]);
    }
  }

  lemma {:induction false} TrimRightEnds(text: string)
    ensures var t := TrimRight(text);
      t <= text && (t != "" ==> !IsSpace(t[|t| - 1]))
  {
    if text != "" && IsSpace(text[|text| - 1]) {
      TrimRightEnds(text[..|text| - 1]);
    }
  }

  function Lower(c: char): char {
    if 'A' <= c <= 'Z' then c - 'A' + 'a' else c
  }

  // strings.EqualFold against an ASCII word that has no letter with a
  // non-ASCII case variant (no 'k', no 's').
  predicate EqualFold(text: string, word: string) {
    |text| == |word| && forall i | 0 <= i < |text| :: Lower(text[i]) == Lower(word[i])
  }
}
