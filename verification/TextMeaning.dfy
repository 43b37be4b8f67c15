// What the text functions compute, said without their recursion.
module TextMeaning {
  import opened Text

  predicate AllSpace(text: string) {
    forall i | 0 <= i < |text| :: IsSpace(text[i])
  }

  lemma {:induction false} LeftDropped(text: string) returns (n: nat)
    ensures n <= |text| && TrimLeft(text) == text[n..] && AllSpace(text[..n])
    ensures n < |text| ==> !IsSpace(text[n])
  {
    n := 0;
    if text != "" && IsSpace(text[0]) {
      n := LeftDropped(text[1..]);
      n := n + 1;
      assert text[..n] == [text[0]] + text[1..][..n - 1];
    }
  }

  lemma {:induction false} RightDropped(text: string) returns (n: nat)
    ensures n <= |text| && TrimRight(text) == text[..n] && AllSpace(text[n..])
    ensures n > 0 ==> !IsSpace(text[n - 1])
  {
    n := |text|;
    if text != "" && IsSpace(text[n - 1]) {
      var front := text[..n - 1];
      n := RightDropped(front);
      assert text[n..] == front[n..] + [text[|text| - 1]];
    }
  }

  // Trimming takes white space off both ends and nothing else.
  lemma TrimMeans(text: string) returns (left: string, right: string)
    ensures text == left + TrimSpace(text) + right && AllSpace(left) && AllSpace(right)
    ensures var t := TrimSpace(text); t != "" ==> !IsSpace(t[0]) && !IsSpace(t[|t| - 1])
  {
    var n := LeftDropped(text);
    var rest := text[n..];
    var m := RightDropped(rest);
    left, right := text[..n], rest[m..];
    TrimSpaceEnds(text);
  }

  // The parts with the separator between them.
  function Joined(parts: seq<string>, separator: char): string {
    if parts == [] then "" else if |parts| == 1 then parts[0] else parts[0] + [separator] + Joined(parts[1..], separator)
  }

  // Splitting is undone by joining, and no part holds the separator.
  lemma {:induction false} SplitMeans(text: string, separator: char)
    ensures Joined(Split(text, separator), separator) == text
    ensures forall part | part in Split(text, separator) :: separator !in part
  {
    if text != "" {
      SplitMeans(text[1..], separator);
      var rest, parts := Split(text[1..], separator), Split(text, separator);
      if text[0] == separator {
        assert parts[1..] == rest;
      } else {
        FirstGrows(rest, separator, text[0]);
      }
    }
  }

  lemma FirstGrows(parts: seq<string>, separator: char, c: char)
    requires parts != []
    ensures Joined([[c] + parts[0]] + parts[1..], separator) == [c] + Joined(parts, separator)
  {
    var grown := [[c] + parts[0]] + parts[1..];
    assert grown[1..] == parts[1..];
    if |parts| > 1 {
      assert [c] + parts[0] + [separator] + Joined(parts[1..], separator) == [c] + (parts[0] + [separator] + Joined(parts[1..], separator));
    }
  }

  // The part in front of the first separator, or all of the text.
  lemma {:induction false} BeforeMeans(text: string, separator: char)
    ensures var n := |Before(text, separator)|;
      n <= |text| && Before(text, separator) == text[..n] && separator !in text[..n] && (n < |text| ==> text[n] == separator)
  {
    if text != "" && text[0] != separator {
      BeforeMeans(text[1..], separator);
      var n := |Before(text, separator)|;
      assert text[..n] == [text[0]] + text[1..][..n - 1];
    }
  }
}
