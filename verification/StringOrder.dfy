// Byte-wise string order and sorted lists without repetition, as sort.Strings
// produces them from the keys of a Go map. A map may be walked in any order;
// the sorted list of its keys is still one list, because the order is total
// and a sorted list is determined by its elements. That is what makes results
// built this way independent of the walk.
module StringOrder {

  predicate Less(a: string, b: string) {
    b != [] && (a == [] || a[0] < b[0] || (a[0] == b[0] && Less(a[1..], b[1..])))
  }

  lemma {:induction false} LessTransitive(a: string, b: string, c: string)
    requires Less(a, b) && Less(b, c)
    ensures Less(a, c)
  {
    if a != [] && a[0] == b[0] && b[0] == c[0] {
      LessTransitive(a[1..], b[1..], c[1..]);
    }
  }

  lemma {:induction false} LessTotal(a: string, b: string)
    ensures a == b || Less(a, b) || Less(b, a)
  {
    if a != [] && b != [] && a[0] == b[0] {
      LessTotal(a[1..], b[1..]);
      assert a == [a[0]] + a[1..] && b == [b[0]] + b[1..];
    }
  }

  lemma {:induction false} LessAsymmetric(a: string, b: string)
    requires Less(a, b)
    ensures !Less(b, a) && a != b
  {
    if a != [] && a[0] == b[0] {
      LessAsymmetric(a[1..], b[1..]);
    }
  }

  predicate Sorted(s: seq<string>) {
    forall i, j | 0 <= i < j < |s| :: Less(s[i], s[j])
  }

  function Elements<T>(s: seq<T>): set<T> {
    set v | v in s
  }

  // A sorted list is determined by its elements.
  lemma {:induction false} SortedUnique(a: seq<string>, b: seq<string>)
    requires Sorted(a) && Sorted(b) && Elements(a) == Elements(b)
    ensures a == b
    decreases |a|
  {
    if a == [] {
      if b != [] {
        FirstIsElement(b);
      }
    } else {
      assert a[0] in Elements(b) && b != [] && b[0] in Elements(a);
      if a[0] != b[0] {
        LessAsymmetric(a[0], b[0]);
        assert false;
      }
      RestElements(a);
      RestElements(b);
      SortedUnique(a[1..], b[1..]);
      assert a == [a[0]] + a[1..] && b == [b[0]] + b[1..];
    }
  }

  lemma FirstIsElement(s: seq<string>)
    requires s != []
    ensures s[0] in Elements(s)
  {
  }

  lemma RestElements(a: seq<string>)
    requires a != [] && Sorted(a)
    ensures Elements(a[1..]) == Elements(a) - {a[0]}
  {
    forall i | 1 <= i < |a|
      ensures a[i] != a[0]
    {
      LessAsymmetric(a[0], a[i]);
    }
    assert a == [a[0]] + a[1..];
  }

  // ---- Building a sorted list ----

  function Insert(v: string, s: seq<string>): seq<string> {
    if s == [] || Less(v, s[0]) then [v] + s else [s[0]] + Insert(v, s[1..])
  }

  lemma {:induction false} InsertSorts(v: string, s: seq<string>)
    requires Sorted(s) && v !in s
    ensures Sorted(Insert(v, s)) && Elements(Insert(v, s)) == Elements(s) + {v}
  {
    if s != [] {
      assert s == [s[0]] + s[1..];
      LessTotal(v, s[0]);
      if Less(v, s[0]) {
        forall i | 0 < i < |s|
          ensures Less(v, s[i])
        {
          LessTransitive(v, s[0], s[i]);
        }
      } else {
        InsertSorts(v, s[1..]);
        var r := Insert(v, s[1..]);
        forall i | 0 <= i < |r|
          ensures Less(s[0], r[i])
        {
          assert r[i] in Elements(r);
        }
      }
    }
  }

  // The one sorted list of a set.
  ghost function Ordered(s: set<string>): (r: seq<string>)
    ensures Sorted(r) && Elements(r) == s
  {
    if s == {} then []
    else
      var v :| v in s;
      var rest := Ordered(s - {v});
      assert v !in Elements(rest);
      InsertSorts(v, rest);
      Insert(v, rest)
  }

  lemma {:induction false} SortedLength(s: seq<string>)
    requires Sorted(s)
    ensures |s| == |Elements(s)|
  {
    if s != [] {
      RestElements(s);
      SortedLength(s[1..]);
      assert s[0] in Elements(s);
    }
  }

  // Collecting the keys of a map in any order and sorting them.
  method SortStrings(values: set<string>) returns (result: seq<string>)
    ensures result == Ordered(values)
  {
    result := [];
    var done, todo := {}, values;
    while todo != {}
      invariant done + todo == values && done !! todo
      invariant Sorted(result) && Elements(result) == done
      decreases |todo|
    {
      var v :| v in todo;
      assert v !in Elements(result);
      InsertSorts(v, result);
      result := Insert(v, result);
      done, todo := done + {v}, todo - {v};
    }
    SortedUnique(result, Ordered(values));
  }

  ghost function UniqueOrdered(values: seq<string>): seq<string> {
    Ordered(set v | v in values && v != "")
  }

  method UniqueSorted(values: seq<string>) returns (result: seq<string>)
    ensures result == UniqueOrdered(values)
  {
    var seen: set<string> := {};
    for i := 0 to |values|
      invariant seen == set v | v in values[..i] && v != ""
    {
      assert values[..i + 1] == values[..i] + [values[i]];
      if values[i] != "" {
        seen := seen + {values[i]};
      }
    }
    assert values[..|values|] == values;
    result := SortStrings(seen);
  }
}
