/** The order of strings, and sorting by it. */
module TextOrder {

  /** Go's order on strings. */
  predicate Less(a: string, b: string) {
    b != "" && (a == "" || a[0] < b[0] || (a[0] == b[0] && Less(a[1..], b[1..])))
  }

  lemma {:induction false} LessIsTransitive(a: string, b: string, c: string)
    requires Less(a, b) && Less(b, c)
    ensures Less(a, c)
  {
    if a != "" && a[0] == b[0] && b[0] == c[0] {
      LessIsTransitive(a[1..], b[1..], c[1..]);
    }
  }

  lemma LessIsIrreflexive(a: string)
    ensures !Less(a, a)
  {
  }

  lemma {:induction false} LessIsTotal(a: string, b: string)
    ensures Less(a, b) || Less(b, a) || a == b
  {
    if a != "" && b != "" && a[0] == b[0] {
      LessIsTotal(a[1..], b[1..]);
      assert a == [a[0]] + a[1..] && b == [b[0]] + b[1..];
    }
  }

  lemma NotLessIsTransitive(a: string, b: string, c: string)
    requires !Less(b, a) && !Less(c, b)
    ensures !Less(c, a)
  {
    LessIsTotal(a, b);
    LessIsTotal(b, c);
    if Less(a, b) && Less(b, c) {
      LessIsTransitive(a, b, c);
    }
    if Less(a, c) && Less(c, a) {
      LessIsTransitive(a, c, a);
      LessIsIrreflexive(a);
    }
    LessIsIrreflexive(a);
  }

  /** No later element is below an earlier one. */
  ghost predicate Sorted(xs: seq<string>) {
    forall i, j :: 0 <= i < j < |xs| ==> !Less(xs[j], xs[i])
  }

  /** xs with x before the first element not below it. */
  function Inserted(x: string, xs: seq<string>): (r: seq<string>)
    ensures multiset(r) == multiset(xs) + multiset{x}
  {
    if xs == [] || !Less(xs[0], x) then [x] + xs
    else
      assert xs == [xs[0]] + xs[1..];
      [xs[0]] + Inserted(x, xs[1..])
  }

  lemma {:induction false} InsertedIsSorted(x: string, xs: seq<string>)
    requires Sorted(xs)
    ensures Sorted(Inserted(x, xs))
  {
    if xs == [] {
    } else if !Less(xs[0], x) {
      forall j | 0 <= j < |xs| ensures !Less(xs[j], x) {
        if j > 0 {
          NotLessIsTransitive(x, xs[0], xs[j]);
        }
      }
    } else {
      InsertedIsSorted(x, xs[1..]);
      var rest := Inserted(x, xs[1..]);
      forall j | 0 <= j < |rest| ensures !Less(rest[j], xs[0]) {
        assert rest[j] in multiset(rest);
        if rest[j] == x {
          NotBothLess(xs[0], x);
        } else {
          assert rest[j] in xs[1..];
        }
      }
    }
  }

  lemma NotBothLess(a: string, b: string)
    requires Less(a, b)
    ensures !Less(b, a)
  {
    if Less(b, a) {
      LessIsTransitive(a, b, a);
      LessIsIrreflexive(a);
    }
  }

  /** sort.Strings: the same strings in order. */
  method SortStrings(xs: seq<string>) returns (sorted: seq<string>)
    ensures Sorted(sorted) && multiset(sorted) == multiset(xs)
  {
    sorted := [];
    for i := 0 to |xs|
      invariant Sorted(sorted) && multiset(sorted) == multiset(xs[..i])
    {
      InsertedIsSorted(xs[i], sorted);
      sorted := Inserted(xs[i], sorted);
      assert xs[..i + 1] == xs[..i] + [xs[i]];
    }
    assert xs[..|xs|] == xs;
  }
}
