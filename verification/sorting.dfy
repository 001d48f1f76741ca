// sort.Strings over the keys of a map: strings in byte order.
module Sorting {
  predicate Less(a: string, b: string) {
    b != "" && (a == "" || a[0] < b[0] || (a[0] == b[0] && Less(a[1..], b[1..])))
  }

  lemma {:induction false} LessTrans(a: string, b: string, c: string)
    requires Less(a, b) && Less(b, c)
    ensures Less(a, c)
    decreases |a|
  {
    if a != "" && a[0] == b[0] == c[0] {
      LessTrans(a[1..], b[1..], c[1..]);
    }
  }

  lemma {:induction false} LessTotal(a: string, b: string)
    requires a != b
    ensures Less(a, b) || Less(b, a)
    decreases |a|
  {
    if a != "" && b != "" && a[0] == b[0] {
      assert a == [a[0]] + a[1..] && b == [b[0]] + b[1..];
      LessTotal(a[1..], b[1..]);
    }
  }

  lemma {:induction false} LessIrreflexive(a: string)
    ensures !Less(a, a)
  {
    if a != "" {
      LessIrreflexive(a[1..]);
    }
  }

  ghost predicate Ascending(xs: seq<string>) {
    forall i, j | 0 <= i < j < |xs| :: Less(xs[i], xs[j])
  }

  // sort.Strings on the keys of a set: strictly ascending, nothing lost.
  method SortedKeys(s: set<string>) returns (xs: seq<string>)
    ensures Ascending(xs)
    ensures forall x :: x in xs <==> x in s
  {
    xs := [];
    var rest := s;
    while rest != {}
      invariant rest <= s
      invariant Ascending(xs)
      invariant forall x :: x in xs <==> x in s && x !in rest
      decreases rest
    {
      var k :| k in rest;
      rest := rest - {k};
      var i := 0;
      while i < |xs| && Less(xs[i], k)
        invariant 0 <= i <= |xs|
        invariant forall j | 0 <= j < i :: Less(xs[j], k)
      {
        i := i + 1;
      }
      InsertAscending(xs, i, k);
      xs := xs[..i] + [k] + xs[i..];
    }
  }

  lemma {:induction false} AscendingDistinct(xs: seq<string>, i: nat)
    requires Ascending(xs) && i < |xs|
    ensures xs[i] !in xs[..i]
  {
    LessIrreflexive(xs[i]);
  }

  lemma {:induction false} InsertAscending(xs: seq<string>, i: nat, k: string)
    requires Ascending(xs) && i <= |xs| && k !in xs
    requires forall j | 0 <= j < i :: Less(xs[j], k)
    requires i < |xs| ==> !Less(xs[i], k)
    ensures Ascending(xs[..i] + [k] + xs[i..])
    ensures forall x :: x in xs[..i] + [k] + xs[i..] <==> x in xs || x == k
  {
    forall j | i <= j < |xs| ensures Less(k, xs[j]) {
      LessTotal(k, xs[i]);
      if i < j {
        LessTrans(k, xs[i], xs[j]);
      }
    }
    assert xs == xs[..i] + xs[i..];
  }
}
