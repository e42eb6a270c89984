/**
 * Order-preserving removal of duplicates: the second pass of `parse_id_list`,
 * which keeps a value the first time it is met and skips it afterwards.
 */
module Dedup {

  /** No value occurs twice. */
  predicate NoDuplicates(s: seq<int>) {
    forall i, j :: 0 <= i < j < |s| ==> s[i] != s[j]
  }

  /** Position of the first occurrence of `x` in `xs`. */
  function FirstIndex(xs: seq<int>, x: int): (k: nat)
    requires x in xs
    ensures k < |xs| && xs[k] == x
    ensures forall j :: 0 <= j < k ==> xs[j] != x
  {
    if xs[0] == x then 0 else 1 + FirstIndex(xs[1..], x)
  }

  /** Values of `r`, all of which occur in `xs`, appear in the order of their first occurrence in `xs`. */
  predicate InFirstOccurrenceOrder(r: seq<int>, xs: seq<int>)
    requires forall x :: x in r ==> x in xs
  {
    forall i, j :: 0 <= i < j < |r| ==> FirstIndex(xs, r[i]) < FirstIndex(xs, r[j])
  }

  /** `xs` with every value after its first occurrence dropped, built the
      way the source's loop builds it: appending each value not yet kept. */
  function Unique(xs: seq<int>): (r: seq<int>)
    ensures NoDuplicates(r)
    ensures forall x :: x in r <==> x in xs
    ensures |r| <= |xs|
    decreases |xs|
  {
    if xs == [] then []
    else
      var kept := Unique(xs[..|xs| - 1]);
      var x := xs[|xs| - 1];
      assert forall y :: y in xs <==> y in xs[..|xs| - 1] || y == x by {
        assert xs == xs[..|xs| - 1] + [x];
      }
      if x in kept then kept else kept + [x]
  }

  lemma FirstIndexOfExtension(p: seq<int>, x: int, y: int)
    requires y in p
    ensures FirstIndex(p + [x], y) == FirstIndex(p, y)
  {
    var k := FirstIndex(p, y);
    var q := p + [x];
    assert q[k] == y;
    var m := FirstIndex(q, y);
    assert m <= k;
    assert p[m] == q[m];
  }

  /** The kept values appear in the order in which they first occur in the input. */
  lemma {:induction false} UniqueKeepsFirstOccurrenceOrder(xs: seq<int>)
    ensures InFirstOccurrenceOrder(Unique(xs), xs)
    decreases |xs|
  {
    if xs != [] {
      var p, x := xs[..|xs| - 1], xs[|xs| - 1];
      var kept := Unique(p);
      UniqueKeepsFirstOccurrenceOrder(p);
      assert xs == p + [x];
      forall y | y in kept
        ensures FirstIndex(xs, y) == FirstIndex(p, y) && FirstIndex(p, y) < |p|
      {
        FirstIndexOfExtension(p, x, y);
      }
      if x !in kept {
        assert FirstIndex(xs, x) == |p|;
      }
    }
  }

  /** The three properties together pin the result down: any sequence without
      duplicates that holds exactly the values of `xs`, in the order of their
      first occurrence, is `Unique(xs)`. */
  lemma UniqueIsTheOnlySuch(xs: seq<int>, r: seq<int>)
    requires NoDuplicates(r)
    requires forall x :: x in r <==> x in xs
    requires InFirstOccurrenceOrder(r, xs)
    ensures r == Unique(xs)
  {
    UniqueKeepsFirstOccurrenceOrder(xs);
    SameOrderedValues(xs, r, Unique(xs));
  }

  lemma {:induction false} SameOrderedValues(xs: seq<int>, a: seq<int>, b: seq<int>)
    requires NoDuplicates(a) && NoDuplicates(b)
    requires forall x :: x in a ==> x in xs
    requires forall x :: x in a <==> x in b
    requires InFirstOccurrenceOrder(a, xs) && InFirstOccurrenceOrder(b, xs)
    ensures a == b
    decreases |a|
  {
    if a == [] {
      assert forall k :: 0 <= k < |b| ==> b[k] in b;
    } else {
      SameFirst(xs, a, b);
      SameRest(a, b);
      OrderedRest(xs, a);
      OrderedRest(xs, b);
      SameOrderedValues(xs, a[1..], b[1..]);
      assert a == [a[0]] + a[1..] && b == [b[0]] + b[1..];
    }
  }

  /** Two such sequences start with the same value: the one met first in `xs`. */
  lemma SameFirst(xs: seq<int>, a: seq<int>, b: seq<int>)
    requires a != []
    requires forall x :: x in a ==> x in xs
    requires forall x :: x in a <==> x in b
    requires InFirstOccurrenceOrder(a, xs) && InFirstOccurrenceOrder(b, xs)
    ensures b != [] && a[0] == b[0]
  {
    assert a[0] in a;
    var j :| 0 <= j < |b| && b[j] == a[0];
    assert b[0] in b;
    var i :| 0 <= i < |a| && a[i] == b[0];
  }

  lemma SameRest(a: seq<int>, b: seq<int>)
    requires NoDuplicates(a) && NoDuplicates(b)
    requires forall x :: x in a <==> x in b
    requires a != [] && b != [] && a[0] == b[0]
    ensures forall x :: x in a[1..] <==> x in b[1..]
  {
    forall x | x in a[1..] ensures x in b[1..] {
      var i :| 1 <= i < |a| && a[i] == x;
      assert x in a;
      var k :| 0 <= k < |b| && b[k] == x;
      assert b[1..][k - 1] == x;
    }
    forall x | x in b[1..] ensures x in a[1..] {
      var i :| 1 <= i < |b| && b[i] == x;
      assert x in b;
      var k :| 0 <= k < |a| && a[k] == x;
      assert a[1..][k - 1] == x;
    }
  }

  lemma OrderedRest(xs: seq<int>, a: seq<int>)
    requires a != [] && NoDuplicates(a)
    requires forall x :: x in a ==> x in xs
    requires InFirstOccurrenceOrder(a, xs)
    ensures NoDuplicates(a[1..])
    ensures forall x :: x in a[1..] ==> x in xs
    ensures InFirstOccurrenceOrder(a[1..], xs)
  {
    var r := a[1..];
    assert forall i :: 0 <= i < |r| ==> r[i] == a[i + 1];
  }
}
