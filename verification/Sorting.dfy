/** Sets of strings in ascending order. */
module Sorting {

  predicate Precedes(a: string, b: string) {
    a == [] || (b != [] && (a[0] < b[0] || (a[0] == b[0] && Precedes(a[1..], b[1..]))))
  }

  lemma Total(a: string, b: string)
    ensures Precedes(a, b) || Precedes(b, a)
  {
  }

  lemma Antisymmetric(a: string, b: string)
    requires Precedes(a, b) && Precedes(b, a)
    ensures a == b
  {
    if a != [] {
      Antisymmetric(a[1..], b[1..]);
      assert a == [a[0]] + a[1..] && b == [b[0]] + b[1..];
    }
  }

  lemma Transitive(a: string, b: string, c: string)
    requires Precedes(a, b) && Precedes(b, c)
    ensures Precedes(a, c)
  {
  }

  predicate IsLeast(x: string, s: set<string>) {
    x in s && forall y :: y in s ==> Precedes(x, y)
  }

  lemma LeastExists(s: set<string>)
    requires s != {}
    ensures exists x :: IsLeast(x, s)
  {
    var y :| y in s;
    if s == {y} {
      Total(y, y);
      assert IsLeast(y, s);
    } else {
      LeastExists(s - {y});
      var x :| IsLeast(x, s - {y});
      Total(x, y);
      Total(y, y);
      var least := if Precedes(x, y) then x else y;
      forall z | z in s
        ensures Precedes(least, z)
      {
        if z != y && least == y {
          Transitive(y, x, z);
        }
      }
      assert IsLeast(least, s);
    }
  }

  function Least(s: set<string>): (x: string)
    requires s != {}
    ensures IsLeast(x, s)
  {
    LeastExists(s);
    assert forall x, y :: IsLeast(x, s) && IsLeast(y, s) ==> x == y by {
      forall x, y | IsLeast(x, s) && IsLeast(y, s)
        ensures x == y
      {
        Antisymmetric(x, y);
      }
    }
    var x :| IsLeast(x, s);
    x
  }

  /** `sorted(s)`: every element once, in ascending order. */
  function Sorted(s: set<string>): seq<string> {
    if s == {} then []
    else
      var x := Least(s);
      [x] + Sorted(s - {x})
  }

  /** The list has exactly the members of the set, each once, in ascending order. */
  ghost predicate Lists(r: seq<string>, s: set<string>) {
    && (forall x :: x in r <==> x in s) && |r| == |s|
    && forall i, j :: 0 <= i < j < |r| ==> Precedes(r[i], r[j]) && r[i] != r[j]
  }

  lemma LeastComesFirst(x: string, rest: seq<string>, s: set<string>)
    requires IsLeast(x, s) && Lists(rest, s - {x})
    ensures Lists([x] + rest, s)
  {
    assert forall j :: 0 <= j < |rest| ==> rest[j] in rest;
  }

  lemma {:induction false} SortedLists(s: set<string>)
    ensures Lists(Sorted(s), s)
  {
    if s != {} {
      SortedLists(s - {Least(s)});
      LeastComesFirst(Least(s), Sorted(s - {Least(s)}), s);
    }
  }

  function Join(parts: seq<string>, separator: string): string {
    if |parts| == 0 then ""
    else if |parts| == 1 then parts[0]
    else parts[0] + separator + Join(parts[1..], separator)
  }
}
