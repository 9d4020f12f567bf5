/**
 * Search items ordered by distance and then by identifier, and a priority queue of them kept as a
 * strictly ascending sequence.
 */
module Heaps {

  type Id = nat

  datatype Item = Item(dist: real, id: Id)

  predicate Before(a: Item, b: Item) { a.dist < b.dist || (a.dist == b.dist && a.id < b.id) }

  ghost predicate Ascending(s: seq<Item>) {
    forall i, j :: 0 <= i < j < |s| ==> Before(s[i], s[j])
  }

  function Push(s: seq<Item>, x: Item): seq<Item> {
    if s == [] || Before(x, s[0]) then [x] + s else [s[0]] + Push(s[1..], x)
  }

  lemma {:induction false} PushOk(s: seq<Item>, x: Item)
    requires Ascending(s) && x !in s
    ensures Ascending(Push(s, x)) && |Push(s, x)| == |s| + 1
    ensures forall y :: y in Push(s, x) <==> y in s || y == x
  {
    if s == [] || Before(x, s[0]) {
    } else {
      assert s[0] in s;
      PushOk(s[1..], x);
      var rest := Push(s[1..], x);
      forall j | 0 <= j < |rest| ensures Before(s[0], rest[j]) {
        assert rest[j] in rest;
      }
    }
  }

  ghost function Ids(s: seq<Item>): set<Id> { set x | x in s :: x.id }

  lemma PushIds(s: seq<Item>, x: Item)
    requires Ascending(s) && x !in s
    ensures Ids(Push(s, x)) == Ids(s) + {x.id}
  {
    PushOk(s, x);
  }

  /** No identifier occurs with two distances. */
  ghost predicate OneEach(s: seq<Item>) {
    forall x, y :: x in s && y in s && x.id == y.id ==> x == y
  }

  lemma {:induction false} IdsSize(s: seq<Item>)
    requires Ascending(s) && OneEach(s)
    ensures |Ids(s)| == |s|
  {
    if s != [] {
      var n := |s| - 1;
      assert forall x :: x in s <==> x in s[..n] || x == s[n];
      IdsSize(s[..n]);
      assert s[n].id !in Ids(s[..n]);
      assert Ids(s) == Ids(s[..n]) + {s[n].id};
    }
  }

  lemma {:induction false} SubsetSize(a: set<Id>, b: set<Id>)
    requires a <= b
    ensures |a| <= |b|
    ensures |a| == |b| ==> a == b
  {
    if a != {} {
      var x :| x in a;
      SubsetSize(a - {x}, b - {x});
    }
  }
}
