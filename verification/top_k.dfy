/** Descending sort of numbers, and why the best of the best are the best of all. */
module TopK {

  function Insert(x: real, s: seq<real>): seq<real> {
    if s == [] || x > s[0] then [x] + s else [s[0]] + Insert(x, s[1..])
  }

  function Sort(s: seq<real>): seq<real> {
    if s == [] then [] else Insert(s[0], Sort(s[1..]))
  }

  function Take<T>(k: nat, s: seq<T>): seq<T> { if k <= |s| then s[..k] else s }

  ghost predicate Descending(s: seq<real>) { forall i, j :: 0 <= i < j < |s| ==> s[i] >= s[j] }

  /** How many numbers are at least `x`. */
  function Count(s: seq<real>, x: real): nat {
    if s == [] then 0 else (if s[0] >= x then 1 else 0) + Count(s[1..], x)
  }

  lemma {:induction false} InsertOk(x: real, s: seq<real>, v: real)
    requires Descending(s)
    ensures Descending(Insert(x, s)) && |Insert(x, s)| == |s| + 1
    ensures Count(Insert(x, s), v) == Count(s, v) + if x >= v then 1 else 0
    ensures s != [] && x <= s[0] ==> Insert(x, s)[0] == s[0]
    ensures s == [] || x > s[0] ==> Insert(x, s)[0] == x
  {
    if s == [] || x > s[0] {
      assert ([x] + s)[1..] == s;
    } else {
      InsertOk(x, s[1..], v);
      assert ([s[0]] + Insert(x, s[1..]))[1..] == Insert(x, s[1..]);
    }
  }

  lemma {:induction false} SortOk(s: seq<real>, v: real)
    ensures Descending(Sort(s)) && |Sort(s)| == |s| && Count(Sort(s), v) == Count(s, v)
  {
    if s != [] {
      SortOk(s[1..], v);
      InsertOk(s[0], Sort(s[1..]), v);
    }
  }

  lemma {:induction false} InsertCommutes(x: real, y: real, s: seq<real>)
    ensures Insert(x, Insert(y, s)) == Insert(y, Insert(x, s))
  {
    if s == [] {
      assert [x][1..] == [] && [y][1..] == [];
    } else {
      InsertCommutes(x, y, s[1..]);
      var sx, sy := Insert(x, s[1..]), Insert(y, s[1..]);
      assert ([x] + s)[1..] == s && ([y] + s)[1..] == s;
      assert ([s[0]] + sx)[1..] == sx && ([s[0]] + sy)[1..] == sy;
    }
  }

  /** Sorting does not care where a number stands. */
  lemma {:induction false} SortMiddle(a: seq<real>, x: real, b: seq<real>)
    ensures Sort(a + [x] + b) == Insert(x, Sort(a + b))
  {
    if a == [] {
      assert ([x] + b)[1..] == b && a + [x] + b == [x] + b && a + b == b;
    } else {
      SortMiddle(a[1..], x, b);
      assert (a + [x] + b)[1..] == a[1..] + [x] + b && (a + b)[1..] == a[1..] + b;
      InsertCommutes(a[0], x, Sort(a[1..] + b));
    }
  }

  lemma {:induction false} SortMoves(p: seq<real>, a: seq<real>, b: seq<real>)
    ensures Sort(p + a + b) == Sort(a + (p + b))
    decreases |a|
  {
    if a == [] {
      assert p + a + b == p + b && a + (p + b) == p + b;
    } else {
      SortMoves(p, a[1..], b);
      assert p + a + b == p + [a[0]] + (a[1..] + b);
      SortMiddle(p, a[0], a[1..] + b);
      assert p + (a[1..] + b) == p + a[1..] + b;
      assert (a + (p + b))[1..] == a[1..] + (p + b);
    }
  }

  lemma {:induction false} SortInserted(x: real, s: seq<real>, b: seq<real>)
    ensures Sort(Insert(x, s) + b) == Insert(x, Sort(s + b))
  {
    if s == [] || x > s[0] {
      assert (Insert(x, s) + b)[1..] == s + b;
    } else {
      SortInserted(x, s[1..], b);
      assert (Insert(x, s) + b)[1..] == Insert(x, s[1..]) + b && (s + b)[1..] == s[1..] + b;
      InsertCommutes(x, s[0], Sort(s[1..] + b));
    }
  }

  /** A part may be sorted first. */
  lemma {:induction false} SortPart(a: seq<real>, b: seq<real>)
    ensures Sort(Sort(a) + b) == Sort(a + b)
  {
    if a != [] {
      SortPart(a[1..], b);
      SortInserted(a[0], Sort(a[1..]), b);
      assert (a + b)[1..] == a[1..] + b;
    }
  }

  /** A number behind the first `k` does not change them. */
  lemma {:induction false} InsertBehind(x: real, s: seq<real>, k: nat)
    requires Descending(s) && k <= |s| && forall i :: 0 <= i < k ==> s[i] >= x
    ensures Take(k, Insert(x, s)) == Take(k, s)
  {
    InsertOk(x, s, 0.0);
    if k > 0 {
      InsertBehind(x, s[1..], k - 1);
      var rest := Insert(x, s[1..]);
      InsertOk(x, s[1..], 0.0);
      assert ([s[0]] + rest)[..k] == [s[0]] + rest[..k - 1];
      assert s[..k] == [s[0]] + s[1..][..k - 1];
    }
  }

  lemma {:induction false} FirstOnesReach(s: seq<real>, x: real, k: nat)
    requires Descending(s) && Count(s, x) >= k
    ensures k <= |s| && forall i :: 0 <= i < k ==> s[i] >= x
  {
    if k > 0 {
      if s[0] < x {
        NoneReach(s, x);
      } else {
        FirstOnesReach(s[1..], x, k - 1);
      }
    }
  }

  lemma {:induction false} NoneReach(s: seq<real>, x: real)
    requires forall i :: 0 <= i < |s| ==> s[i] < x
    ensures Count(s, x) == 0
  {
    if s != [] {
      NoneReach(s[1..], x);
    }
  }

  lemma {:induction false} CountJoin(a: seq<real>, b: seq<real>, x: real)
    ensures Count(a + b, x) == Count(a, x) + Count(b, x)
  {
    if a == [] {
      assert a + b == b;
    } else {
      assert (a + b)[1..] == a[1..] + b;
      CountJoin(a[1..], b, x);
    }
  }

  lemma {:induction false} CountAll(s: seq<real>, x: real)
    requires forall i :: 0 <= i < |s| ==> s[i] >= x
    ensures Count(s, x) == |s|
  {
    if s != [] {
      CountAll(s[1..], x);
    }
  }

  lemma EnoughAbove(a: seq<real>, b: seq<real>, x: real, k: nat)
    requires |a| >= k && forall i :: 0 <= i < |a| ==> a[i] >= x
    ensures k <= |Sort(a + b)| && forall i :: 0 <= i < k ==> Sort(a + b)[i] >= x
  {
    CountAll(a, x);
    CountJoin(a, b, x);
    SortOk(a + b, x);
    FirstOnesReach(Sort(a + b), x, k);
  }

  /** The last of more than `k` descending numbers is not among the first `k` of any larger collection. */
  lemma DropOne(s: seq<real>, b: seq<real>, k: nat)
    requires Descending(s) && |s| > k
    ensures Take(k, Sort(s + b)) == Take(k, Sort(s[..|s| - 1] + b))
  {
    var n := |s| - 1;
    var x, rest := s[n], s[..n];
    assert s + b == rest + [x] + b;
    SortMiddle(rest, x, b);
    SortOk(rest + b, x);
    EnoughAbove(rest, b, x, k);
    InsertBehind(x, Sort(rest + b), k);
  }

  lemma {:induction false} DropRest(s: seq<real>, b: seq<real>, m: nat, k: nat)
    requires Descending(s) && m >= k
    ensures Take(k, Sort(Take(m, s) + b)) == Take(k, Sort(s + b))
    decreases |s|
  {
    if |s| > m {
      DropOne(s, b, k);
      DropRest(s[..|s| - 1], b, m, k);
      assert Take(m, s[..|s| - 1]) == Take(m, s);
    } else {
      assert Take(m, s) == s;
    }
  }

  function Concat<T>(parts: seq<seq<T>>): seq<T> {
    if parts == [] then [] else parts[0] + Concat(parts[1..])
  }

  /** The first `m` of each part, sorted. */
  function Tops(parts: seq<seq<real>>, m: nat): seq<seq<real>> {
    if parts == [] then [] else [Take(m, Sort(parts[0]))] + Tops(parts[1..], m)
  }

  /** Cutting one part to its first `m`. */
  lemma TopOfPart(p: seq<real>, a: seq<real>, b: seq<real>, m: nat, k: nat)
    requires m >= k
    ensures Take(k, Sort(p + Take(m, Sort(a)) + b)) == Take(k, Sort(p + a + b))
  {
    SortMoves(p, Take(m, Sort(a)), b);
    SortOk(a, 0.0);
    DropRest(Sort(a), p + b, m, k);
    SortPart(a, p + b);
    SortMoves(p, a, b);
  }

  lemma {:induction false} TopsBehind(p: seq<real>, parts: seq<seq<real>>, m: nat, k: nat)
    requires m >= k
    ensures Take(k, Sort(p + Concat(Tops(parts, m)))) == Take(k, Sort(p + Concat(parts)))
    decreases |parts|
  {
    if parts != [] {
      var top, rest := Take(m, Sort(parts[0])), parts[1..];
      TopsBehind(p + top, rest, m, k);
      TopOfPart(p, parts[0], Concat(rest), m, k);
      ConcatTops(p, parts, m);
      ConcatFirst(p, parts);
    }
  }

  lemma ConcatFirst(p: seq<real>, parts: seq<seq<real>>)
    requires parts != []
    ensures p + Concat(parts) == p + parts[0] + Concat(parts[1..])
  {
  }

  lemma ConcatTops(p: seq<real>, parts: seq<seq<real>>, m: nat)
    requires parts != []
    ensures p + Concat(Tops(parts, m)) == (p + Take(m, Sort(parts[0]))) + Concat(Tops(parts[1..], m))
  {
    assert Tops(parts, m)[1..] == Tops(parts[1..], m);
  }

  /** The first `k` of the parts' first `m` are the first `k` of everything, when `m` is at least `k`. */
  lemma BestOfBest(parts: seq<seq<real>>, m: nat, k: nat)
    requires m >= k
    ensures Take(k, Sort(Concat(Tops(parts, m)))) == Take(k, Sort(Concat(parts)))
  {
    TopsBehind([], parts, m, k);
    assert [] + Concat(Tops(parts, m)) == Concat(Tops(parts, m)) && [] + Concat(parts) == Concat(parts);
  }
}
