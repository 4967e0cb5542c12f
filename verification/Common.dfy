// Sequence vocabulary shared by the server tables and the client replica.
module Common {
  datatype Option<+T> = None | Some(value: T)

  function Max(a: int, b: int): int {
    if a < b then b else a
  }

  /** The rows a WHERE clause keeps, in table order. */
  function Filter<T(!new)>(xs: seq<T>, p: T -> bool): (ys: seq<T>)
    ensures forall x :: x in ys <==> x in xs && p(x)
    ensures |ys| <= |xs|
  {
    if xs == [] then []
    else
      var last := xs[|xs| - 1];
      assert xs == xs[..|xs| - 1] + [last];
      var ys := Filter(xs[..|xs| - 1], p);
      if p(last) then ys + [last] else ys
  }

  /** What the filter keeps first is the first that it keeps. */
  lemma {:induction false} FilterFirst<T(!new)>(xs: seq<T>, p: T -> bool)
    ensures Filter(xs, p) != [] ==>
      exists i :: 0 <= i < |xs| && xs[i] == Filter(xs, p)[0] && p(xs[i]) && forall j :: 0 <= j < i ==> !p(xs[j])
  {
    if xs != [] {
      var n := |xs| - 1;
      FilterFirst(xs[..n], p);
      if Filter(xs[..n], p) == [] {
        assert forall j :: 0 <= j < n ==> xs[j] in xs[..n];
      } else {
        var i :| 0 <= i < n && xs[..n][i] == Filter(xs[..n], p)[0] && p(xs[i])
          && forall j :: 0 <= j < i ==> !p(xs[..n][j]);
        assert forall j :: 0 <= j < i ==> xs[j] == xs[..n][j];
      }
    }
  }

  function Map<T(!new), U(!new)>(f: T -> U, xs: seq<T>): (ys: seq<U>)
    ensures |ys| == |xs| && forall i :: 0 <= i < |xs| ==> ys[i] == f(xs[i])
    ensures forall x :: x in xs ==> f(x) in ys
    ensures forall y :: y in ys ==> exists x :: x in xs && f(x) == y
  {
    var ys := seq(|xs|, i requires 0 <= i < |xs| => f(xs[i]));
    assert forall x :: x in xs ==> f(x) in ys by {
      forall x | x in xs ensures f(x) in ys {
        var i :| 0 <= i < |xs| && xs[i] == x;
        assert ys[i] == f(x);
      }
    }
    ys
  }

  /** Without the first n elements; n may be negative or larger than the length. */
  function DropFirst<T>(xs: seq<T>, n: int): seq<T> {
    if n <= 0 then xs else if n >= |xs| then [] else xs[n..]
  }

  /** Without the last n elements; n may be negative or larger than the length. */
  function DropLast<T>(xs: seq<T>, n: int): seq<T> {
    if n <= 0 then xs else if n >= |xs| then [] else xs[..|xs| - n]
  }

  /** The last n elements, or all of them when there are fewer. */
  function TakeLast<T(!new)>(n: nat, xs: seq<T>): (ys: seq<T>)
    ensures |ys| == if |xs| <= n then |xs| else n
    ensures forall x :: x in ys ==> x in xs
  {
    if |xs| <= n then xs else xs[|xs| - n..]
  }

  predicate Distinct<T(==,!new)>(xs: seq<T>) {
    forall i, j :: 0 <= i < j < |xs| ==> xs[i] != xs[j]
  }

  function Elements<T>(xs: seq<T>): set<T> {
    set x | x in xs
  }

  /** Windowing twice is windowing once: what an earlier window dropped would be dropped later anyway. */
  lemma TakeLastTwice<T(!new)>(n: nat, xs: seq<T>, ys: seq<T>)
    ensures TakeLast(n, TakeLast(n, xs) + ys) == TakeLast(n, xs + ys)
  {
  }

  lemma {:induction false} DistinctCardinality<T(!new)>(xs: seq<T>)
    requires Distinct(xs)
    ensures |Elements(xs)| == |xs|
  {
    if xs != [] {
      var last := xs[|xs| - 1];
      DistinctCardinality(xs[..|xs| - 1]);
      assert Elements(xs) == Elements(xs[..|xs| - 1]) + {last};
    }
  }

  /** A finite set as a list. */
  lemma {:induction false} Listing(keys: set<int>) returns (order: seq<int>)
    ensures Elements(order) == keys
  {
    if x :| x in keys {
      var front := Listing(keys - {x});
      order := front + [x];
      forall y ensures y in Elements(order) <==> y in keys {
        assert y in Elements(front) <==> y in keys - {x};
      }
    } else {
      order := [];
      forall y ensures y in Elements(order) <==> y in keys {
      }
    }
  }

  lemma SubsetCardinality<T>(a: set<T>, b: set<T>)
    requires a <= b
    ensures |a| <= |b|
    ensures |a| == |b| ==> a == b
  {
    assert b == a + (b - a);
    assert |b| == |a| + |b - a|;
  }
}
