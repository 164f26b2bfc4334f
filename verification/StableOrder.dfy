/**
 Python's `sorted(..., reverse=True)`: larger keys first, equal keys in their original order. An
 order is a sequence of positions, so that callers can apply it to whatever the keys belong to.
 */
module StableOrder {

  predicate Before(keys: seq<real>, i: nat, j: nat)
    requires i < |keys| && j < |keys|
  {
    keys[i] > keys[j] || (keys[i] == keys[j] && i < j)
  }

  /** Positions in range, each strictly before the next ones. */
  predicate Ranked(keys: seq<real>, order: seq<nat>) {
    && (forall a :: 0 <= a < |order| ==> order[a] < |keys|)
    && (forall a, b :: 0 <= a < b < |order| ==> Before(keys, order[a], order[b]))
  }

  /** Everything left out comes after everything taken. */
  predicate Leading(keys: seq<real>, order: seq<nat>)
    requires Ranked(keys, order)
  {
    forall a, i :: 0 <= a < |order| && 0 <= i < |keys| && i !in order ==> Before(keys, order[a], i)
  }

  predicate InRange(keys: seq<real>, order: seq<nat>) {
    forall a :: 0 <= a < |order| ==> order[a] < |keys|
  }

  /** Insertion from the back, past every strictly smaller key. */
  function Place(keys: seq<real>, order: seq<nat>, i: nat): (r: seq<nat>)
    requires i < |keys| && InRange(keys, order)
    ensures InRange(keys, r) && |r| == |order| + 1
  {
    if order == [] then [i]
    else
      var n := |order| - 1;
      if keys[order[n]] >= keys[i] then order + [i]
      else Place(keys, order[..n], i) + [order[n]]
  }

  lemma RankedSnoc(keys: seq<real>, order: seq<nat>, y: nat)
    requires Ranked(keys, order) && y < |keys|
    requires forall a :: 0 <= a < |order| ==> Before(keys, order[a], y)
    ensures Ranked(keys, order + [y])
  {
  }

  lemma {:induction false} PlaceMembers(keys: seq<real>, order: seq<nat>, i: nat, x: nat)
    requires i < |keys| && InRange(keys, order)
    ensures x in Place(keys, order, i) <==> x in order || x == i
  {
    if order != [] {
      var n := |order| - 1;
      PlaceMembers(keys, order[..n], i, x);
      assert order == order[..n] + [order[n]];
    }
  }

  lemma {:induction false} PlaceRanked(keys: seq<real>, order: seq<nat>, i: nat)
    requires i < |keys| && Ranked(keys, order) && forall a :: 0 <= a < |order| ==> order[a] < i
    ensures Ranked(keys, Place(keys, order, i))
  {
    if order != [] {
      var n := |order| - 1;
      if keys[order[n]] >= keys[i] {
        forall a | 0 <= a < |order| ensures Before(keys, order[a], i) {
          assert a < n ==> Before(keys, order[a], order[n]);
        }
        RankedSnoc(keys, order, i);
      } else {
        PlaceRanked(keys, order[..n], i);
        PlaceBefore(keys, order, i);
        RankedSnoc(keys, Place(keys, order[..n], i), order[n]);
      }
    }
  }

  lemma PlaceBefore(keys: seq<real>, order: seq<nat>, i: nat)
    requires i < |keys| && Ranked(keys, order) && order != [] && keys[order[|order| - 1]] < keys[i]
    ensures var n := |order| - 1;
            forall a :: 0 <= a < |order| ==> Before(keys, Place(keys, order[..n], i)[a], order[n])
  {
    var n := |order| - 1;
    var r := Place(keys, order[..n], i);
    forall a | 0 <= a < |r| ensures Before(keys, r[a], order[n]) {
      PlaceMembers(keys, order[..n], i, r[a]);
      if r[a] != i {
        var b :| 0 <= b < n && order[..n][b] == r[a];
        assert Before(keys, order[b], order[n]);
      }
    }
  }

  function OrderUpTo(keys: seq<real>, n: nat): (r: seq<nat>)
    requires n <= |keys|
    ensures InRange(keys, r) && |r| == n
  {
    if n == 0 then [] else Place(keys, OrderUpTo(keys, n - 1), n - 1)
  }

  lemma {:induction false} OrderUpToMembers(keys: seq<real>, n: nat, x: nat)
    requires n <= |keys|
    ensures x in OrderUpTo(keys, n) <==> x < n
  {
    if n > 0 {
      OrderUpToMembers(keys, n - 1, x);
      PlaceMembers(keys, OrderUpTo(keys, n - 1), n - 1, x);
    }
  }

  lemma {:induction false} OrderUpToRanked(keys: seq<real>, n: nat)
    requires n <= |keys|
    ensures Ranked(keys, OrderUpTo(keys, n))
  {
    if n > 0 {
      OrderUpToRanked(keys, n - 1);
      var r := OrderUpTo(keys, n - 1);
      forall a | 0 <= a < |r| ensures r[a] < n - 1 {
        OrderUpToMembers(keys, n - 1, r[a]);
      }
      PlaceRanked(keys, r, n - 1);
    }
  }

  lemma Sorts(keys: seq<real>)
    ensures Ranked(keys, OrderUpTo(keys, |keys|))
    ensures forall x: nat :: x in OrderUpTo(keys, |keys|) <==> x < |keys|
  {
    OrderUpToRanked(keys, |keys|);
    forall x: nat ensures x in OrderUpTo(keys, |keys|) <==> x < |keys| {
      OrderUpToMembers(keys, |keys|, x);
    }
  }

  /** The stable descending order of all positions. */
  function Order(keys: seq<real>): (r: seq<nat>)
    ensures Ranked(keys, r) && |r| == |keys|
    ensures forall x: nat :: x in r <==> x < |keys|
  {
    Sorts(keys);
    OrderUpTo(keys, |keys|)
  }

  lemma IndexOf(xs: seq<nat>, x: nat) returns (i: nat)
    requires x in xs
    ensures i < |xs| && xs[i] == x
  {
    i :| i < |xs| && xs[i] == x;
  }

  /** Any ranked, leading choice of positions is a prefix of the order: there is only one way to sort. */
  lemma LeadingIsPrefix(keys: seq<real>, xs: seq<nat>)
    requires Ranked(keys, xs) && Leading(keys, xs)
    ensures |xs| <= |keys| && xs == Order(keys)[..|xs|]
  {
    var o := Order(keys);
    for j := 0 to |xs|
      invariant j <= |o| && forall a :: 0 <= a < j ==> xs[a] == o[a]
    {
      var a := IndexOf(o, xs[j]);
      if j == |o| {
        assert false;
      }
      SameNext(keys, xs, o, j);
    }
  }

  lemma SameNext(keys: seq<real>, xs: seq<nat>, o: seq<nat>, j: nat)
    requires Ranked(keys, xs) && Leading(keys, xs) && Ranked(keys, o)
    requires forall x: nat :: x < |keys| ==> x in o
    requires j < |xs| && j < |o| && forall a :: 0 <= a < j ==> xs[a] == o[a]
    ensures xs[j] == o[j]
  {
    var x, y := xs[j], o[j];
    assert x in o;
    var m := IndexOf(o, x);
    if y in xs {
      var l := IndexOf(xs, y);
    }
  }

  /** Sorting leaves a sequence alone that is already in order. */
  lemma SortedStays(keys: seq<real>)
    requires forall i, j :: 0 <= i < j < |keys| ==> keys[i] >= keys[j]
    ensures forall i :: 0 <= i < |keys| ==> Order(keys)[i] == i
  {
    var same := seq(|keys|, (i: nat) => i);
    forall i: nat | i < |keys| ensures i in same {
      assert same[i] == i;
    }
    LeadingIsPrefix(keys, same);
  }
}
