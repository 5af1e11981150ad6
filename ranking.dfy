/** Ranking of players by a real-valued key, as Python does it with
    `list.sort(key=..., reverse=True)` and `max(xs, key=...)`.

    Players are named by their position in a roster, and `key[i]` is the
    key of the player at position `i`. Every list the repository sorts is
    in roster order, and Python's sort is stable, so a descending sort
    puts higher keys first and keeps equal keys in roster order: it orders
    by `Before` below, which is a strict total order on positions. */
module Ranking {

  /** Player `i` comes before player `j`: a higher key, or an equal key and
      an earlier roster position. */
  predicate Before(key: seq<real>, i: nat, j: nat)
    requires i < |key| && j < |key|
  {
    key[i] > key[j] || (key[i] == key[j] && i < j)
  }

  predicate InRange(key: seq<real>, xs: seq<nat>) {
    forall k :: 0 <= k < |xs| ==> xs[k] < |key|
  }

  /** No later element of `xs` comes `Before` an earlier one. */
  predicate Ranked(key: seq<real>, xs: seq<nat>)
    requires InRange(key, xs)
  {
    forall a, b :: 0 <= a < b < |xs| ==> !Before(key, xs[b], xs[a])
  }

  /** Insert `x` into the ranked list `xs`, in front of the first element it
      comes before. */
  function Insert(key: seq<real>, xs: seq<nat>, x: nat): (r: seq<nat>)
    requires InRange(key, xs) && x < |key| && Ranked(key, xs)
    ensures |r| == |xs| + 1
    ensures multiset(r) == multiset(xs) + multiset{x}
    ensures forall k :: 0 <= k < |r| ==> r[k] == x || r[k] in xs
  {
    if xs == [] then [x]
    else if Before(key, x, xs[0]) then
      [x] + xs
    else
      var tail := xs[1..];
      assert xs == [xs[0]] + tail;
      RankedRest(key, xs);
      var rest := Insert(key, tail, x);
      assert forall k :: 0 <= k < |rest| ==> rest[k] == x || rest[k] in tail;
      [xs[0]] + rest
  }

  /** The tail of a ranked list is ranked, and nothing in it comes before
      the head. */
  lemma RankedRest(key: seq<real>, xs: seq<nat>)
    requires InRange(key, xs) && Ranked(key, xs) && xs != []
    ensures InRange(key, xs[1..]) && Ranked(key, xs[1..])
    ensures forall y :: y in xs[1..] ==> !Before(key, y, xs[0])
  {
    var tail := xs[1..];
    assert forall a :: 0 <= a < |tail| ==> tail[a] == xs[a + 1];
    forall y | y in tail ensures !Before(key, y, xs[0]) {
      var j :| 0 <= j < |tail| && tail[j] == y;
      assert xs[j + 1] == y;
    }
  }

  /** An element nothing in a ranked list comes before can go in front of it. */
  lemma RankedPrepend(key: seq<real>, x: nat, ys: seq<nat>)
    requires x < |key| && InRange(key, ys) && Ranked(key, ys)
    requires forall y :: y in ys ==> !Before(key, y, x)
    ensures InRange(key, [x] + ys) && Ranked(key, [x] + ys)
  {
    var r := [x] + ys;
    assert forall a :: 1 <= a < |r| ==> r[a] == ys[a - 1] && r[a] in ys;
  }

  /** Inserting keeps a list ranked. */
  lemma {:induction false} InsertRanked(key: seq<real>, xs: seq<nat>, x: nat)
    requires InRange(key, xs) && x < |key| && Ranked(key, xs)
    ensures InRange(key, Insert(key, xs, x)) && Ranked(key, Insert(key, xs, x))
    decreases |xs|
  {
    if xs == [] {
      RankedPrepend(key, x, xs);
    } else if Before(key, x, xs[0]) {
      RankedRest(key, xs);
      forall y | y in xs ensures !Before(key, y, x) {
        if y != xs[0] {
          assert y in xs[1..] by { assert xs == [xs[0]] + xs[1..]; }
        }
      }
      RankedPrepend(key, x, xs);
    } else {
      var tail := xs[1..];
      RankedRest(key, xs);
      InsertRanked(key, tail, x);
      var rest := Insert(key, tail, x);
      assert Insert(key, xs, x) == [xs[0]] + rest;
      RankedPrepend(key, xs[0], rest);
    }
  }

  /** The stable descending sort: a ranked permutation of `xs`. */
  function SortDesc(key: seq<real>, xs: seq<nat>): (r: seq<nat>)
    requires InRange(key, xs)
    ensures |r| == |xs|
    ensures multiset(r) == multiset(xs)
    ensures InRange(key, r) && Ranked(key, r)
  {
    if xs == [] then []
    else
      assert xs == xs[..|xs| - 1] + [xs[|xs| - 1]];
      var sorted := SortDesc(key, xs[..|xs| - 1]);
      InsertRanked(key, sorted, xs[|xs| - 1]);
      Insert(key, sorted, xs[|xs| - 1])
  }

  /** In a ranked list keys never increase, and equal keys appear in roster
      order. */
  lemma RankedMeansDescending(key: seq<real>, xs: seq<nat>, a: nat, b: nat)
    requires InRange(key, xs) && Ranked(key, xs)
    requires a < b < |xs|
    ensures key[xs[a]] >= key[xs[b]]
    ensures key[xs[a]] == key[xs[b]] ==> xs[a] <= xs[b]
  {
    assert !Before(key, xs[b], xs[a]);
  }

  /** Two ranked lists with the same elements start with the same one. */
  lemma SameHead(key: seq<real>, xs: seq<nat>, ys: seq<nat>)
    requires InRange(key, xs) && Ranked(key, xs)
    requires InRange(key, ys) && Ranked(key, ys)
    requires multiset(xs) == multiset(ys) && xs != []
    ensures ys != [] && xs[0] == ys[0]
  {
    assert xs[0] in multiset(ys);
    var i :| 0 <= i < |ys| && ys[i] == xs[0];
    assert ys[0] in multiset(xs);
    var j :| 0 <= j < |xs| && xs[j] == ys[0];
  }

  /** Two ranked lists with the same elements and no repeats are equal: the
      sort has exactly one possible result. */
  lemma {:induction false} RankedUnique(key: seq<real>, xs: seq<nat>, ys: seq<nat>)
    requires InRange(key, xs) && Ranked(key, xs)
    requires InRange(key, ys) && Ranked(key, ys)
    requires multiset(xs) == multiset(ys)
    ensures xs == ys
    decreases |xs|
  {
    assert |xs| == |multiset(xs)| == |ys|;
    if xs != [] {
      SameHead(key, xs, ys);
      assert xs == [xs[0]] + xs[1..];
      assert ys == [ys[0]] + ys[1..];
      assert multiset(xs) == multiset{xs[0]} + multiset(xs[1..]);
      assert multiset(ys) == multiset{ys[0]} + multiset(ys[1..]);
      assert multiset(xs[1..]) == multiset(xs) - multiset{xs[0]};
      assert multiset(ys[1..]) == multiset(ys) - multiset{ys[0]};
      RankedUnique(key, xs[1..], ys[1..]);
    }
  }

  /** `max(xs, key=...)`: the position in `xs` of the first element whose key
      is maximal. Python's `max` keeps the running maximum and replaces it
      only by a strictly larger key. */
  function FirstMaxAt(key: seq<real>, xs: seq<nat>): (p: nat)
    requires InRange(key, xs) && xs != []
    ensures p < |xs|
    ensures forall k :: 0 <= k < |xs| ==> key[xs[k]] <= key[xs[p]]
    ensures forall k :: 0 <= k < p ==> key[xs[k]] < key[xs[p]]
  {
    if |xs| == 1 then 0
    else
      var q := FirstMaxAt(key, xs[..|xs| - 1]);
      assert forall k :: 0 <= k < |xs| - 1 ==> xs[..|xs| - 1][k] == xs[k];
      if key[xs[|xs| - 1]] > key[xs[q]] then |xs| - 1 else q
  }
}
