/** The ranking step shared by the six Query* methods of
    HyperVectorDB/HyperVectorDBIndex.cs: order the per-record scores from
    highest to lowest and keep the first topK positions.

    The source sorts a ConcurrentBag filled by Parallel.For, so records with
    equal scores come out in no defined order. The model ranks sequentially
    and breaks ties by position (insertion order), one of the orders the
    source may produce. */
module Ranking {

  function Min(a: int, b: int): int {
    if a <= b then a else b
  }

  /** Position i ranks ahead of position j: a strictly higher score, or an
      equal score and an earlier position. */
  predicate Ahead(scores: seq<real>, i: nat, j: nat)
    requires i < |scores| && j < |scores|
  {
    scores[i] > scores[j] || (scores[i] == scores[j] && i < j)
  }

  /** `order` lists positions of `scores`, each ranked ahead of all later ones
      (so no position occurs twice). */
  ghost predicate Ranked(scores: seq<real>, order: seq<nat>) {
    && (forall a :: 0 <= a < |order| ==> order[a] < |scores|)
    && (forall a, b :: 0 <= a < b < |order| ==> Ahead(scores, order[a], order[b]))
  }

  /** Inserts position i before the first entry it ranks ahead of. */
  function Insert(scores: seq<real>, i: nat, order: seq<nat>): (r: seq<nat>)
    requires i < |scores| && Ranked(scores, order) && i !in order
    ensures Ranked(scores, r)
    ensures |r| == |order| + 1
    ensures forall p :: p in r <==> p == i || p in order
    decreases |order|
  {
    if |order| == 0 then [i]
    else if Ahead(scores, i, order[0]) then [i] + order
    else
      var rest := Insert(scores, i, order[1..]);
      assert forall p :: p in order <==> p == order[0] || p in order[1..];
      assert forall b :: 0 <= b < |rest| ==> Ahead(scores, order[0], rest[b]) by {
        forall b | 0 <= b < |rest|
          ensures Ahead(scores, order[0], rest[b])
        {
          if rest[b] != i {
            assert rest[b] in rest;
            assert rest[b] in order[1..];
            var c :| 0 <= c < |order[1..]| && order[1..][c] == rest[b];
            assert order[c + 1] == rest[b];
          }
        }
      }
      [order[0]] + rest
  }

  /** The positions 0 .. n-1 of `scores`, best first. */
  function Rank(scores: seq<real>, n: nat): (order: seq<nat>)
    requires n <= |scores|
    ensures Ranked(scores, order) && |order| == n
    ensures forall p: nat :: p in order <==> p < n
  {
    if n == 0 then []
    else Insert(scores, n - 1, Rank(scores, n - 1))
  }

  /** `picked` is a top-k selection of the positions of `scores`: min(k, |scores|)
      distinct positions, listed with non-increasing scores, and no position
      left out scores above the last one kept. */
  ghost predicate IsTopK(scores: seq<real>, k: int, picked: seq<nat>) {
    && |picked| == Min(if k < 0 then 0 else k, |scores|)
    && (forall a :: 0 <= a < |picked| ==> picked[a] < |scores|)
    && (forall a, b :: 0 <= a < b < |picked| ==> picked[a] != picked[b])
    && (forall a, b :: 0 <= a < b < |picked| ==> scores[picked[a]] >= scores[picked[b]])
    && (0 < |picked| ==>
         forall i :: 0 <= i < |scores| && i !in picked ==> scores[i] <= scores[picked[|picked| - 1]])
  }

  /** In a ranked list every entry of a prefix ranks ahead of every entry
      after that prefix. */
  lemma PrefixRanksAhead(scores: seq<real>, order: seq<nat>, m: nat)
    requires Ranked(scores, order) && m <= |order|
    ensures forall a, i :: 0 <= a < m && i in order && i !in order[..m] ==> Ahead(scores, order[a], i)
  {
    forall a, i | 0 <= a < m && i in order && i !in order[..m]
      ensures Ahead(scores, order[a], i)
    {
      var p :| 0 <= p < |order| && order[p] == i;
    }
  }

  /** The first min(k, |scores|) positions of the ranking: a top-k selection
      in which every kept position ranks ahead of every omitted one, so ties
      keep insertion order. */
  function SelectTopK(scores: seq<real>, k: int): (picked: seq<nat>)
    ensures IsTopK(scores, k, picked)
    ensures Ranked(scores, picked)
    ensures forall a, i :: 0 <= a < |picked| && 0 <= i < |scores| && i !in picked ==> Ahead(scores, picked[a], i)
  {
    var order := Rank(scores, |scores|);
    var m := Min(if k < 0 then 0 else k, |scores|);
    PrefixRanksAhead(scores, order, m);
    assert forall i :: 0 <= i < |scores| ==> i in order by {
      forall i | 0 <= i < |scores| ensures i in order {
        var p: nat := i;
        assert p in order;
      }
    }
    order[..m]
  }
}
