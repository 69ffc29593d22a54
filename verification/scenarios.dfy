/** Concrete runs of the model: the flow of the basic usage test in
    HyperVectorDB.Tests/BasicUsageTests.cs, and a small worked cosine query
    whose ranking follows from the contracts alone. */
module Scenarios {
  import opened Results
  import opened Kernels
  import opened Ranking
  import opened VectorIndex
  import opened Lifecycle

  /** The default topK of every Query* method. */
  const DefaultTopK: int := 5

  // ---------------------------------------------------------------------
  // Square roots of small constants
  // ---------------------------------------------------------------------

  lemma SqrtOfOne(sqrt: real -> real)
    requires IsSqrt(sqrt)
    ensures sqrt(1.0) == 1.0
  {
    var t := sqrt(1.0);
    assert 0.0 <= t && t * t == 1.0 by {
      assert Times(t, t) == 1.0;
    }
    if t < 1.0 {
      SquareMonotone(1.0, t);
    } else if t > 1.0 {
      SquareMonotone(t, 1.0);
    }
  }

  lemma SqrtAboveOne(sqrt: real -> real, r: real)
    requires IsSqrt(sqrt) && 1.0 < r
    ensures 1.0 < sqrt(r)
  {
    var t := sqrt(r);
    assert 0.0 <= t && t * t == r by {
      assert Times(t, t) == r;
    }
    if t < 1.0 {
      SquareMonotone(1.0, t);
    }
  }

  // ---------------------------------------------------------------------
  // The basic usage test
  // ---------------------------------------------------------------------

  /** Saving a dirty index and loading the files into a new index of the
      same name, as the test does across two database objects, yields the
      same records, an empty cache and a clean flag. */
  lemma {:induction false} SaveThenLoadIntoNewIndex<D>(ix: Index<D>, disk: Disk<D>, root: string)
    requires Valid(ix) && !ix.fileValid
    ensures var s := Save(ix, disk, root);
            var r := Load(New<D>(ix.name), s.disk, root);
            && r.Ok?
            && Valid(r.value) && Records(r.value) == Records(ix)
            && r.value.cache == map[] && r.value.fileValid
  {
    var s := Save(ix, disk, root);
    var r := Load(New<D>(ix.name), s.disk, root);
    assert Snapshot(r.value.vectors, r.value.documents) == Snapshot(ix.vectors, ix.documents);
  }

  /** On an index of sixteen records that a query vector can be compared
      with, cosine queries for the default 5, then 10, 3 and 1 return that
      many documents. */
  lemma {:induction false} BasicUsageResultSizes<D>(sys: System<D>, sqrt: real -> real, q: Vector)
    requires Inv(sys) && IsSqrt(sqrt) && Count(sys.index) == 16
    requires forall i :: 0 <= i < |sys.index.vectors| ==> |q| <= |sys.index.vectors[i]|
    ensures forall k :: k in {DefaultTopK, 10, 3, 1} ==>
      var a := QueryCosineSimilarity(sys.index, sqrt, q, k);
      a.result.Ok? && |a.result.value.documents| == k
  {
    forall k | k in {DefaultTopK, 10, 3, 1}
      ensures var a := QueryCosineSimilarity(sys.index, sqrt, q, k);
              a.result.Ok? && |a.result.value.documents| == k
    {
      CosineQueryAlwaysScores(sys, sqrt, q, k);
      assert forall i :: 0 <= i < |sys.index.vectors| ==> Readable(Cosine, q, sys.index.vectors[i]);
    }
  }

  // ---------------------------------------------------------------------
  // A worked cosine query
  // ---------------------------------------------------------------------

  /** Documents "A", "B", "C" stored under (1, 0), (0, 1) and (1, 1). */
  function Compass(): (ix: Index<string>)
    ensures Valid(ix) && Count(ix) == 3
  {
    Index("compass", [[1.0, 0.0], [0.0, 1.0], [1.0, 1.0]], ["A", "B", "C"], map[], false)
  }

  /** Scores against (1, 0): 1 for the same direction, 0 for the
      orthogonal one, and 1/sqrt(2), strictly between, for the diagonal. */
  lemma CompassScores(sqrt: real -> real)
    requires IsSqrt(sqrt)
    ensures var s := Scores(Compass().vectors, Kernel(Cosine, sqrt), [1.0, 0.0]);
            && s[0] == 1.0 && s[1] == 0.0
            && s[2] == 1.0 / sqrt(2.0) && 0.0 < s[2] < 1.0
  {
    var q: Vector := [1.0, 0.0];
    var v := Compass().vectors;
    assert Dot(q, q, 2) == 1.0;
    CosineOfSelf(q, sqrt);
    assert v[0] == q;
    assert Dot(q, v[1], 2) == 0.0;
    assert Dot(q, v[2], 2) == 1.0;
    assert Dot(v[2], v[2], 2) == 2.0;
    SqrtOfOne(sqrt);
    SqrtAboveOne(sqrt, 2.0);
    var norms := sqrt(1.0) * sqrt(2.0);
    assert norms == sqrt(2.0);
    assert CosineSimilarity(q, v[2], sqrt) == 1.0 - 1.0 / norms;
    assert 0.0 < 1.0 / norms < 1.0;
  }

  /** With three scores ordered s[0] > s[2] > s[1], the only top-three
      selection is positions 0, 2, 1, in that order. */
  lemma TopThreeOfThree(s: seq<real>, picked: seq<nat>)
    requires |s| == 3 && s[0] > s[2] > s[1]
    requires IsTopK(s, 3, picked)
    ensures picked == [0, 2, 1]
  {
    assert |picked| == 3;
    assert picked[0] < 3 && picked[1] < 3 && picked[2] < 3;
    assert picked[0] != picked[1] && picked[0] != picked[2] && picked[1] != picked[2];
    assert s[picked[0]] >= s[picked[1]] >= s[picked[2]];
  }

  lemma GatherAll<D>(documents: seq<D>, scores: seq<real>, picked: seq<nat>)
    requires |documents| == 3 && |scores| == 3 && picked == [0, 2, 1]
    ensures Gather(documents, scores, picked).documents == [documents[0], documents[2], documents[1]]
    ensures Gather(documents, scores, picked).distances == [scores[0], scores[2], scores[1]]
  {
    var r := Gather(documents, scores, picked);
    assert r.documents[0] == documents[0] && r.documents[1] == documents[2] && r.documents[2] == documents[1];
    assert r.distances[0] == scores[0] && r.distances[1] == scores[2] && r.distances[2] == scores[1];
  }

  /** QueryCosineSimilarity of (1, 0) for three results, on an index whose
      cache is empty, ranks "A" (score 1), then "C" (score 1/sqrt(2)), then
      "B" (score 0). */
  lemma CompassRanking(sqrt: real -> real)
    requires IsSqrt(sqrt)
    ensures var r := QueryCosineSimilarity(Compass(), sqrt, [1.0, 0.0], 3).result;
            && r.Ok?
            && r.value.documents == ["A", "C", "B"]
            && r.value.distances == [1.0, 1.0 / sqrt(2.0), 0.0]
  {
    var q: Vector := [1.0, 0.0];
    var ix := Compass();
    var s := Scores(ix.vectors, Kernel(Cosine, sqrt), q);
    CompassScores(sqrt);
    assert forall i :: 0 <= i < |ix.vectors| ==> Readable(Cosine, q, ix.vectors[i]);
    var r := QueryMetric(ix, Cosine, sqrt, q, 3);
    var picked :| IsTopK(s, 3, picked) && r.value == Gather(ix.documents, s, picked);
    TopThreeOfThree(s, picked);
    GatherAll(ix.documents, s, picked);
    assert QueryCosineSimilarity(ix, sqrt, q, 3).result == r;
  }
}
