/** One index of the database (HyperVectorDB/HyperVectorDBIndex.cs): two
    position-aligned lists of vectors and documents, a cosine query cache and
    a clean/dirty flag, with the operations that change them, the six top-K
    queries, and the flag behaviour of Save and Load.

    The index is an immutable value and every operation returns the new
    value; an operation that throws in the source returns `Err` and the
    caller keeps the index it had, which is what "the store is unchanged"
    means here. Documents are an opaque type compared with `==`. */
module VectorIndex {
  import opened Results
  import opened Kernels
  import opened Ranking

  /** HVDBQueryResult: the documents found and their scores, best first. */
  datatype QueryResult<D> = QueryResult(documents: seq<D>, distances: seq<real>)

  type Cache<D> = map<Vector, QueryResult<D>>

  datatype Index<D> = Index(
    name: string,
    vectors: seq<Vector>,
    documents: seq<D>,
    cache: Cache<D>,
    fileValid: bool)

  /** The alignment invariant: vector i and document i form record i. */
  predicate Valid<D>(ix: Index<D>) {
    |ix.vectors| == |ix.documents|
  }

  /** The Count property, which reads the document list. */
  function Count<D>(ix: Index<D>): nat {
    |ix.documents|
  }

  /** The records of a valid index, each a (vector, document) pair. */
  function Records<D>(ix: Index<D>): (rs: seq<(Vector, D)>)
    requires Valid(ix)
    ensures |rs| == Count(ix)
  {
    seq(|ix.documents|, i requires 0 <= i < |ix.documents| => (ix.vectors[i], ix.documents[i]))
  }

  /** `after` keeps the name of `before`, has an empty cache and is dirty:
      the effect of ResetCaches. */
  ghost predicate Invalidated<D>(before: Index<D>, after: Index<D>) {
    after.name == before.name && after.cache == map[] && !after.fileValid
  }

  // ---------------------------------------------------------------------
  // Construction and mutation
  // ---------------------------------------------------------------------

  /** A fresh index: no records, empty cache, not yet saved. */
  function New<D>(name: string): (ix: Index<D>)
    ensures Valid(ix) && Count(ix) == 0 && Records(ix) == []
    ensures ix.name == name && ix.cache == map[] && !ix.fileValid
  {
    Index(name, [], [], map[], false)
  }

  function ResetCaches<D>(ix: Index<D>): (r: Index<D>)
    ensures Invalidated(ix, r)
    ensures r.vectors == ix.vectors && r.documents == ix.documents
  {
    ix.(cache := map[], fileValid := false)
  }

  /** Appends one record; a vector with no coordinates is refused. */
  function Add<D>(ix: Index<D>, vector: Vector, doc: D): (r: Result<Index<D>>)
    ensures r.Err? <==> |vector| == 0
    ensures r.Err? ==> r.error == ZeroLengthVector
    ensures r.Ok? ==> Count(r.value) == Count(ix) + 1 && Invalidated(ix, r.value)
    ensures r.Ok? && Valid(ix) ==> Valid(r.value) && Records(r.value) == Records(ix) + [(vector, doc)]
  {
    if |vector| == 0 then Err(ZeroLengthVector)
    else
      var next := ResetCaches(ix.(vectors := ix.vectors + [vector], documents := ix.documents + [doc]));
      assert Valid(ix) ==> Valid(next) && Records(next) == Records(ix) + [(vector, doc)];
      Ok(next)
  }

  /** List<T>.IndexOf: the first position holding x, or -1. */
  function IndexOf<T(==)>(s: seq<T>, x: T): (i: int)
    ensures i == -1 <==> x !in s
    ensures i != -1 ==> FirstAt(s, x, i)
  {
    if |s| == 0 then -1
    else if s[0] == x then 0
    else
      var j := IndexOf(s[1..], x);
      if j == -1 then -1
      else
        assert s[..j + 1] == [s[0]] + s[1..][..j];
        j + 1
  }

  /** i is the first position of s holding x. */
  ghost predicate FirstAt<T>(s: seq<T>, x: T, i: int) {
    0 <= i < |s| && s[i] == x && x !in s[..i]
  }

  lemma FirstAtUnique<T>(s: seq<T>, x: T, i: int, j: int)
    requires FirstAt(s, x, i) && FirstAt(s, x, j)
    ensures i == j
  {
  }

  /** s without its element at position i (List<T>.RemoveAt). */
  function Delete<T>(s: seq<T>, i: nat): (r: seq<T>)
    requires i < |s|
    ensures |r| == |s| - 1
    ensures forall j :: 0 <= j < i ==> r[j] == s[j]
    ensures forall j :: i <= j < |r| ==> r[j] == s[j + 1]
  {
    s[..i] + s[i + 1..]
  }

  /** Removes position i from both lists at once. */
  function Excise<D>(ix: Index<D>, i: nat): (r: Index<D>)
    requires Valid(ix) && i < Count(ix)
    ensures Valid(r) && Count(r) == Count(ix) - 1 && Invalidated(ix, r)
    ensures Records(r) == Delete(Records(ix), i)
  {
    var r := ResetCaches(ix.(vectors := Delete(ix.vectors, i), documents := Delete(ix.documents, i)));
    assert forall j :: 0 <= j < Count(r) ==> Records(r)[j] == Delete(Records(ix), i)[j] by {
      forall j | 0 <= j < Count(r)
        ensures Records(r)[j] == Delete(Records(ix), i)[j]
      {
        if j < i {
          assert Delete(Records(ix), i)[j] == Records(ix)[j];
        } else {
          assert Delete(Records(ix), i)[j] == Records(ix)[j + 1];
        }
      }
    }
    r
  }

  /** Remove(HVDBDocument): drops the first record whose document is `doc`. */
  function RemoveDocument<D(==)>(ix: Index<D>, doc: D): (r: Result<Index<D>>)
    requires Valid(ix)
    ensures r.Err? <==> doc !in ix.documents
    ensures r.Err? ==> r.error == DocumentNotFound
    ensures r.Ok? ==> Valid(r.value) && Count(r.value) == Count(ix) - 1 && Invalidated(ix, r.value)
    ensures r.Ok? ==> forall i :: FirstAt(ix.documents, doc, i) ==> Records(r.value) == Delete(Records(ix), i)
  {
    var i := IndexOf(ix.documents, doc);
    if i == -1 then Err(DocumentNotFound)
    else
      assert forall j :: FirstAt(ix.documents, doc, j) ==> j == i by {
        forall j | FirstAt(ix.documents, doc, j) ensures j == i {
          FirstAtUnique(ix.documents, doc, i, j);
        }
      }
      Ok(Excise(ix, i))
  }

  /** Remove(double[]): drops the first record whose vector is `vector`. */
  function RemoveVector<D>(ix: Index<D>, vector: Vector): (r: Result<Index<D>>)
    requires Valid(ix)
    ensures r.Err? <==> vector !in ix.vectors
    ensures r.Err? ==> r.error == VectorNotFound
    ensures r.Ok? ==> Valid(r.value) && Count(r.value) == Count(ix) - 1 && Invalidated(ix, r.value)
    ensures r.Ok? ==> forall i :: FirstAt(ix.vectors, vector, i) ==> Records(r.value) == Delete(Records(ix), i)
  {
    var i := IndexOf(ix.vectors, vector);
    if i == -1 then Err(VectorNotFound)
    else
      assert forall j :: FirstAt(ix.vectors, vector, j) ==> j == i by {
        forall j | FirstAt(ix.vectors, vector, j) ensures j == i {
          FirstAtUnique(ix.vectors, vector, i, j);
        }
      }
      Ok(Excise(ix, i))
  }

  /** RemoveAt(int): drops the record at a position, which must exist. */
  function RemoveAt<D>(ix: Index<D>, index: int): (r: Result<Index<D>>)
    requires Valid(ix)
    ensures r.Err? <==> index < 0 || index >= Count(ix)
    ensures r.Err? ==> r.error == PositionOutOfRange
    ensures r.Ok? ==> Valid(r.value) && Count(r.value) == Count(ix) - 1 && Invalidated(ix, r.value)
    ensures r.Ok? ==> Records(r.value) == Delete(Records(ix), index)
  {
    if index < 0 || index >= Count(ix) then Err(PositionOutOfRange)
    else Ok(Excise(ix, index))
  }

  /** Empties both lists. */
  function Clear<D>(ix: Index<D>): (r: Index<D>)
    ensures Valid(r) && Count(r) == 0 && Invalidated(ix, r)
  {
    ResetCaches(ix.(vectors := [], documents := []))
  }

  // ---------------------------------------------------------------------
  // Cosine query cache
  // ---------------------------------------------------------------------

  /** Enumerable.Take: the first k elements, or all of them when there are
      fewer, or none when k is not positive. */
  function Take<T>(s: seq<T>, k: int): (t: seq<T>)
    ensures |t| == Min(|s|, if k < 0 then 0 else k)
    ensures t == s[..|t|]
  {
    if k <= 0 then [] else if |s| <= k then s else s[..k]
  }

  /** The outcome of a cache lookup: the entry served, if any, and the cache
      afterwards (a hit truncates the stored entry in place). */
  datatype Lookup<D> = Lookup(hit: Option<QueryResult<D>>, cache: Cache<D>)

  /** TryHitCacheCosineSimilarity. */
  function TryHitCache<D>(cache: Cache<D>, q: Vector, k: int): (l: Lookup<D>)
    ensures l.hit.Some? <==> q in cache && |cache[q].documents| >= k
    ensures l.hit.Some? && 0 <= k ==> |l.hit.value.documents| == k
    ensures l.hit.Some? ==>
      && |l.hit.value.documents| <= |cache[q].documents|
      && l.hit.value.documents == cache[q].documents[..|l.hit.value.documents|]
      && |l.hit.value.distances| <= |cache[q].distances|
      && l.hit.value.distances == cache[q].distances[..|l.hit.value.distances|]
    ensures l.hit.Some? && |cache[q].documents| > k ==>
      l.hit.value == QueryResult(Take(cache[q].documents, k), Take(cache[q].distances, k))
    ensures l.hit.Some? && |cache[q].documents| == k ==> l.hit.value == cache[q]
    ensures l.hit.Some? ==> l.cache == cache[q := l.hit.value]
    ensures l.hit.None? ==> l.cache == cache
  {
    if q in cache && |cache[q].documents| >= k then
      var entry := cache[q];
      var served :=
        if |entry.documents| > k then QueryResult(Take(entry.documents, k), Take(entry.distances, k))
        else entry;
      Lookup(Some(served), cache[q := served])
    else
      Lookup(None, cache)
  }

  // ---------------------------------------------------------------------
  // Top-K queries
  // ---------------------------------------------------------------------

  /** The score of every stored vector, 1 - kernel(q, v), in position order. */
  function Scores(vectors: seq<Vector>, kernel: (Vector, Vector) --> real, q: Vector): (s: seq<real>)
    requires forall i :: 0 <= i < |vectors| ==> kernel.requires(q, vectors[i])
    ensures |s| == |vectors|
    ensures forall i :: 0 <= i < |s| ==> s[i] == 1.0 - kernel(q, vectors[i])
  {
    seq(|vectors|, i requires 0 <= i < |vectors| => 1.0 - kernel(q, vectors[i]))
  }

  /** The (document, score) pairs at the picked positions, as two lists. */
  function Gather<D>(documents: seq<D>, scores: seq<real>, picked: seq<nat>): (r: QueryResult<D>)
    requires forall a :: 0 <= a < |picked| ==> picked[a] < |documents| && picked[a] < |scores|
    ensures |r.documents| == |picked| && |r.distances| == |picked|
    ensures forall a :: 0 <= a < |picked| ==> r.documents[a] == documents[picked[a]]
    ensures forall a :: 0 <= a < |picked| ==> r.distances[a] == scores[picked[a]]
  {
    QueryResult(seq(|picked|, a requires 0 <= a < |picked| => documents[picked[a]]),
                seq(|picked|, a requires 0 <= a < |picked| => scores[picked[a]]))
  }

  /** `res` pairs each of some top-k selection of positions with its
      document and score. */
  ghost predicate IsAnswer<D>(documents: seq<D>, scores: seq<real>, k: int, res: QueryResult<D>) {
    && |documents| == |scores|
    && exists picked :: IsTopK(scores, k, picked) && res == Gather(documents, scores, picked)
  }

  /** The body shared by the six Query* methods, for any kernel: refuse a
      non-positive topK, score every record, keep the best topK. */
  function Query<D>(ix: Index<D>, kernel: (Vector, Vector) --> real, q: Vector, k: int): (r: Result<QueryResult<D>>)
    requires Valid(ix)
    requires forall i :: 0 <= i < |ix.vectors| ==> kernel.requires(q, ix.vectors[i])
    ensures r.Err? <==> k <= 0
    ensures r.Err? ==> r.error == NonPositiveTopK
    ensures r.Ok? ==> |r.value.documents| == |r.value.distances| == Min(k, Count(ix))
    ensures r.Ok? ==> forall a, b :: 0 <= a < b < |r.value.distances| ==> r.value.distances[a] >= r.value.distances[b]
    ensures r.Ok? ==> IsAnswer(ix.documents, Scores(ix.vectors, kernel, q), k, r.value)
  {
    if k <= 0 then Err(NonPositiveTopK)
    else
      var scores := Scores(ix.vectors, kernel, q);
      var picked := SelectTopK(scores, k);
      Ok(Gather(ix.documents, scores, picked))
  }

  /** The six kernels the queries are written against. */
  datatype Metric = Cosine | Jaccard | Euclidean | Manhattan | Chebyshev | Canberra

  /** The kernel reads no coordinate past the end of either vector: v is at
      least as long as q, and Chebyshev has a q[0] to read. */
  predicate Readable(metric: Metric, q: Vector, v: Vector) {
    |q| <= |v| && (metric.Chebyshev? ==> 1 <= |q|)
  }

  /** The kernel has a real value on (q, v): it is readable, and no
      Canberra term divides 0 by 0. */
  ghost predicate Defined(metric: Metric, sqrt: real -> real, q: Vector, v: Vector) {
    && Readable(metric, q, v)
    && IsSqrt(sqrt)
    && (metric.Canberra? ==> NoDoubleZero(q, v, |q|))
  }

  /** The Math.cs kernel each query calls. */
  function Kernel(metric: Metric, sqrt: real -> real): (Vector, Vector) --> real {
    (q: Vector, v: Vector) requires Defined(metric, sqrt, q, v) =>
      match metric
      case Cosine => CosineSimilarity(q, v, sqrt)
      case Jaccard => JaccardDissimilarity(q, v)
      case Euclidean => EuclideanDistance(q, v, sqrt)
      case Manhattan => ManhattanDistance(q, v)
      case Chebyshev => ChebyshevDistance(q, v)
      case Canberra => CanberraDistance(q, v)
  }

  /** QueryJaccardDissimilarity, QueryEuclideanDistance,
      QueryManhattanDistance, QueryChebyshevDistance, QueryCanberraDistance,
      and QueryCosineSimilarity after a cache miss. A topK <= 0 is refused
      before any scoring; a kernel that would index past the end of a vector
      raises an index error while scoring, which an empty index never does. */
  function QueryMetric<D>(ix: Index<D>, metric: Metric, sqrt: real -> real, q: Vector, k: int): (r: Result<QueryResult<D>>)
    requires Valid(ix) && IsSqrt(sqrt)
    requires metric.Canberra? ==>
      forall i :: 0 <= i < |ix.vectors| && |q| <= |ix.vectors[i]| ==> NoDoubleZero(q, ix.vectors[i], |q|)
    ensures k <= 0 ==> r == Err(NonPositiveTopK)
    ensures 0 < k ==> (r.Err? <==> exists i :: 0 <= i < |ix.vectors| && !Readable(metric, q, ix.vectors[i]))
    ensures r.Err? && 0 < k ==> r.error == IndexOutOfRange
    ensures r.Ok? ==> |r.value.documents| == |r.value.distances| == Min(k, Count(ix))
    ensures r.Ok? ==> forall a, b :: 0 <= a < b < |r.value.distances| ==> r.value.distances[a] >= r.value.distances[b]
    ensures r.Ok? ==> IsAnswer(ix.documents, Scores(ix.vectors, Kernel(metric, sqrt), q), k, r.value)
  {
    if k <= 0 then Err(NonPositiveTopK)
    else if exists i :: 0 <= i < |ix.vectors| && !Readable(metric, q, ix.vectors[i]) then Err(IndexOutOfRange)
    else Query(ix, Kernel(metric, sqrt), q, k)
  }

  /** An index together with the result of a query on it. */
  datatype Answer<D> = Answer(index: Index<D>, result: Result<QueryResult<D>>)

  /** QueryCosineSimilarity: after the topK check, a cached entry with at
      least topK documents is served truncated to topK; otherwise every
      record is scored. Nothing is ever added to the cache, and only a hit
      changes it (by shortening the entry it served). */
  function QueryCosineSimilarity<D>(ix: Index<D>, sqrt: real -> real, q: Vector, k: int): (a: Answer<D>)
    requires Valid(ix) && IsSqrt(sqrt)
    ensures k <= 0 ==> a == Answer(ix, Err(NonPositiveTopK))
    ensures a.index == ix.(cache := a.index.cache)
    ensures a.index.cache.Keys == ix.cache.Keys
    ensures 0 < k && q in ix.cache && |ix.cache[q].documents| >= k ==>
      && a.result.Ok?
      && a.result.value.documents == ix.cache[q].documents[..k]
      && a.index.cache == ix.cache[q := a.result.value]
      && a.result.value.distances ==
           (if |ix.cache[q].documents| > k then Take(ix.cache[q].distances, k) else ix.cache[q].distances)
    ensures 0 < k && (q !in ix.cache || |ix.cache[q].documents| < k) ==>
      a.index == ix && a.result == QueryMetric(ix, Cosine, sqrt, q, k)
  {
    if k <= 0 then Answer(ix, Err(NonPositiveTopK))
    else
      var lookup := TryHitCache(ix.cache, q, k);
      if lookup.hit.Some? then Answer(ix.(cache := lookup.cache), Ok(lookup.hit.value))
      else Answer(ix, QueryMetric(ix, Cosine, sqrt, q, k))
  }

  // ---------------------------------------------------------------------
  // Persistence: the clean/dirty flag over an abstract disk
  // ---------------------------------------------------------------------

  /** What Save writes for one index: its two lists. */
  datatype Snapshot<D> = Snapshot(vectors: seq<Vector>, documents: seq<D>)

  /** The directory Path.Combine(root, name) that holds an index's files. */
  datatype Location = Location(root: string, name: string)

  type Disk<D> = map<Location, Snapshot<D>>

  datatype Saved<D> = Saved(index: Index<D>, disk: Disk<D>)

  /** Save(root): nothing at all while clean; otherwise write both lists
      under the index's directory and mark the index clean. */
  function Save<D>(ix: Index<D>, disk: Disk<D>, root: string): (s: Saved<D>)
    ensures ix.fileValid ==> s == Saved(ix, disk)
    ensures s.index == ix.(fileValid := true)
    ensures !ix.fileValid ==> s.disk == disk[Location(root, ix.name) := Snapshot(ix.vectors, ix.documents)]
  {
    if ix.fileValid then Saved(ix, disk)
    else Saved(ix.(fileValid := true), disk[Location(root, ix.name) := Snapshot(ix.vectors, ix.documents)])
  }

  /** Load(root): fails when the index's directory does not exist; otherwise
      replaces both lists wholesale and marks the index clean. The cache is
      left as it was and the two lists are not checked against each other. */
  function Load<D>(ix: Index<D>, disk: Disk<D>, root: string): (r: Result<Index<D>>)
    ensures r.Err? <==> Location(root, ix.name) !in disk
    ensures r.Err? ==> r.error == DirectoryNotFound
    ensures r.Ok? ==> r.value.fileValid && r.value.name == ix.name && r.value.cache == ix.cache
    ensures r.Ok? ==> Snapshot(r.value.vectors, r.value.documents) == disk[Location(root, ix.name)]
  {
    var loc := Location(root, ix.name);
    if loc !in disk then Err(DirectoryNotFound)
    else Ok(ix.(vectors := disk[loc].vectors, documents := disk[loc].documents, fileValid := true))
  }

  /** Saving a dirty index and loading it back from the same root restores
      every record, in order. */
  lemma SaveLoadRoundTrip<D>(ix: Index<D>, disk: Disk<D>, root: string)
    requires !ix.fileValid
    ensures var s := Save(ix, disk, root);
            && Load(s.index, s.disk, root).Ok?
            && Load(s.index, s.disk, root).value == ix.(fileValid := true)
  {
  }
}
