/** The life of one index as a state machine over (index, disk): every call
    a client can make that changes state, the invariant all of them keep,
    and the properties that relate several calls.

    Only the cosine query appears among the steps, because it is the one
    query that consults (and could change) the cache; the other five are
    pure functions of the index. */
module Lifecycle {
  import opened Results
  import opened Kernels
  import opened Ranking
  import opened VectorIndex

  /** The state-changing calls on HyperVectorDBIndex. */
  datatype Op<D> =
    | AddRecord(vector: Vector, doc: D)
    | RemoveDoc(doc: D)
    | RemoveVec(vector: Vector)
    | RemovePosition(position: int)
    | ClearAll
    | Reset
    | SaveTo(root: string)
    | LoadFrom(root: string)
    | CosineQuery(query: Vector, topK: int)

  /** An index in memory and the directories on disk. */
  datatype System<D> = System(index: Index<D>, disk: Disk<D>)

  /** Every snapshot on disk has as many vectors as documents. */
  ghost predicate DiskAligned<D>(disk: Disk<D>) {
    forall loc :: loc in disk ==> |disk[loc].vectors| == |disk[loc].documents|
  }

  /** The lists are aligned, the cache is empty and so is every snapshot. */
  ghost predicate Inv<D>(sys: System<D>) {
    Valid(sys.index) && sys.index.cache == map[] && DiskAligned(sys.disk)
  }

  /** A new index named `name` beside whatever Save wrote earlier. */
  function Init<D>(name: string, disk: Disk<D>): (sys: System<D>)
    requires DiskAligned(disk)
    ensures Inv(sys) && Count(sys.index) == 0 && sys.index.name == name
  {
    System(New(name), disk)
  }

  /** The state after a call that either succeeds or throws. */
  function Commit<D>(sys: System<D>, r: Result<Index<D>>): System<D> {
    if r.Ok? then sys.(index := r.value) else sys
  }

  /** One call. Each keeps the invariant: mutations leave aligned lists and
      an empty cache, Save writes an aligned snapshot, Load reads one back
      into a cache that was already empty, and a cosine query on an empty
      cache changes nothing. */
  function Step<D(==)>(sys: System<D>, op: Op<D>, sqrt: real -> real): (next: System<D>)
    requires Inv(sys) && IsSqrt(sqrt)
    ensures Inv(next)
    ensures next.index.name == sys.index.name
  {
    match op
    case AddRecord(v, d) => Commit(sys, Add(sys.index, v, d))
    case RemoveDoc(d) => Commit(sys, RemoveDocument(sys.index, d))
    case RemoveVec(v) => Commit(sys, RemoveVector(sys.index, v))
    case RemovePosition(i) => Commit(sys, RemoveAt(sys.index, i))
    case ClearAll => sys.(index := Clear(sys.index))
    case Reset => sys.(index := ResetCaches(sys.index))
    case SaveTo(root) =>
      var s := Save(sys.index, sys.disk, root);
      System(s.index, s.disk)
    case LoadFrom(root) => Commit(sys, Load(sys.index, sys.disk, root))
    case CosineQuery(q, k) => sys.(index := QueryCosineSimilarity(sys.index, sqrt, q, k).index)
  }

  /** A sequence of calls, in order. */
  function Run<D(==)>(sys: System<D>, ops: seq<Op<D>>, sqrt: real -> real): (final: System<D>)
    requires Inv(sys) && IsSqrt(sqrt)
    ensures Inv(final)
    ensures final.index.name == sys.index.name
    decreases |ops|
  {
    if |ops| == 0 then sys else Run(Step(sys, ops[0], sqrt), ops[1..], sqrt)
  }

  /** For an index created beside a disk whose snapshots each have as many
      vectors as documents: whatever calls were made since, its two lists
      have equal length and the cosine cache lookup misses. */
  lemma CacheAlwaysMisses<D>(name: string, disk: Disk<D>, ops: seq<Op<D>>, sqrt: real -> real, q: Vector, k: int)
    requires DiskAligned(disk) && IsSqrt(sqrt)
    ensures var sys := Run(Init(name, disk), ops, sqrt);
            && Valid(sys.index)
            && TryHitCache(sys.index.cache, q, k).hit.None?
  {
  }

  /** Consequently every cosine query scores the whole index and leaves the
      index as it was. */
  lemma CosineQueryAlwaysScores<D>(sys: System<D>, sqrt: real -> real, q: Vector, k: int)
    requires Inv(sys) && IsSqrt(sqrt)
    ensures QueryCosineSimilarity(sys.index, sqrt, q, k) == Answer(sys.index, QueryMetric(sys.index, Cosine, sqrt, q, k))
  {
  }

  // ---------------------------------------------------------------------
  // Mutations and their inverses
  // ---------------------------------------------------------------------

  lemma DeleteLast<T>(s: seq<T>, x: T)
    ensures Delete(s + [x], |s|) == s
  {
    assert (s + [x])[..|s|] == s;
  }

  /** Removing the last position undoes Add. */
  lemma {:induction false} AddThenRemoveAtRestores<D>(ix: Index<D>, vector: Vector, doc: D)
    requires Valid(ix) && |vector| > 0
    ensures var added := Add(ix, vector, doc).value;
            && RemoveAt(added, Count(ix)).Ok?
            && Records(RemoveAt(added, Count(ix)).value) == Records(ix)
  {
    var added := Add(ix, vector, doc).value;
    DeleteLast(Records(ix), (vector, doc));
  }

  /** Removing a document that was not yet stored, right after adding it,
      undoes Add. */
  lemma {:induction false} AddThenRemoveDocumentRestores<D>(ix: Index<D>, vector: Vector, doc: D)
    requires Valid(ix) && |vector| > 0 && doc !in ix.documents
    ensures var added := Add(ix, vector, doc).value;
            && RemoveDocument(added, doc).Ok?
            && Records(RemoveDocument(added, doc).value) == Records(ix)
  {
    var added := Add(ix, vector, doc).value;
    assert added.documents[..Count(ix)] == ix.documents;
    assert FirstAt(added.documents, doc, Count(ix));
    DeleteLast(Records(ix), (vector, doc));
  }

  /** Removing a vector that was not yet stored, right after adding it,
      undoes Add. */
  lemma {:induction false} AddThenRemoveVectorRestores<D>(ix: Index<D>, vector: Vector, doc: D)
    requires Valid(ix) && |vector| > 0 && vector !in ix.vectors
    ensures var added := Add(ix, vector, doc).value;
            && RemoveVector(added, vector).Ok?
            && Records(RemoveVector(added, vector).value) == Records(ix)
  {
    var added := Add(ix, vector, doc).value;
    assert added.vectors[..Count(ix)] == ix.vectors;
    assert FirstAt(added.vectors, vector, Count(ix));
    DeleteLast(Records(ix), (vector, doc));
  }

  // ---------------------------------------------------------------------
  // Persistence
  // ---------------------------------------------------------------------

  /** Load trusts the files: a snapshot whose lists differ in length loads
      without complaint and leaves the index misaligned. */
  lemma LoadDoesNotCheckAlignment()
    ensures var disk := map[Location("db", "idx") := Snapshot([[1.0]], [])];
            && Load(New<int>("idx"), disk, "db").Ok?
            && !Valid(Load(New<int>("idx"), disk, "db").value)
  {
  }

  /** The clean flag is not tied to a root: once clean, a Save to a new root
      writes nothing, and loading from that root fails. */
  lemma CleanSaveElsewhereIsLost<D>(ix: Index<D>, disk: Disk<D>, root: string)
    requires ix.fileValid && Location(root, ix.name) !in disk
    ensures var s := Save(ix, disk, root);
            Load(s.index, s.disk, root) == Err(DirectoryNotFound)
  {
  }
}
