# HyperVectorDB index core in Dafny

A model of one HyperVectorDB index and what is proved about it:

- the record store: two position-aligned lists of vectors and documents, the `Count` property, the clean/dirty flag `fileValid`, the cosine query cache, and the mutations `Add`, `Remove(document)`, `Remove(vector)`, `RemoveAt` and `Clear`, each of which calls `ResetCaches`;
- the six top-K queries (`QueryCosineSimilarity`, `QueryJaccardDissimilarity`, `QueryEuclideanDistance`, `QueryManhattanDistance`, `QueryChebyshevDistance`, `QueryCanberraDistance`). They are one generic query over a kernel: refuse `topK <= 0`, score every record as `1 - kernel(q, v)`, sort descending, keep `topK`;
- the cache lookup `TryHitCacheCosineSimilarity`;
- the flag behaviour of `Save` and `Load` over an abstract disk;
- the six distance kernels of `Math`, over exact reals.

Modules:

| file | module | contents |
|---|---|---|
| `results.dfy` | `Results` | the error kinds (one per exception thrown) and the `Result`/`Option` wrappers |
| `kernels.dfy` | `Kernels` | the six kernels as prefix sums over `seq<real>`, with bounds, zero cases and Cauchy–Schwarz |
| `ranking.dfy` | `Ranking` | the descending sort as a stable insertion sort on positions, and the top-K specification `IsTopK` |
| `index.dfy` | `VectorIndex` | the index value, its mutations, the cache lookup, the generic and per-metric queries, Save and Load |
| `lifecycle.dfy` | `Lifecycle` | the index as a state machine over (index, disk), the invariant every call keeps, and inverse pairs |
| `scenarios.dfy` | `Scenarios` | the basic usage test's flow and a worked three-record cosine query |

Each operation is a pure function on an immutable index value. An operation that throws in C# returns `Err(...)`, and the caller keeps the index it had. `System.Math.Sqrt` is a parameter `sqrt: real -> real`. The model assumes only `IsSqrt`: on non-negative reals it returns a non-negative root that squares back.

## Model

| member | source | states |
|---|---|---|
| VectorIndex.New | HyperVectorDB/HyperVectorDBIndex.cs:43-49 | a new index has no records, aligned lists, an empty cache, the given name and a dirty flag |
| VectorIndex.Records | HyperVectorDB/HyperVectorDBIndex.cs:25-30 | a valid index has exactly `Count` records |
| VectorIndex.ResetCaches | HyperVectorDB/HyperVectorDBIndex.cs:150-154 | empties the cache and marks the index dirty, leaving both lists as they were |
| VectorIndex.Add | HyperVectorDB/HyperVectorDBIndex.cs:86-103 | fails with ZeroLengthVector exactly when the vector is empty; otherwise `Count` grows by one, the pair is appended after all earlier records, and the cache is cleared and the flag made dirty |
| VectorIndex.IndexOf | HyperVectorDB/HyperVectorDBIndex.cs:110-114 | -1 exactly when the element is absent; otherwise the first position that holds it |
| VectorIndex.FirstAtUnique | HyperVectorDB/HyperVectorDBIndex.cs:110 | the first position holding an element is unique |
| VectorIndex.Delete | HyperVectorDB/HyperVectorDBIndex.cs:115-116 | removing position i shortens a list by one, keeps every element before i in place, and moves every element after i down by one |
| VectorIndex.Excise | HyperVectorDB/HyperVectorDBIndex.cs:115-117 | removing position i from both lists leaves them aligned, deletes exactly record i, keeps the others in order, and invalidates |
| VectorIndex.RemoveDocument | HyperVectorDB/HyperVectorDBIndex.cs:104-118 | fails with DocumentNotFound exactly when the document is absent; otherwise removes the record at the document's first position and nothing else |
| VectorIndex.RemoveVector | HyperVectorDB/HyperVectorDBIndex.cs:119-133 | fails with VectorNotFound exactly when the vector is absent; otherwise removes the record at the vector's first position and nothing else |
| VectorIndex.RemoveAt | HyperVectorDB/HyperVectorDBIndex.cs:134-143 | fails with PositionOutOfRange exactly when the position is negative or at least `Count`; otherwise removes exactly that record |
| VectorIndex.Clear | HyperVectorDB/HyperVectorDBIndex.cs:144-149 | leaves no records, aligned lists, an empty cache and a dirty flag |
| VectorIndex.Take | HyperVectorDB/HyperVectorDBIndex.cs:162-163 | the result is the prefix of length min(length, topK) |
| VectorIndex.TryHitCache | HyperVectorDB/HyperVectorDBIndex.cs:155-168 | a hit happens exactly when the query is cached with at least topK documents; a hit serves exactly topK documents; when the entry holds more than topK documents it serves the first topK documents and the first topK distances, and when it holds exactly topK it serves the entry unchanged; a hit stores what it served in place of the entry; a miss changes nothing |
| VectorIndex.Scores | HyperVectorDB/HyperVectorDBIndex.cs:179-186 | one score per stored vector, in position order, each `1 - kernel(q, v)` |
| VectorIndex.Gather | HyperVectorDB/HyperVectorDBIndex.cs:192-195 | the returned documents and scores are those at the picked positions, in the picked order |
| VectorIndex.Query | HyperVectorDB/HyperVectorDBIndex.cs:169-196 | fails with NonPositiveTopK exactly when topK <= 0; otherwise returns min(topK, Count) documents and scores, scores non-increasing, paired from a top-K selection of distinct positions in which no omitted record outscores the last one kept |
| VectorIndex.QueryMetric | HyperVectorDB/HyperVectorDBIndex.cs:198-308 | topK <= 0 fails before any scoring; otherwise the query fails with an index error exactly when the kernel cannot read some stored vector: it is shorter than the query, or, for Chebyshev, the query is empty; on success it returns the top-K answer for that metric's kernel |
| VectorIndex.QueryCosineSimilarity | HyperVectorDB/HyperVectorDBIndex.cs:169-196 | topK <= 0 fails with the index unchanged; a cache hit succeeds and returns exactly the entry now stored for the query: the first topK cached documents, with the first topK cached distances when the entry held more than topK and the entry's own distances when it held exactly topK; the hit replaces entry q by what it served and keeps every other entry; a miss scores every record and leaves the index unchanged; only the cache can change, and it never gains a key |
| VectorIndex.Save | HyperVectorDB/HyperVectorDBIndex.cs:51-67 | a clean index writes nothing and stays the same; a dirty one writes its two lists under (root, name); either way the flag ends clean and nothing else in the index changes |
| VectorIndex.Load | HyperVectorDB/HyperVectorDBIndex.cs:69-84 | fails with DirectoryNotFound exactly when (root, name) holds no snapshot; otherwise both lists are replaced by the snapshot, the flag is clean, and the name and cache are kept |
| VectorIndex.SaveLoadRoundTrip | HyperVectorDB/HyperVectorDBIndex.cs:51-84 | saving a dirty index and loading it back from the same root gives the same index, now clean |
| Ranking.Insert | HyperVectorDB/HyperVectorDBIndex.cs:187-188 | inserting one position into a ranked list keeps it ranked, grows it by one, and adds only that position |
| Ranking.Rank | HyperVectorDB/HyperVectorDBIndex.cs:187-188 | ranks the positions 0..n-1, each exactly once, best score first, ties by position |
| Ranking.PrefixRanksAhead | HyperVectorDB/HyperVectorDBIndex.cs:187-189 | in a ranked list, each entry of a prefix ranks ahead of each entry after it |
| Ranking.SelectTopK | HyperVectorDB/HyperVectorDBIndex.cs:187-190 | the first min(topK, n) ranked positions form a top-K selection, and each one kept ranks ahead of each one omitted |
| Kernels.CosineNormBound | HyperVectorDB/Math.cs:32-40 | the product of the two norms bounds the dot product in absolute value, and is positive whenever the dot product is not zero, so the division never divides by zero |
| Kernels.CauchySchwarz | HyperVectorDB/Math.cs:32-36 | the square of the accumulated dot product is at most the product of the accumulated squared norms |
| Kernels.CosineSimilarity | HyperVectorDB/Math.cs:28-42 | exactly 1 when the dot product is 0; otherwise in [0, 2] |
| Kernels.CosineOfSelf | HyperVectorDB/Math.cs:28-42 | a vector that is not all zero is at cosine distance 0 from itself |
| Kernels.CosineOfZero | HyperVectorDB/Math.cs:38-41 | when either vector is zero on the coordinates read, the result is 1 |
| Kernels.JaccardTally | HyperVectorDB/Math.cs:44-53 | matches <= considered <= n, and matches == considered exactly when the first n coordinates agree |
| Kernels.JaccardDissimilarity | HyperVectorDB/Math.cs:43-58 | in [0, 1], and 0 exactly when x equals the prefix of y it reads |
| Kernels.JaccardOfZeros | HyperVectorDB/Math.cs:54-57 | two vectors that are all zero where read have dissimilarity 0 |
| Kernels.SquaredDistanceBounds | HyperVectorDB/Math.cs:60-64 | the sum of squared differences is non-negative, and 0 exactly when the prefixes agree |
| Kernels.EuclideanDistance | HyperVectorDB/Math.cs:59-66 | a non-negative value whose square is the sum of squared differences |
| Kernels.EuclideanZeroIff | HyperVectorDB/Math.cs:59-66 | the distance is 0 exactly when x equals the prefix of y it reads |
| Kernels.AbsDistanceBounds | HyperVectorDB/Math.cs:68-71 | the running sum of absolute differences is non-negative, at least each of its terms, and 0 exactly when the prefixes agree |
| Kernels.ManhattanDistance | HyperVectorDB/Math.cs:67-73 | non-negative, at least every coordinate difference, and 0 exactly when x equals the prefix of y it reads |
| Kernels.RunningMax | HyperVectorDB/Math.cs:75-81 | the running maximum is at least every difference seen and equal to one of them |
| Kernels.ChebyshevDistance | HyperVectorDB/Math.cs:74-83 | at least every coordinate difference and equal to one of them, so it is their maximum |
| Kernels.ChebyshevAtMostManhattan | HyperVectorDB/Math.cs:67-83 | the Chebyshev distance never exceeds the Manhattan distance |
| Kernels.ChebyshevZeroIff | HyperVectorDB/Math.cs:74-83 | the distance is 0 exactly when x equals the prefix of y it reads |
| Kernels.CanberraSum | HyperVectorDB/Math.cs:85-88 | each term is in [0, 1], so the sum over n terms is in [0, n], and it is 0 exactly when the prefixes agree |
| Kernels.CanberraDistance | HyperVectorDB/Math.cs:84-90 | in [0, \|x\|], and 0 exactly when x equals the prefix of y it reads |
| Lifecycle.Init | HyperVectorDB/HyperVectorDBIndex.cs:43-49 | a new index beside an aligned disk satisfies the invariant |
| Lifecycle.Step | HyperVectorDB/HyperVectorDBIndex.cs:51-196 | every state-changing call (Add, the three removes, Clear, ResetCaches, Save, Load, and the cosine query with its cache) keeps aligned lists, an empty cache, aligned snapshots on disk, and the index name |
| Lifecycle.Run | HyperVectorDB/HyperVectorDBIndex.cs:51-196 | any sequence of calls keeps the invariant |
| Lifecycle.CacheAlwaysMisses | HyperVectorDB/HyperVectorDBIndex.cs:155-196 | for an index created beside a disk whose snapshots each have as many vectors as documents, after any sequence of calls the lists are aligned and every cache lookup misses |
| Lifecycle.CosineQueryAlwaysScores | HyperVectorDB/HyperVectorDBIndex.cs:169-196 | under the invariant, a cosine query is the full scan and leaves the index unchanged |
| Lifecycle.DeleteLast | HyperVectorDB/HyperVectorDBIndex.cs:140-141 | removing the last position of a list with one element appended gives back the list |
| Lifecycle.AddThenRemoveAtRestores | HyperVectorDB/HyperVectorDBIndex.cs:86-143 | `RemoveAt(Count)` after `Add` succeeds and restores the records |
| Lifecycle.AddThenRemoveDocumentRestores | HyperVectorDB/HyperVectorDBIndex.cs:86-118 | removing a newly added document that was not stored before succeeds and restores the records |
| Lifecycle.AddThenRemoveVectorRestores | HyperVectorDB/HyperVectorDBIndex.cs:86-133 | removing a newly added vector that was not stored before succeeds and restores the records |
| Lifecycle.LoadDoesNotCheckAlignment | HyperVectorDB/HyperVectorDBIndex.cs:69-84 | a snapshot with one vector and no documents loads successfully and leaves the lists misaligned |
| Lifecycle.CleanSaveElsewhereIsLost | HyperVectorDB/HyperVectorDBIndex.cs:51-53 | a clean index saved to a root it was never written to writes nothing there, so loading from that root fails |
| Scenarios.SaveThenLoadIntoNewIndex | HyperVectorDB.Tests/BasicUsageTests.cs:57-59 | saving a dirty index and loading it into a new index of the same name restores the records, with an empty cache and a clean flag |
| Scenarios.BasicUsageResultSizes | HyperVectorDB.Tests/BasicUsageTests.cs:61-68 | on a valid index of 16 records, cosine queries for 5 (the default), 10, 3 and 1 return that many documents |
| Scenarios.SqrtOfOne | HyperVectorDB/Math.cs:37 | the square root of 1 is 1 |
| Scenarios.SqrtAboveOne | HyperVectorDB/Math.cs:37 | the square root of a real above 1 is above 1 |
| Scenarios.CompassScores | HyperVectorDB/Math.cs:28-42 | against (1, 0), the vectors (1, 0), (0, 1) and (1, 1) score 1, 0 and 1/sqrt(2) |
| Scenarios.TopThreeOfThree | HyperVectorDB/HyperVectorDBIndex.cs:187-190 | with three strictly ordered scores, the only top-3 selection lists them best first |
| Scenarios.GatherAll | HyperVectorDB/HyperVectorDBIndex.cs:192-195 | gathering positions 0, 2, 1 lists the documents and scores in that order |
| Scenarios.CompassRanking | HyperVectorDB/HyperVectorDBIndex.cs:169-196 | `QueryCosineSimilarity` of (1, 0) with topK 3, on an empty cache, over A=(1,0), B=(0,1), C=(1,1) returns A, C, B with scores 1, 1/sqrt(2), 0 |

## Left out

- Null checks on vectors, documents and query vectors: Dafny values are never null, so the `ArgumentNullException` paths do not exist in the model.
- File I/O, directory creation and MessagePack/LZ4 serialization in `Save` and `Load`: these are library calls. The disk is a map from (root, index name) to the two saved lists.
- `Parallel.For` and `ConcurrentBag`: scoring is a sequential scan. The source leaves the order of tied scores undefined. The model breaks ties by insertion position, which is one of the orders the source can produce.
- IEEE doubles: rounding, NaN, infinities and `System.Math.Sqrt` are not modelled. Scores are exact reals, and the square root is a parameter.
- `VectorIndex.QueryMetric`: for Canberra, its precondition excludes stored vectors that are zero at the same coordinate as the query. Such a coordinate makes a term 0/0 and the score NaN, which is outside the real-number model.
- Reference equality: C# compares `double[]` keys and documents by reference. The model compares vectors by value and documents with `==` on an opaque type. The same record inserted twice is therefore not distinguishable from two equal ones.
- Kernels: a vector longer than the query only has its first `|query|` coordinates read. The kernels require the stored vector to be at least as long as the query. The query reports `IndexOutOfRange` when it is not, instead of modelling the exception inside the kernel. `Parallel.For` wraps that exception in an `AggregateException`, and the model does not distinguish the wrapper.
- Kernels.CosineSimilarity: the contract states the zero-dot-product case and the range [0, 2]. It does not restate the value `1 - dot / (norm x * norm y)`, which is the function's definition; `Scenarios.CompassScores` evaluates it on concrete vectors.
- VectorIndex.RemoveDocument, VectorIndex.RemoveVector, VectorIndex.RemoveAt: their domain is an index whose two lists have equal length. Only a `Load` of inconsistent files produces another kind of index (`Lifecycle.LoadDoesNotCheckAlignment`). On such an index `RemoveAt` can throw from `vectors.RemoveAt`, and `Remove(vector)` can remove the vector and then throw from `documents.RemoveAt`, leaving a partial update without `ResetCaches` (HyperVectorDBIndex.cs:130-131, 140-141). The model does not describe those outcomes.
- VectorIndex.Query, VectorIndex.QueryMetric, VectorIndex.QueryCosineSimilarity: their domain is likewise an index with lists of equal length. On a misaligned index the source throws from `documents[i]` when there are more vectors than documents, and returns min(topK, |vectors|) results rather than min(topK, Count) when there are fewer (HyperVectorDBIndex.cs:180-185). The model does not describe those outcomes.
- VectorIndex.Add: the source stores the caller's `double[]` by reference (HyperVectorDBIndex.cs:100). A caller that later changes that array changes a stored record without clearing the cache or the flag. The model stores vectors as values and cannot express this aliasing.
- `HVDBQueryResult` is folded into `VectorIndex.QueryResult`.
- The embedder (`HyperVectorDB/Embedder/*`), the multi-index façade, the example program and the unit tests are not part of this model.
- Scenarios.BasicUsageResultSizes: the test's documents are embedded by a live model. The lemma states the result sizes for every index of 16 records whose vectors are no shorter than the query, rather than for particular embeddings.

## Behaviour of the code worth knowing

- No query method ever inserts into the cosine query cache, so the cache is never filled. `Lifecycle.CacheAlwaysMisses` proves that every lookup misses.
- Two vectors that are all zero where read have Jaccard dissimilarity 0, so they score 1 (`Kernels.JaccardOfZeros`).
- `Load` does not check that the two lists have the same length (`Lifecycle.LoadDoesNotCheckAlignment`), and it does not clear the cache.
- A cache hit truncates the stored entry in place, so a later lookup with a larger topK misses (`VectorIndex.TryHitCache`).
