/** The vector index service (backend/app/services/vector_store.py). The ChromaDB collection
    is an in-memory map from record id to record; the nearest-neighbour engine, the OpenAI
    embedding client and SHA-256 are supplied from outside. */
module VectorStore {
  import opened Common
  import Config

  /** A SHA-256 digest: 32 bytes. */
  type Digest = d: seq<Byte> | |d| == Config.DigestLength witness seq(32, _ => 0)

  /** An embedding. The mock's entries are kept as the hash bytes they are computed from
      (the affine map to [-1, 1] is floating point); provider vectors are opaque. */
  type Vector = seq<int>

  /** Record metadata as ChromaDB returns it. `add_documents` writes every key, but records
      found in the persisted collection need not carry them all. */
  datatype Metadata = Metadata(
    documentId: Option<int>,
    documentName: Option<string>,
    userId: Option<int>,
    chunkIndex: Option<int>)

  datatype VectorRecord = VectorRecord(text: string, embedding: Vector, metadata: Metadata)

  type Collection = map<string, VectorRecord>

  /** The OpenAI embedding client: `embed_documents` and `embed_query`, each of which may raise. */
  datatype EmbeddingProvider = EmbeddingProvider(
    embedDocuments: seq<string> -> Result<seq<Vector>, string>,
    embedQuery: string -> Result<Vector, string>)

  /** The nearest-neighbour engine: for a query vector and the stored records, candidate ids
      nearest first, each with its relevance (1 - cosine distance, rounded to four decimals,
      as an integer number of ten-thousandths). */
  type Ranking = (Vector, Collection) -> seq<(string, int)>

  /** One formatted search hit: `{"id", "content", "metadata", "relevance_score"}`. */
  datatype SearchResult = SearchResult(id: string, content: string, metadata: Metadata, relevanceScore: int)

  // ---------------------------------------------------------------------------
  // Record ids

  /** `f"doc_{document_id}_chunk_{i}"`. */
  function ChunkId(documentId: int, i: nat): string
  {
    "doc_" + IntToString(documentId) + "_chunk_" + NatToString(i)
  }

  function IndexOf(s: string, c: char): (i: int)
    ensures -1 <= i < |s|
    ensures i >= 0 ==> s[i] == c
    ensures forall k :: 0 <= k < |s| && (i < 0 || k < i) ==> s[k] != c
  {
    if |s| == 0 then -1
    else if s[0] == c then 0
    else var j := IndexOf(s[1..], c); if j < 0 then -1 else j + 1
  }

  predicate IsIntText(s: string)
  {
    |s| >= 1 && forall k :: 0 <= k < |s| ==> IsDigit(s[k]) || (k == 0 && s[k] == '-')
  }

  predicate IsNatText(s: string)
  {
    |s| >= 1 && forall k :: 0 <= k < |s| ==> IsDigit(s[k])
  }

  /** Reads a record id back into its document id and chunk index. */
  function ParseChunkId(s: string): Option<(int, nat)>
  {
    if |s| < 4 || s[..4] != "doc_" then None
    else
      var rest := s[4..];
      var k := IndexOf(rest, '_');
      if k < 0 then None
      else
        var d := rest[..k];
        var tail := rest[k..];
        if |tail| < 7 || tail[..7] != "_chunk_" then None
        else
          var n := tail[7..];
          if IsIntText(d) && IsNatText(n) then Some((ParseInt(d), ParseNat(n))) else None
  }

  /** Reading back an id assembled from a signed number and an unsigned one that contain
      no underscore. */
  lemma ParseChunkIdParts(d: string, n: string)
    requires IsIntText(d) && IsNatText(n)
    requires forall k :: 0 <= k < |d| ==> d[k] != '_'
    ensures ParseChunkId("doc_" + d + "_chunk_" + n) == Some((ParseInt(d), ParseNat(n)))
  {
    var s := "doc_" + d + "_chunk_" + n;
    assert s == "doc_" + (d + ("_chunk_" + n));
    assert s[..4] == "doc_";
    var rest := s[4..];
    assert rest == d + ("_chunk_" + n);
    assert forall k :: 0 <= k < |d| ==> rest[k] == d[k];
    assert rest[|d|] == '_';
    assert IndexOf(rest, '_') == |d|;
    assert rest[..|d|] == d;
    assert rest[|d|..] == "_chunk_" + n;
    assert (rest[|d|..])[7..] == n;
  }

  /** A record id names its document and chunk: reading it back gives both. */
  lemma ChunkIdRoundTrip(documentId: int, i: nat)
    ensures ParseChunkId(ChunkId(documentId, i)) == Some((documentId, i))
  {
    var d := IntToString(documentId);
    assert forall k :: 0 <= k < |d| ==> d[k] != '_';
    ParseChunkIdParts(d, NatToString(i));
    IntToStringRoundTrip(documentId);
    ParseNatToString(i);
  }

  /** Distinct (document, chunk) pairs never share a record id. */
  lemma ChunkIdInjective(d1: int, i1: nat, d2: int, i2: nat)
    requires ChunkId(d1, i1) == ChunkId(d2, i2)
    ensures d1 == d2 && i1 == i2
  {
    ChunkIdRoundTrip(d1, i1);
    ChunkIdRoundTrip(d2, i2);
  }

  lemma ChunkIdsDistinct(d: int)
    ensures forall i: nat, j: nat :: ChunkId(d, i) == ChunkId(d, j) ==> i == j
  {
    forall i: nat, j: nat | ChunkId(d, i) == ChunkId(d, j) ensures i == j {
      ChunkIdInjective(d, i, d, j);
    }
  }

  function ChunkIds(d: int, n: nat): set<string>
  {
    set i: nat | i < n :: ChunkId(d, i)
  }

  /** One chunk more adds its id, which is new. */
  lemma ChunkIdsStep(d: int, n: nat)
    ensures ChunkIds(d, n + 1) == ChunkIds(d, n) + {ChunkId(d, n)}
    ensures ChunkId(d, n) !in ChunkIds(d, n)
  {
    assert ChunkIds(d, n + 1) == ChunkIds(d, n) + {ChunkId(d, n)};
    if ChunkId(d, n) in ChunkIds(d, n) {
      var i: nat :| i < n && ChunkId(d, i) == ChunkId(d, n);
      ChunkIdInjective(d, i, d, n);
    }
  }

  /** The ids of one `add_documents` call are pairwise distinct: `n` chunks, `n` ids. */
  lemma {:induction false} ChunkIdsSize(d: int, n: nat)
    ensures |ChunkIds(d, n)| == n
  {
    if n > 0 {
      ChunkIdsSize(d, n - 1);
      ChunkIdsStep(d, n - 1);
    } else {
      NoChunkIds(d);
    }
  }

  lemma NoChunkIds(d: int)
    ensures ChunkIds(d, 0) == {}
  {
    assert forall x :: x !in ChunkIds(d, 0);
  }

  // ---------------------------------------------------------------------------
  // The mock embedding

  /** `_get_mock_embedding`: 1536 entries, entry `i` taken from digest byte `i mod 32`. */
  function MockVector(digest: Digest): Vector
  {
    seq(Config.EmbeddingDimension, i requires 0 <= i < Config.EmbeddingDimension => digest[i % Config.DigestLength] as int)
  }

  /** The mock has the OpenAI dimension, repeats with period 32, and determines its digest
      (its first 32 entries are the digest): equal vectors come from equal digests. */
  lemma MockVectorShape(d1: Digest, d2: Digest)
    ensures |MockVector(d1)| == Config.EmbeddingDimension
    ensures forall i :: 0 <= i < Config.EmbeddingDimension ==> MockVector(d1)[i] == d1[i % Config.DigestLength]
    ensures forall i :: 0 <= i < Config.EmbeddingDimension - Config.DigestLength ==>
              MockVector(d1)[i] == MockVector(d1)[i + Config.DigestLength]
    ensures forall i :: 0 <= i < Config.EmbeddingDimension ==> 0 <= MockVector(d1)[i] < 256
    ensures MockVector(d1) == MockVector(d2) <==> d1 == d2
  {
    if MockVector(d1) == MockVector(d2) {
      forall k | 0 <= k < Config.DigestLength ensures d1[k] == d2[k] {
        assert MockVector(d1)[k] == MockVector(d2)[k];
      }
    }
  }

  // ---------------------------------------------------------------------------
  // The collection operations the service performs

  function ChunkRecord(chunks: seq<string>, vectors: seq<Vector>, documentId: int,
                       documentName: string, userId: int, i: nat): VectorRecord
    requires i < |chunks| == |vectors|
  {
    VectorRecord(chunks[i], vectors[i], Metadata(Some(documentId), Some(documentName), Some(userId), Some(i)))
  }

  /** The records `add_documents` prepares for the first `n` chunks and their vectors. */
  function NewRecords(chunks: seq<string>, vectors: seq<Vector>, documentId: int,
                      documentName: string, userId: int, n: nat): (m: Collection)
    requires n <= |chunks| == |vectors|
    ensures m.Keys == ChunkIds(documentId, n)
    ensures forall i :: 0 <= i < n ==>
              m[ChunkId(documentId, i)] == ChunkRecord(chunks, vectors, documentId, documentName, userId, i)
  {
    if n == 0 then
      assert ChunkIds(documentId, 0) == {};
      map[]
    else
      var m := NewRecords(chunks, vectors, documentId, documentName, userId, n - 1);
      assert ChunkIds(documentId, n) == ChunkIds(documentId, n - 1) + {ChunkId(documentId, n - 1)};
      ChunkIdsDistinct(documentId);
      m[ChunkId(documentId, n - 1) := ChunkRecord(chunks, vectors, documentId, documentName, userId, n - 1)]
  }

  /** `collection.add`: new ids are inserted; an id already present keeps its record (ChromaDB
      skips existing ids on `add`, unlike `upsert`). */
  function AddRecords(c: Collection, chunks: seq<string>, vectors: seq<Vector>, documentId: int,
                      documentName: string, userId: int): (r: Collection)
    requires |vectors| == |chunks|
    ensures r.Keys == c.Keys + ChunkIds(documentId, |chunks|)
    ensures forall k :: k in c ==> r[k] == c[k]
    ensures forall i :: 0 <= i < |chunks| && ChunkId(documentId, i) !in c ==>
              r[ChunkId(documentId, i)] == ChunkRecord(chunks, vectors, documentId, documentName, userId, i)
  {
    NewRecords(chunks, vectors, documentId, documentName, userId, |chunks|) + c
  }

  predicate OfDocument(r: VectorRecord, documentId: int)
  {
    r.metadata.documentId == Some(documentId)
  }

  predicate OfUser(r: VectorRecord, userId: int)
  {
    r.metadata.userId == Some(userId)
  }

  /** `get(where={"document_id": d})` followed by `delete(ids=...)`: exactly the records of
      document `d` go, every other record stays as it was. */
  function WithoutDocument(c: Collection, documentId: int): (r: Collection)
    ensures r.Keys == set k | k in c && !OfDocument(c[k], documentId)
    ensures forall k :: k in r ==> r[k] == c[k]
    ensures forall k :: k in r ==> !OfDocument(r[k], documentId)
  {
    map k | k in c && !OfDocument(c[k], documentId) :: c[k]
  }

  /** `get(where={"user_id": u})`'s ids: the records of user `u`. */
  function UserKeys(c: Collection, userId: int): set<string>
  {
    set k | k in c && OfUser(c[k], userId)
  }

  function UserCount(c: Collection, userId: int): (n: nat)
    ensures n <= |c|
  {
    assert UserKeys(c, userId) <= c.Keys;
    SubsetCard(UserKeys(c, userId), c.Keys);
    |UserKeys(c, userId)|
  }

  lemma SubsetCard<T>(a: set<T>, b: set<T>)
    requires a <= b
    ensures |a| <= |b|
  {
    assert b == a + (b - a);
  }

  lemma AddedUserKeys(c: Collection, chunks: seq<string>, vectors: seq<Vector>, documentId: int,
                      documentName: string, userId: int)
    requires |vectors| == |chunks|
    requires forall i: nat :: ChunkId(documentId, i) !in c
    ensures UserKeys(AddRecords(c, chunks, vectors, documentId, documentName, userId), userId)
              == UserKeys(c, userId) + ChunkIds(documentId, |chunks|)
  {
    var r := AddRecords(c, chunks, vectors, documentId, documentName, userId);
    forall k | k in ChunkIds(documentId, |chunks|) ensures k in UserKeys(r, userId) {
      var i: nat :| i < |chunks| && k == ChunkId(documentId, i);
      assert r[k] == ChunkRecord(chunks, vectors, documentId, documentName, userId, i);
    }
  }

  /** Adding the chunks of a document that has no record yet grows the collection, and its
      owner's count, by exactly the number `add_documents` returns. */
  lemma AddedCounts(c: Collection, chunks: seq<string>, vectors: seq<Vector>, documentId: int,
                    documentName: string, userId: int)
    requires |vectors| == |chunks|
    requires forall i: nat :: ChunkId(documentId, i) !in c
    ensures |AddRecords(c, chunks, vectors, documentId, documentName, userId)| == |c| + |chunks|
    ensures UserCount(AddRecords(c, chunks, vectors, documentId, documentName, userId), userId)
              == UserCount(c, userId) + |chunks|
  {
    var r := AddRecords(c, chunks, vectors, documentId, documentName, userId);
    var ids := ChunkIds(documentId, |chunks|);
    ChunkIdsSize(documentId, |chunks|);
    assert c.Keys !! ids;
    assert |r.Keys| == |c.Keys| + |ids|;
    AddedUserKeys(c, chunks, vectors, documentId, documentName, userId);
    assert UserKeys(c, userId) !! ids;
    assert |UserKeys(r, userId)| == |UserKeys(c, userId)| + |ids|;
  }

  /** Deleting a document right after adding it to a collection that held none of its
      records gives the collection back. */
  lemma DeleteAfterAdd(c: Collection, chunks: seq<string>, vectors: seq<Vector>, documentId: int,
                       documentName: string, userId: int)
    requires |vectors| == |chunks|
    requires forall i: nat :: ChunkId(documentId, i) !in c
    requires forall k :: k in c ==> !OfDocument(c[k], documentId)
    ensures WithoutDocument(AddRecords(c, chunks, vectors, documentId, documentName, userId), documentId) == c
  {
    var r := AddRecords(c, chunks, vectors, documentId, documentName, userId);
    var w := WithoutDocument(r, documentId);
    forall k | k in r && k !in c ensures OfDocument(r[k], documentId) {
      var i: nat :| i < |chunks| && k == ChunkId(documentId, i);
    }
    assert w.Keys == c.Keys;
  }

  /** `min(n_results, total_count) if total_count > 0 else 1`. */
  function RequestedCount(nResults: int, total: nat): (n: int)
    ensures total > 0 ==> n <= nResults && n <= total && (n == nResults || n == total)
    ensures total == 0 ==> n == 1
  {
    if total > 0 then (if nResults < total then nResults else total) else 1
  }

  /** The ranked candidates that exist in the collection and belong to `userId`
      (`where={"user_id": user_id}`), in rank order. */
  function OwnerHits(c: Collection, ranked: seq<(string, int)>, userId: int): (r: seq<(string, int)>)
    ensures |r| <= |ranked|
    ensures forall k :: 0 <= k < |r| ==> r[k].0 in c && OfUser(c[r[k].0], userId)
    ensures forall k :: 0 <= k < |r| ==> r[k] in ranked
  {
    if ranked == [] then []
    else
      var rest := OwnerHits(c, ranked[1..], userId);
      assert forall k :: 0 <= k < |rest| ==> rest[k] in ranked;
      if ranked[0].0 in c && OfUser(c[ranked[0].0], userId) then [ranked[0]] + rest else rest
  }

  /** `OwnerHits` is the filter that keeps the owner's stored candidates in rank order: one
      candidate is kept or dropped on its own, and the candidates of a concatenation are kept
      in order, the better-ranked part first. */
  lemma {:induction false} OwnerHitsFilter(c: Collection, a: seq<(string, int)>, b: seq<(string, int)>, userId: int)
    ensures OwnerHits(c, a + b, userId) == OwnerHits(c, a, userId) + OwnerHits(c, b, userId)
    ensures |a| == 1 ==>
              OwnerHits(c, a, userId) == if a[0].0 in c && OfUser(c[a[0].0], userId) then a else []
  {
    if |a| == 1 {
      assert a[1..] == [];
    }
    if a == [] {
      assert a + b == b;
    } else {
      OwnerHitsFilter(c, a[1..], b, userId);
      assert (a + b)[1..] == a[1..] + b;
      assert (a + b)[0] == a[0];
    }
  }

  /** `collection.query(..., n_results=n, where={"user_id": user_id})`: the first `n` of the
      owner's ranked records. */
  function QueryHits(c: Collection, ranked: seq<(string, int)>, userId: int, n: nat): (r: seq<(string, int)>)
    ensures |r| <= n
    ensures forall k :: 0 <= k < |r| ==> r[k].0 in c && OfUser(c[r[k].0], userId)
  {
    Take(OwnerHits(c, ranked, userId), n)
  }

  /** The formatting loop of `search`, over hits that are in the collection. */
  function FormatHits(c: Collection, hits: seq<(string, int)>): (r: seq<SearchResult>)
    requires forall k :: 0 <= k < |hits| ==> hits[k].0 in c
    ensures |r| == |hits|
  {
    seq(|hits|, k requires 0 <= k < |hits| =>
      SearchResult(hits[k].0, c[hits[k].0].text, c[hits[k].0].metadata, hits[k].1))
  }

  /** `search` after initialisation: the query vector is either the provider's or the mock
      of the query's digest; any error (the provider, ChromaDB, a non-positive `n_results`)
      yields no results. */
  function SearchOutcome(c: Collection, queryVector: Result<Vector, string>, ranking: Ranking,
                         userId: int, nResults: int, chromaFault: Option<string>): (r: seq<SearchResult>)
  {
    var n := RequestedCount(nResults, |c|);
    if queryVector.Failure? || chromaFault.Some? || n <= 0 then []
    else
      var hits := QueryHits(c, ranking(queryVector.value, c), userId, n);
      FormatHits(c, hits)
  }

  /** Owner isolation and the result bound: every result is a stored record of the caller,
      carrying that record's text and metadata, and there are at most `n_results` of them
      (and at most as many as the collection holds). A failed query embedding, a ChromaDB
      fault or a non-positive `n_results` give `[]`. */
  lemma SearchResultsAreOwnersRecords(c: Collection, queryVector: Result<Vector, string>, ranking: Ranking,
                                      userId: int, nResults: int, chromaFault: Option<string>)
    ensures var r := SearchOutcome(c, queryVector, ranking, userId, nResults, chromaFault);
            && (forall k :: 0 <= k < |r| ==>
                  r[k].id in c && OfUser(c[r[k].id], userId)
                  && r[k].content == c[r[k].id].text && r[k].metadata == c[r[k].id].metadata)
            && |r| <= (if nResults < 0 then 0 else nResults)
            && |r| <= |c|
            && (queryVector.Failure? || chromaFault.Some? || nResults <= 0 ==> r == [])
  {
    var n := RequestedCount(nResults, |c|);
    if !(queryVector.Failure? || chromaFault.Some? || n <= 0) {
      var hits := QueryHits(c, ranking(queryVector.value, c), userId, n);
      assert |c| == 0 ==> hits == [] by {
        if hits != [] { assert hits[0].0 in c; }
      }
    }
  }

  /** An abstract fault standing for ChromaDB's `add` refusing embeddings that do not line
      up with the ids. It is a label of this model, not a message of the library or of
      `add_documents`. */
  const LengthMismatch: string := "length mismatch"

  /** What `add_documents` returns and the collection it leaves, given the stored records `c`,
      the embedding outcome `embedded` for the chunks and an optional ChromaDB fault. */
  function AddOutcome(c: Collection, chunks: seq<string>, embedded: Result<seq<Vector>, string>,
                      documentId: int, documentName: string, userId: int,
                      chromaFault: Option<string>): (r: (Result<nat, string>, Collection))
    ensures chunks == [] ==> r == (Success(0), c)
    ensures r.0.Success? ==> r.0.value == |chunks|
    ensures r.0.Failure? ==> r.1 == c
    ensures chunks != [] && embedded.Failure? ==> r.0 == Failure(embedded.error)
    ensures r.0.Success? && chunks != [] ==>
              embedded.Success? && |embedded.value| == |chunks| && chromaFault.None?
              && r.1 == AddRecords(c, chunks, embedded.value, documentId, documentName, userId)
  {
    if chunks == [] then (Success(0), c)
    else match embedded
      case Failure(e) => (Failure(e), c)
      case Success(vectors) =>
        if |vectors| != |chunks| then (Failure(LengthMismatch), c)
        else if chromaFault.Some? then (Failure(chromaFault.value), c)
        else (Success(|chunks|), AddRecords(c, chunks, vectors, documentId, documentName, userId))
  }

  /** A successful `add_documents` for a document with no records yet stores one record per
      chunk, under `doc_{document_id}_chunk_{i}`, carrying chunk `i`, the document's id and
      name, the owner and `chunk_index = i`; nothing else changes, and the collection grows by
      the returned count. */
  lemma AddOutcomeStoresEveryChunk(c: Collection, chunks: seq<string>, embedded: Result<seq<Vector>, string>,
                                   documentId: int, documentName: string, userId: int,
                                   chromaFault: Option<string>)
    requires forall i: nat :: ChunkId(documentId, i) !in c
    requires AddOutcome(c, chunks, embedded, documentId, documentName, userId, chromaFault).0.Success?
    ensures var (r, c') := AddOutcome(c, chunks, embedded, documentId, documentName, userId, chromaFault);
            && (forall i :: 0 <= i < |chunks| ==>
                  ChunkId(documentId, i) in c'
                  && c'[ChunkId(documentId, i)].text == chunks[i]
                  && c'[ChunkId(documentId, i)].metadata ==
                       Metadata(Some(documentId), Some(documentName), Some(userId), Some(i)))
            && (forall k :: k in c ==> k in c' && c'[k] == c[k])
            && c'.Keys == c.Keys + ChunkIds(documentId, |chunks|)
            && |c'| == |c| + r.value
            && UserCount(c', userId) == UserCount(c, userId) + r.value
  {
    if chunks != [] {
      AddedCounts(c, chunks, embedded.value, documentId, documentName, userId);
    } else {
      NoChunkIds(documentId);
    }
  }

  /** `VectorStoreService`. Its constants stand for what initialisation finds in the
      environment: the persisted collection, the OpenAI key and client, SHA-256 and the
      nearest-neighbour engine. */
  class VectorStoreService {
    const persisted: Collection
    const openAiKey: string
    const provider: EmbeddingProvider
    const sha256: string -> Digest
    const ranking: Ranking

    /** `_initialized`, `_collection`, and whether `_embeddings` holds a client. */
    var initialized: bool
    var collection: Collection
    var useProvider: bool

    constructor (persisted: Collection, openAiKey: string, provider: EmbeddingProvider,
                 sha256: string -> Digest, ranking: Ranking)
      ensures this.persisted == persisted && this.openAiKey == openAiKey && this.provider == provider
      ensures this.sha256 == sha256 && this.ranking == ranking
      ensures !initialized && Valid() && Contents() == persisted
    {
      this.persisted := persisted;
      this.openAiKey := openAiKey;
      this.provider := provider;
      this.sha256 := sha256;
      this.ranking := ranking;
      initialized := false;
      collection := map[];
      useProvider := false;
    }

    /** The collection as every operation sees it: each one initialises first. */
    function Contents(): Collection
      reads this
    {
      if initialized then collection else persisted
    }

    predicate Valid()
      reads this
    {
      initialized ==> useProvider == (openAiKey != "")
    }

    /** `embed_documents(chunks)` with a key, the mock of each chunk's digest without one. */
    function EmbedAll(chunks: seq<string>): Result<seq<Vector>, string>
    {
      if openAiKey != "" then provider.embedDocuments(chunks)
      else Success(seq(|chunks|, k requires 0 <= k < |chunks| => MockVector(sha256(chunks[k]))))
    }

    /** `embed_query(query)` with a key, the mock of the query's digest without one. */
    function QueryVector(query: string): Result<Vector, string>
    {
      if openAiKey != "" then provider.embedQuery(query) else Success(MockVector(sha256(query)))
    }

    /** `_ensure_initialized`: the first call opens the collection and picks the embedding
        client; every later call changes nothing. */
    method EnsureInitialized()
      requires Valid()
      modifies this
      ensures Valid() && initialized
      ensures Contents() == old(Contents())
      ensures old(initialized) ==> unchanged(this)
    {
      if initialized {
        return;
      }
      collection := persisted;
      useProvider := openAiKey != "";
      initialized := true;
    }

    /** `_get_mock_embedding(text)`. */
    method GetMockEmbedding(text: string) returns (e: Vector)
      ensures e == MockVector(sha256(text))
    {
      var hash := sha256(text);
      e := [];
      for i := 0 to Config.EmbeddingDimension
        invariant |e| == i
        invariant forall k :: 0 <= k < i ==> e[k] == hash[k % Config.DigestLength] as int
      {
        var byteIdx := i % |hash|;
        e := e + [hash[byteIdx] as int];
      }
    }

    /** The embedding step of `add_documents`. */
    method EmbedChunks(chunks: seq<string>) returns (r: Result<seq<Vector>, string>)
      requires Valid() && initialized
      ensures r == EmbedAll(chunks)
    {
      if useProvider {
        return provider.embedDocuments(chunks);
      }
      var vectors: seq<Vector> := [];
      for i := 0 to |chunks|
        invariant |vectors| == i
        invariant forall k :: 0 <= k < i ==> vectors[k] == MockVector(sha256(chunks[k]))
      {
        var v := GetMockEmbedding(chunks[i]);
        vectors := vectors + [v];
      }
      assert vectors == seq(|chunks|, k requires 0 <= k < |chunks| => MockVector(sha256(chunks[k])));
      r := Success(vectors);
    }

    /** `add_documents(chunks, document_id, document_name, user_id)`. Exceptions propagate
        to the caller as `Failure`. */
    method AddDocuments(chunks: seq<string>, documentId: int, documentName: string, userId: int,
                        chromaFault: Option<string>) returns (r: Result<nat, string>)
      requires Valid()
      modifies this
      ensures Valid() && initialized
      ensures (r, collection) ==
                AddOutcome(old(Contents()), chunks, EmbedAll(chunks), documentId, documentName, userId, chromaFault)
    {
      EnsureInitialized();
      if chunks == [] {
        return Success(0);
      }
      var embedded := EmbedChunks(chunks);
      match embedded
      case Failure(e) =>
        return Failure(e);
      case Success(vectors) =>
        if |vectors| != |chunks| {
          return Failure(LengthMismatch);
        }
        if chromaFault.Some? {
          return Failure(chromaFault.value);
        }
        collection := AddRecords(collection, chunks, vectors, documentId, documentName, userId);
        r := Success(|chunks|);
    }

    /** The body of `search` once the store is initialised. */
    method SearchCollection(query: string, userId: int, nResults: int, chromaFault: Option<string>)
      returns (results: seq<SearchResult>)
      requires Valid() && initialized
      ensures results == SearchOutcome(collection, QueryVector(query), ranking, userId, nResults, chromaFault)
    {
      var queryVector: Result<Vector, string>;
      if useProvider {
        queryVector := provider.embedQuery(query);
      } else {
        var v := GetMockEmbedding(query);
        queryVector := Success(v);
      }
      var totalCount := |collection|;
      var actual := RequestedCount(nResults, totalCount);
      if queryVector.Failure? || chromaFault.Some? || actual <= 0 {
        return [];
      }
      var hits := QueryHits(collection, ranking(queryVector.value, collection), userId, actual);
      results := [];
      for i := 0 to |hits|
        invariant |results| == i
        invariant forall k :: 0 <= k < i ==>
                    results[k] == SearchResult(hits[k].0, collection[hits[k].0].text,
                                               collection[hits[k].0].metadata, hits[k].1)
      {
        var (id, score) := hits[i];
        var record := collection[id];
        results := results + [SearchResult(id, record.text, record.metadata, score)];
      }
    }

    /** `search(query, user_id, n_results)`. */
    method Search(query: string, userId: int, nResults: int, chromaFault: Option<string>)
      returns (results: seq<SearchResult>)
      requires Valid()
      modifies this
      ensures Valid() && initialized && Contents() == old(Contents())
      ensures results == SearchOutcome(Contents(), QueryVector(query), ranking, userId, nResults, chromaFault)
    {
      EnsureInitialized();
      results := SearchCollection(query, userId, nResults, chromaFault);
    }

    /** `delete_document(document_id)`: not scoped by owner; `False` when ChromaDB fails. */
    method DeleteDocument(documentId: int, chromaFault: Option<string>) returns (ok: bool)
      requires Valid()
      modifies this
      ensures Valid() && initialized
      ensures ok <==> chromaFault.None?
      ensures collection == if ok then WithoutDocument(old(Contents()), documentId) else old(Contents())
    {
      EnsureInitialized();
      if chromaFault.Some? {
        return false;
      }
      collection := WithoutDocument(collection, documentId);
      ok := true;
    }

    /** `get_document_count(user_id)`: the caller's records, 0 when ChromaDB fails. */
    method GetDocumentCount(userId: int, chromaFault: Option<string>) returns (n: nat)
      requires Valid()
      modifies this
      ensures Valid() && initialized && Contents() == old(Contents())
      ensures n == if chromaFault.Some? then 0 else UserCount(Contents(), userId)
    {
      EnsureInitialized();
      if chromaFault.Some? {
        return 0;
      }
      n := |UserKeys(collection, userId)|;
    }

    /** `get_total_count()`: all records of all users, 0 when ChromaDB fails. */
    method GetTotalCount(chromaFault: Option<string>) returns (n: nat)
      requires Valid()
      modifies this
      ensures Valid() && initialized && Contents() == old(Contents())
      ensures n == if chromaFault.Some? then 0 else |Contents()|
    {
      EnsureInitialized();
      if chromaFault.Some? {
        return 0;
      }
      n := |collection|;
    }

    /** `reset()`: a fresh, empty collection; a ChromaDB failure is re-raised. */
    method Reset(chromaFault: Option<string>) returns (r: Result<(), string>)
      requires Valid()
      modifies this
      ensures Valid() && initialized
      ensures chromaFault.Some? ==> r == Failure(chromaFault.value) && Contents() == old(Contents())
      ensures chromaFault.None? ==> r == Success(()) && Contents() == map[]
    {
      EnsureInitialized();
      if chromaFault.Some? {
        return Failure(chromaFault.value);
      }
      collection := map[];
      r := Success(());
    }
  }
}
