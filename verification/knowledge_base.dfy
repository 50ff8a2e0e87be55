/**
  The knowledge base: the in-memory `SimpleKnowledgeBase` (a dict from
  document id to file name and chunk list, searched by case-insensitive
  substring containment) and the parts of the vector-store `KnowledgeBase`
  that are the repository's own logic: the choice of mode, the chunk ids and
  metadata written for a new document, the delete that reports whether a
  lookup found chunks, and the grouping of chunk metadata into a document
  list.

  A Python dict iterates in insertion order, and that order is what
  `search` and `list_documents` return; the store therefore keeps the keys
  of its map in `order` as well.
*/
module KnowledgeBases {
  import opened Wrappers
  import opened Strings
  import opened Seqs
  import opened Document

  type DocId = string

  /** A stored document: its file name and its chunks. */
  datatype Doc = Doc(filename: string, chunks: seq<string>)

  /** The metadata of a search hit; the fixed similarity score is not modelled. */
  datatype HitMeta = HitMeta(documentId: DocId, filename: string, chunkIndex: nat)
  datatype Hit = Hit(content: string, metadata: HitMeta)

  /** One entry of `list_documents`. */
  datatype DocSummary = DocSummary(id: DocId, filename: string, chunkCount: nat)

  datatype Stats = Stats(totalChunks: nat, totalDocuments: nat, documents: seq<DocSummary>)

  // ---------------------------------------------------------------------
  // Search, specified on the map and its key order

  /** `search` takes a chunk when the lower-cased query occurs in the lower-cased chunk. */
  predicate Matches(queryLower: string, chunk: string)
  {
    Contains(Lower(chunk), queryLower)
  }

  /** The hits among the first n chunks of one document, in chunk order. */
  function ChunkHits(id: DocId, doc: Doc, q: string, n: nat): seq<Hit>
    requires n <= |doc.chunks|
  {
    if n == 0 then []
    else
      var chunk := doc.chunks[n - 1];
      ChunkHits(id, doc, q, n - 1) +
        (if Matches(q, chunk) then [Hit(chunk, HitMeta(id, doc.filename, n - 1))] else [])
  }

  /** The hits of a whole store whose keys are listed in `order`, document after document. */
  function StoreHits(documents: map<DocId, Doc>, order: seq<DocId>, q: string): seq<Hit>
  {
    if order == [] then []
    else
      var id := order[|order| - 1];
      StoreHits(documents, order[..|order| - 1], q) +
        (if id in documents then ChunkHits(id, documents[id], q, |documents[id].chunks|) else [])
  }

  /** Hit m of a document names one of its first n chunks, carries it, and matches. */
  lemma {:induction false} ChunkHitsSound(id: DocId, doc: Doc, q: string, n: nat, m: nat)
    requires n <= |doc.chunks| && m < |ChunkHits(id, doc, q, n)|
    ensures var h := ChunkHits(id, doc, q, n)[m];
      && h.metadata.documentId == id && h.metadata.filename == doc.filename
      && h.metadata.chunkIndex < n
      && h.content == doc.chunks[h.metadata.chunkIndex]
      && Matches(q, h.content)
  {
    if m < |ChunkHits(id, doc, q, n - 1)| {
      ChunkHitsSound(id, doc, q, n - 1, m);
    }
  }

  /** Every matching chunk among the first n is a hit. */
  lemma {:induction false} ChunkHitsComplete(id: DocId, doc: Doc, q: string, n: nat, i: nat)
    requires i < n <= |doc.chunks| && Matches(q, doc.chunks[i])
    ensures Hit(doc.chunks[i], HitMeta(id, doc.filename, i)) in ChunkHits(id, doc, q, n)
  {
    if i < n - 1 {
      ChunkHitsComplete(id, doc, q, n - 1, i);
    }
  }

  /** The hits of one document come in increasing chunk index. */
  lemma {:induction false} ChunkHitsOrdered(id: DocId, doc: Doc, q: string, n: nat, m1: nat, m2: nat)
    requires n <= |doc.chunks| && m1 < m2 < |ChunkHits(id, doc, q, n)|
    ensures ChunkHits(id, doc, q, n)[m1].metadata.chunkIndex < ChunkHits(id, doc, q, n)[m2].metadata.chunkIndex
  {
    var init := ChunkHits(id, doc, q, n - 1);
    if m2 < |init| {
      ChunkHitsOrdered(id, doc, q, n - 1, m1, m2);
    } else {
      ChunkHitsSound(id, doc, q, n - 1, m1);
    }
  }

  /**
    Every search hit is a stored chunk that matches the query, and its
    metadata names exactly that chunk: its document id, the document's file
    name and the chunk's index.
  */
  lemma {:induction false} HitsAreMatchingChunks(documents: map<DocId, Doc>, order: seq<DocId>, q: string, m: nat)
    requires m < |StoreHits(documents, order, q)|
    ensures var h := StoreHits(documents, order, q)[m];
      var id := h.metadata.documentId;
      && id in order && id in documents
      && h.metadata.filename == documents[id].filename
      && h.metadata.chunkIndex < |documents[id].chunks|
      && h.content == documents[id].chunks[h.metadata.chunkIndex]
      && Matches(q, h.content)
  {
    var init := order[..|order| - 1];
    var id := order[|order| - 1];
    if m < |StoreHits(documents, init, q)| {
      HitsAreMatchingChunks(documents, init, q, m);
    } else {
      ChunkHitsSound(id, documents[id], q, |documents[id].chunks|, m - |StoreHits(documents, init, q)|);
    }
  }

  /** Conversely every matching chunk of a listed document is a hit. */
  lemma {:induction false} MatchingChunksAreHits(documents: map<DocId, Doc>, order: seq<DocId>, q: string, id: DocId, i: nat)
    requires id in order && id in documents
    requires i < |documents[id].chunks| && Matches(q, documents[id].chunks[i])
    ensures Hit(documents[id].chunks[i], HitMeta(id, documents[id].filename, i)) in StoreHits(documents, order, q)
  {
    var init := order[..|order| - 1];
    if id == order[|order| - 1] {
      ChunkHitsComplete(id, documents[id], q, |documents[id].chunks|, i);
    } else {
      assert id in init;
      MatchingChunksAreHits(documents, init, q, id, i);
    }
  }

  /**
    Hit h1 may precede hit h2: h1's document is listed at a position no
    later than h2's, and at one position the chunk index increases.
  */
  ghost predicate InListingOrder(order: seq<DocId>, h1: Hit, h2: Hit)
  {
    exists a, b :: 0 <= a <= b < |order| && order[a] == h1.metadata.documentId && order[b] == h2.metadata.documentId
      && (a == b ==> h1.metadata.chunkIndex < h2.metadata.chunkIndex)
  }

  /** Hits come in document-then-chunk order. */
  lemma {:induction false} HitsInDocumentThenChunkOrder(documents: map<DocId, Doc>, order: seq<DocId>, q: string, m1: nat, m2: nat)
    requires m1 < m2 < |StoreHits(documents, order, q)|
    ensures InListingOrder(order, StoreHits(documents, order, q)[m1], StoreHits(documents, order, q)[m2])
  {
    var init := order[..|order| - 1];
    var front := StoreHits(documents, init, q);
    if m2 < |front| {
      var hits := StoreHits(documents, order, q);
      assert hits[m1] == front[m1] && hits[m2] == front[m2];
      var h1, h2 := front[m1], front[m2];
      HitsInDocumentThenChunkOrder(documents, init, q, m1, m2);
      var a, b :| 0 <= a <= b < |init| && init[a] == h1.metadata.documentId && init[b] == h2.metadata.documentId
        && (a == b ==> h1.metadata.chunkIndex < h2.metadata.chunkIndex);
      assert order[a] == init[a] && order[b] == init[b];
    } else {
      LastDocumentHitsFollow(documents, order, q, m1, m2);
    }
  }

  /** A hit from the last listed document comes after every earlier hit in listing order. */
  lemma LastDocumentHitsFollow(documents: map<DocId, Doc>, order: seq<DocId>, q: string, m1: nat, m2: nat)
    requires m1 < m2 < |StoreHits(documents, order, q)|
    requires m2 >= |StoreHits(documents, order[..|order| - 1], q)|
    ensures InListingOrder(order, StoreHits(documents, order, q)[m1], StoreHits(documents, order, q)[m2])
  {
    var init, n := order[..|order| - 1], |order| - 1;
    var id := order[n];
    var front := StoreHits(documents, init, q);
    assert id in documents;
    var doc := documents[id];
    var tail := ChunkHits(id, doc, q, |doc.chunks|);
    var hits := StoreHits(documents, order, q);
    assert hits == front + tail;
    var h1, h2 := hits[m1], hits[m2];
    assert h2 == tail[m2 - |front|];
    ChunkHitsSound(id, doc, q, |doc.chunks|, m2 - |front|);
    if m1 < |front| {
      assert h1 == front[m1];
      var a := ListedBefore(documents, init, q, m1);
      assert order[a] == h1.metadata.documentId && order[n] == h2.metadata.documentId;
    } else {
      assert h1 == tail[m1 - |front|];
      ChunkHitsSound(id, doc, q, |doc.chunks|, m1 - |front|);
      ChunkHitsOrdered(id, doc, q, |doc.chunks|, m1 - |front|, m2 - |front|);
      assert order[n] == h1.metadata.documentId && order[n] == h2.metadata.documentId;
    }
  }

  /** The document of hit m is listed at some position. */
  lemma ListedBefore(documents: map<DocId, Doc>, order: seq<DocId>, q: string, m: nat) returns (a: nat)
    requires m < |StoreHits(documents, order, q)|
    ensures a < |order| && order[a] == StoreHits(documents, order, q)[m].metadata.documentId
  {
    HitsAreMatchingChunks(documents, order, q, m);
    a :| 0 <= a < |order| && order[a] == StoreHits(documents, order, q)[m].metadata.documentId;
  }

  // ---------------------------------------------------------------------
  // Listing and statistics

  /** The total number of chunks of the listed documents. */
  function TotalChunks(documents: map<DocId, Doc>, order: seq<DocId>): nat
  {
    if order == [] then 0
    else
      var id := order[|order| - 1];
      TotalChunks(documents, order[..|order| - 1]) + (if id in documents then |documents[id].chunks| else 0)
  }

  /** The list entry of one document. */
  function Summarize(id: DocId, doc: Doc): DocSummary
  {
    DocSummary(id, doc.filename, |doc.chunks|)
  }

  /** The entries of `list_documents`, one per listed document, in order. */
  function Summaries(documents: map<DocId, Doc>, order: seq<DocId>): (r: seq<DocSummary>)
    ensures forall k :: 0 <= k < |r| ==> r[k].id in documents && r[k] == Summarize(r[k].id, documents[r[k].id])
    ensures (forall id :: id in order ==> id in documents) ==>
      |r| == |order| && forall k :: 0 <= k < |r| ==> r[k].id == order[k]
  {
    if order == [] then []
    else
      var id := order[|order| - 1];
      var init := order[..|order| - 1];
      assert forall x :: x in init ==> x in order;
      Summaries(documents, init) + (if id in documents then [Summarize(id, documents[id])] else [])
  }

  /** The sum of the chunk counts of a document list. */
  function SumCounts(list: seq<DocSummary>): nat
  {
    if list == [] then 0 else SumCounts(list[..|list| - 1]) + list[|list| - 1].chunkCount
  }

  /** `total_chunks` of the statistics is the sum of the chunk counts of the document list. */
  lemma {:induction false} TotalChunksIsSumOfCounts(documents: map<DocId, Doc>, order: seq<DocId>)
    ensures TotalChunks(documents, order) == SumCounts(Summaries(documents, order))
  {
    if order != [] {
      var id := order[|order| - 1];
      var init := order[..|order| - 1];
      TotalChunksIsSumOfCounts(documents, init);
      var front := Summaries(documents, init);
      if id in documents {
        assert (front + [Summarize(id, documents[id])])[..|front|] == front;
      } else {
        assert front + [] == front;
      }
    }
  }

  /** Every chunk of one document as the hit `search` builds for it, in chunk order. */
  function DocHits(id: DocId, doc: Doc): seq<Hit>
  {
    seq(|doc.chunks|, i requires 0 <= i < |doc.chunks| => Hit(doc.chunks[i], HitMeta(id, doc.filename, i)))
  }

  /** Every chunk of the listed documents as a hit, document after document. */
  function AllHits(documents: map<DocId, Doc>, order: seq<DocId>): seq<Hit>
  {
    if order == [] then []
    else
      var id := order[|order| - 1];
      AllHits(documents, order[..|order| - 1]) + (if id in documents then DocHits(id, documents[id]) else [])
  }

  /** An empty query occurs in every chunk, so searching for "" hits every chunk, in listing order. */
  lemma {:induction false} EmptyQueryHitsEveryChunk(documents: map<DocId, Doc>, order: seq<DocId>)
    ensures StoreHits(documents, order, Lower("")) == AllHits(documents, order)
    ensures |AllHits(documents, order)| == TotalChunks(documents, order)
  {
    assert Lower("") == "";
    if order != [] {
      var id := order[|order| - 1];
      EmptyQueryHitsEveryChunk(documents, order[..|order| - 1]);
      if id in documents {
        var doc := documents[id];
        EveryChunkMatchesEmpty(id, doc, |doc.chunks|);
        assert DocHits(id, doc)[..|doc.chunks|] == DocHits(id, doc);
      }
    }
  }

  /** The hits of the first n chunks of a document for "" are those n chunks. */
  lemma {:induction false} EveryChunkMatchesEmpty(id: DocId, doc: Doc, n: nat)
    requires n <= |doc.chunks|
    ensures ChunkHits(id, doc, "", n) == DocHits(id, doc)[..n]
  {
    if n > 0 {
      EveryChunkMatchesEmpty(id, doc, n - 1);
      ContainsEmpty(Lower(doc.chunks[n - 1]));
      assert DocHits(id, doc)[..n] == DocHits(id, doc)[..n - 1] + [DocHits(id, doc)[n - 1]];
    }
  }

  /**
    `search("", k)` with k >= 0 returns the first k chunks of the store in
    listing order, all of them when there are fewer.
  */
  lemma EmptySearchReturnsLeadingChunks(documents: map<DocId, Doc>, order: seq<DocId>, topK: int)
    requires topK >= 0
    ensures var all := AllHits(documents, order);
      PyTake(StoreHits(documents, order, Lower("")), topK) == all[..if topK <= |all| then topK else |all|]
    ensures var total := TotalChunks(documents, order);
      |PyTake(StoreHits(documents, order, Lower("")), topK)| == if topK <= total then topK else total
  {
    EmptyQueryHitsEveryChunk(documents, order);
  }

  /** The first chunk of the first listed document comes first in the listing of all chunks. */
  lemma {:induction false} AllHitsStart(documents: map<DocId, Doc>, order: seq<DocId>)
    requires order != [] && order[0] in documents && |documents[order[0]].chunks| >= 1
    ensures var id := order[0];
      |AllHits(documents, order)| >= 1
      && AllHits(documents, order)[0] == Hit(documents[id].chunks[0], HitMeta(id, documents[id].filename, 0))
  {
    var init := order[..|order| - 1];
    if |order| > 1 {
      assert init[0] == order[0];
      AllHitsStart(documents, init);
    } else {
      assert init == [];
    }
  }

  /**
    In a store whose key order is not empty and whose documents all have a
    chunk, `search("", k)` with k >= 1 is not empty: it starts with the
    first chunk of the first stored document.
  */
  lemma EmptySearchStartsWithFirstChunk(documents: map<DocId, Doc>, order: seq<DocId>, topK: int)
    requires forall id :: id in order ==> id in documents
    requires forall id :: id in documents ==> |documents[id].chunks| >= 1
    requires order != [] && topK >= 1
    ensures var r := PyTake(StoreHits(documents, order, Lower("")), topK);
      var id := order[0];
      |r| >= 1 && r[0] == Hit(documents[id].chunks[0], HitMeta(id, documents[id].filename, 0))
  {
    EmptySearchReturnsLeadingChunks(documents, order, topK);
    AllHitsStart(documents, order);
  }

  /**
    Adding a document and searching for a query that occurs in one of its
    chunks and in no chunk of any other document finds that document: with
    k >= 1 the result is not empty and every hit names the added id.
  */
  lemma AddedDocumentIsFound(documents: map<DocId, Doc>, order: seq<DocId>, freshId: DocId, doc: Doc, query: string, topK: int)
    requires topK >= 1
    requires exists i :: 0 <= i < |doc.chunks| && Matches(Lower(query), doc.chunks[i])
    requires forall id, j :: id in documents && id != freshId && 0 <= j < |documents[id].chunks| ==>
      !Matches(Lower(query), documents[id].chunks[j])
    ensures var r := PyTake(StoreHits(documents[freshId := doc], order + [freshId], Lower(query)), topK);
      |r| >= 1 && forall m :: 0 <= m < |r| ==> r[m].metadata.documentId == freshId
  {
    var documents', order', q := documents[freshId := doc], order + [freshId], Lower(query);
    var all := StoreHits(documents', order', q);
    var i :| 0 <= i < |doc.chunks| && Matches(q, doc.chunks[i]);
    assert order'[|order|] == freshId;
    MatchingChunksAreHits(documents', order', q, freshId, i);
    forall m | 0 <= m < |all| ensures all[m].metadata.documentId == freshId {
      HitsAreMatchingChunks(documents', order', q, m);
    }
  }

  // ---------------------------------------------------------------------
  // The in-memory store

  /** The inner loop of `search`: the matching chunks of one document, in chunk order. */
  method SearchDocument(id: DocId, doc: Doc, q: string) returns (hits: seq<Hit>)
    ensures hits == ChunkHits(id, doc, q, |doc.chunks|)
  {
    hits := [];
    for j := 0 to |doc.chunks|
      invariant hits == ChunkHits(id, doc, q, j)
    {
      var chunk := doc.chunks[j];
      if Contains(Lower(chunk), q) {
        hits := hits + [Hit(chunk, HitMeta(id, doc.filename, j))];
      }
    }
  }

  /** Over a key order that lists every stored document once, the summaries are one per document. */
  lemma SummariesOfListing(documents: map<DocId, Doc>, order: seq<DocId>)
    requires Distinct(order) && forall id :: id in order <==> id in documents
    ensures var r := Summaries(documents, order);
      && |r| == |documents|
      && (forall k :: 0 <= k < |r| ==> r[k].id in documents && r[k] == Summarize(r[k].id, documents[r[k].id]))
      && (forall id :: id in documents <==> exists k :: 0 <= k < |r| && r[k].id == id)
      && Distinct(r)
  {
    DistinctCard(order, documents.Keys);
    var r := Summaries(documents, order);
    assert forall k :: 0 <= k < |r| ==> r[k].id == order[k];
    forall id | id in documents ensures exists k :: 0 <= k < |r| && r[k].id == id {
      var k :| 0 <= k < |order| && order[k] == id;
      assert r[k].id == id;
    }
  }

  /** `SimpleKnowledgeBase`: the dict `documents` and the insertion order of its keys. */
  class SimpleKnowledgeBase {
    var documents: map<DocId, Doc>
    var order: seq<DocId>

    /**
      `order` lists every key of `documents` exactly once, and every stored
      document has a chunk (chunking never yields an empty list).
    */
    ghost predicate Valid()
      reads this
    {
      && Distinct(order)
      && (forall id :: id in order <==> id in documents)
      && (forall id :: id in documents ==> |documents[id].chunks| >= 1)
    }

    constructor ()
      ensures Valid() && documents == map[] && order == []
    {
      documents := map[];
      order := [];
    }

    /**
      `add_document`: extraction failures leave the store as it was and are
      reported; otherwise the fresh id is stored with the file name and the
      chunks of the text, and every other entry is kept.
    */
    method AddDocument(path: string, filename: string, contents: Option<string>, freshId: DocId)
      returns (r: Result<DocId, ExtractError>)
      requires Valid() && freshId !in documents
      requires ExtractText(path, contents).Ok? ==>
        Spans(ExtractText(path, contents).value, DefaultChunkSize, DefaultOverlap).Some?
      modifies this
      ensures Valid()
      ensures ExtractText(path, contents).Err? ==>
        && r == Err(ExtractText(path, contents).error)
        && documents == old(documents) && order == old(order)
      ensures ExtractText(path, contents).Ok? ==>
        && r == Ok(freshId)
        && documents == old(documents)[freshId := Doc(filename, Chunk(ExtractText(path, contents).value, DefaultChunkSize, DefaultOverlap).value)]
        && order == old(order) + [freshId]
    {
      var text := ExtractText(path, contents);
      if text.Err? {
        return Err(text.error);
      }
      var chunks := ChunkText(text.value, DefaultChunkSize, DefaultOverlap);
      documents := documents[freshId := Doc(filename, chunks)];
      order := order + [freshId];
      r := Ok(freshId);
    }

    /**
      `search`: the hits of `StoreHits` for the lower-cased query, cut to
      `top_k` with Python's slice semantics.
    */
    method Search(query: string, topK: int) returns (results: seq<Hit>)
      requires Valid()
      ensures results == PyTake(StoreHits(documents, order, Lower(query)), topK)
      ensures topK >= 0 ==> |results| <= topK
    {
      var q := Lower(query);
      var found: seq<Hit> := [];
      var i := 0;
      while i < |order|
        invariant i <= |order|
        invariant found == StoreHits(documents, order[..i], q)
      {
        var id := order[i];
        var hits := SearchDocument(id, documents[id], q);
        found := found + hits;
        assert order[..i + 1][..i] == order[..i];
        i := i + 1;
      }
      assert order[..i] == order;
      results := PyTake(found, topK);
    }

    /**
      `delete_document`: true exactly when the id was stored; the entry is
      gone afterwards (so deleting it again answers false) and the others
      keep their values and order.
    */
    method DeleteDocument(id: DocId) returns (deleted: bool)
      requires Valid()
      modifies this
      ensures Valid()
      ensures deleted == (id in old(documents))
      ensures id !in documents
      ensures documents == old(documents) - {id}
      ensures order == Without(old(order), id)
    {
      deleted := id in documents;
      if deleted {
        documents := documents - {id};
        order := Without(order, id);
      }
    }

    /** `list_documents`: one entry per stored document with its file name and chunk count. */
    function ListDocuments(): (r: seq<DocSummary>)
      reads this
      requires Valid()
      ensures |r| == |documents|
      ensures forall k :: 0 <= k < |r| ==> r[k].id in documents && r[k] == Summarize(r[k].id, documents[r[k].id])
      ensures forall id :: id in documents <==> exists k :: 0 <= k < |r| && r[k].id == id
      ensures Distinct(r)
    {
      SummariesOfListing(documents, order);
      Summaries(documents, order)
    }

    /**
      `get_stats`: the number of documents, and a chunk total equal to the
      sum of the chunk counts of the document list.
    */
    function GetStats(): (s: Stats)
      reads this
      requires Valid()
      ensures s.totalDocuments == |documents| == |s.documents|
      ensures s.totalChunks == SumCounts(s.documents)
      ensures s.documents == ListDocuments()
    {
      TotalChunksIsSumOfCounts(documents, order);
      Stats(TotalChunks(documents, order), |documents|, ListDocuments())
    }
  }

  // ---------------------------------------------------------------------
  // The vector-store mode: chunk records written on add

  /** The metadata stored with every chunk of a document in the vector store. */
  datatype ChunkMetadata = ChunkMetadata(documentId: DocId, filename: string, chunkIndex: nat, chunkCount: nat)

  /** One stored chunk: its id, its text and its metadata (the embedding is not modelled). */
  datatype ChunkRecord = ChunkRecord(id: string, content: string, metadata: ChunkMetadata)

  /** The id `f"{doc_id}_chunk_{i}"` of chunk i. */
  function ChunkId(documentId: DocId, i: nat): string
  {
    documentId + "_chunk_" + NatToString(i)
  }

  lemma SplitAtUnderscore(s: string, pre: string, n: string)
    requires s == pre + "_" + n
    ensures s[|s| - |n| - 1] == '_'
    ensures forall i :: |s| - |n| <= i < |s| ==> s[i] in n
  {
    forall i | |s| - |n| <= i < |s| ensures s[i] in n {
      assert s[i] == n[i - (|s| - |n|)];
    }
  }

  /** A string that ends in "_" followed by `digits` (which hold no '_') determines `digits`. */
  lemma UnderscoreSuffix(s: string, pre1: string, n1: string, pre2: string, n2: string)
    requires s == pre1 + "_" + n1 && s == pre2 + "_" + n2
    requires '_' !in n1 && '_' !in n2
    ensures n1 == n2 && pre1 == pre2
  {
    if |n1| < |n2| {
      SplitAtUnderscore(s, pre1, n1);
      SplitAtUnderscore(s, pre2, n2);
      assert false;
    } else if |n2| < |n1| {
      SplitAtUnderscore(s, pre1, n1);
      SplitAtUnderscore(s, pre2, n2);
      assert false;
    }
    assert n1 == s[|s| - |n1|..] == n2;
    assert pre1 == s[..|s| - |n1| - 1] == pre2;
  }

  /** Chunk ids never collide: equal ids have the same document id and chunk index. */
  lemma ChunkIdInjective(d1: DocId, i: nat, d2: DocId, j: nat)
    requires ChunkId(d1, i) == ChunkId(d2, j)
    ensures d1 == d2 && i == j
  {
    var n1, n2 := NatToString(i), NatToString(j);
    assert ChunkId(d1, i) == (d1 + "_chunk") + "_" + n1;
    assert ChunkId(d2, j) == (d2 + "_chunk") + "_" + n2;
    UnderscoreSuffix(ChunkId(d1, i), d1 + "_chunk", n1, d2 + "_chunk", n2);
    NatToStringInjective(i, j);
    assert d1 == (d1 + "_chunk")[..|d1|];
    assert d2 == (d2 + "_chunk")[..|d2|];
  }

  /**
    The loop of the vector-store `add_document`: for a document of n chunks,
    id i is `ChunkId(documentId, i)`, the ids are pairwise distinct, and
    metadata i carries the document id, the file name, index i and count n.
  */
  method BuildChunkRecords(documentId: DocId, filename: string, chunks: seq<string>)
    returns (ids: seq<string>, metadatas: seq<ChunkMetadata>)
    ensures |ids| == |chunks| && |metadatas| == |chunks|
    ensures forall i :: 0 <= i < |chunks| ==>
      ids[i] == ChunkId(documentId, i) && metadatas[i] == ChunkMetadata(documentId, filename, i, |chunks|)
    ensures Distinct(ids)
  {
    ids, metadatas := [], [];
    for i := 0 to |chunks|
      invariant |ids| == i && |metadatas| == i
      invariant forall k :: 0 <= k < i ==>
        ids[k] == ChunkId(documentId, k) && metadatas[k] == ChunkMetadata(documentId, filename, k, |chunks|)
    {
      ids := ids + [ChunkId(documentId, i)];
      metadatas := metadatas + [ChunkMetadata(documentId, filename, i, |chunks|)];
    }
    forall i, j | 0 <= i < j < |ids| ensures ids[i] != ids[j] {
      if ids[i] == ids[j] {
        ChunkIdInjective(documentId, i, documentId, j);
      }
    }
  }

  /** The records handed to the collection: chunk k with id k and metadata k. */
  function Records(ids: seq<string>, chunks: seq<string>, metadatas: seq<ChunkMetadata>): (r: seq<ChunkRecord>)
    requires |ids| == |chunks| == |metadatas|
    ensures |r| == |chunks|
    ensures forall k :: 0 <= k < |r| ==> r[k] == ChunkRecord(ids[k], chunks[k], metadatas[k])
  {
    seq(|chunks|, k requires 0 <= k < |chunks| => ChunkRecord(ids[k], chunks[k], metadatas[k]))
  }

  // ---------------------------------------------------------------------
  // The vector-store mode: delete

  /** The ids of the records whose metadata names the document, in collection order. */
  function LookupIds(records: seq<ChunkRecord>, documentId: DocId): (ids: seq<string>)
    ensures forall x :: x in ids <==> exists k :: 0 <= k < |records| && records[k].metadata.documentId == documentId && records[k].id == x
    ensures |ids| == 0 <==> forall k :: 0 <= k < |records| ==> records[k].metadata.documentId != documentId
    decreases |records|
  {
    if records == [] then []
    else
      var init := records[..|records| - 1];
      var last := records[|records| - 1];
      var front := LookupIds(init, documentId);
      assert forall k :: 0 <= k < |init| ==> init[k] == records[k];
      if last.metadata.documentId == documentId then front + [last.id] else front
  }

  /** The records whose id is not among `ids`, in order. */
  function RemoveIds(records: seq<ChunkRecord>, ids: seq<string>): (r: seq<ChunkRecord>)
    ensures forall rec :: rec in r <==> rec in records && rec.id !in ids
    decreases |records|
  {
    if records == [] then []
    else
      var init := records[..|records| - 1];
      var last := records[|records| - 1];
      assert records == init + [last];
      RemoveIds(init, ids) + (if last.id in ids then [] else [last])
  }

  /**
    The vector-store `delete_document`: true exactly when the lookup found
    a chunk of the document; afterwards no chunk of the document remains,
    and every record whose id the lookup did not return is kept.
  */
  function DeleteFromCollection(records: seq<ChunkRecord>, documentId: DocId): (r: (seq<ChunkRecord>, bool))
    ensures r.1 <==> exists k :: 0 <= k < |records| && records[k].metadata.documentId == documentId
    ensures !r.1 ==> r.0 == records
    ensures forall rec :: rec in r.0 ==> rec in records && rec.metadata.documentId != documentId
    ensures forall rec :: rec in records && rec.id !in LookupIds(records, documentId) ==> rec in r.0
  {
    var ids := LookupIds(records, documentId);
    if |ids| > 0 then
      var rest := RemoveIds(records, ids);
      assert forall rec :: rec in records && rec.metadata.documentId == documentId ==> rec.id in ids;
      (rest, true)
    else (records, false)
  }

  // ---------------------------------------------------------------------
  // The vector-store mode: the document list

  function IdsOf(list: seq<DocSummary>): (r: seq<DocId>)
    ensures |r| == |list| && forall k :: 0 <= k < |list| ==> r[k] == list[k].id
  {
    seq(|list|, k requires 0 <= k < |list| => list[k].id)
  }

  /** The list entry a chunk's metadata gives for its document. */
  function SummaryOf(m: ChunkMetadata): DocSummary
  {
    DocSummary(m.documentId, m.filename, m.chunkCount)
  }

  /**
    The grouping of the vector-store `list_documents`: one entry per
    document id, taken from the first metadata record with that id, in
    order of first appearance.
  */
  function Grouped(metas: seq<ChunkMetadata>): (r: seq<DocSummary>)
    decreases |metas|
  {
    if metas == [] then []
    else
      var front := Grouped(metas[..|metas| - 1]);
      var last := metas[|metas| - 1];
      if last.documentId in IdsOf(front) then front else front + [SummaryOf(last)]
  }

  /** The grouped list has no document id twice. */
  lemma {:induction false} GroupedDistinct(metas: seq<ChunkMetadata>)
    ensures Distinct(IdsOf(Grouped(metas)))
  {
    if metas != [] {
      var front := Grouped(metas[..|metas| - 1]);
      GroupedDistinct(metas[..|metas| - 1]);
      var last := metas[|metas| - 1];
      if last.documentId !in IdsOf(front) {
        var ids := IdsOf(front + [SummaryOf(last)]);
        assert ids == IdsOf(front) + [last.documentId];
      }
    }
  }

  /**
    The grouped list holds exactly the document ids of the input, and each
    entry is the summary of the first record with its id.
  */
  lemma {:induction false} GroupedFirstSeen(metas: seq<ChunkMetadata>)
    ensures forall id :: id in IdsOf(Grouped(metas)) <==> exists i :: 0 <= i < |metas| && metas[i].documentId == id
    ensures forall k :: 0 <= k < |Grouped(metas)| ==>
      exists i :: (0 <= i < |metas| && Grouped(metas)[k] == SummaryOf(metas[i])
        && forall j :: 0 <= j < i ==> metas[j].documentId != metas[i].documentId)
  {
    if metas != [] {
      var init := metas[..|metas| - 1];
      var front := Grouped(init);
      var last := metas[|metas| - 1];
      GroupedFirstSeen(init);
      assert forall i :: 0 <= i < |init| ==> init[i] == metas[i];
      var g := Grouped(metas);
      if last.documentId !in IdsOf(front) {
        assert IdsOf(g) == IdsOf(front) + [last.documentId];
        forall k | 0 <= k < |g|
          ensures exists i :: (0 <= i < |metas| && g[k] == SummaryOf(metas[i])
            && forall j :: 0 <= j < i ==> metas[j].documentId != metas[i].documentId)
        {
          if k == |front| {
            var i := |metas| - 1;
            forall j | 0 <= j < i ensures metas[j].documentId != metas[i].documentId {
              assert init[j].documentId in IdsOf(front);
            }
          } else {
            assert g[k] == front[k];
          }
        }
      }
    }
  }
  /** Some chunk before index i belongs to document `id`. */
  ghost predicate SeenBefore(metas: seq<ChunkMetadata>, id: DocId, i: int)
  {
    exists j :: 0 <= j < i && j < |metas| && metas[j].documentId == id
  }

  /**
    The entries are in first-seen order: every chunk of a later entry's
    document comes after some chunk of each earlier entry's document.
  */
  lemma {:induction false} GroupedInFirstSeenOrder(metas: seq<ChunkMetadata>)
    ensures forall k, k', i ::
      (0 <= k < k' < |Grouped(metas)| && 0 <= i < |metas| && metas[i].documentId == Grouped(metas)[k'].id)
      ==> SeenBefore(metas, Grouped(metas)[k].id, i)
  {
    if metas != [] {
      var init := metas[..|metas| - 1];
      var n := |init|;
      var front := Grouped(init);
      var last := metas[n];
      var g := Grouped(metas);
      GroupedInFirstSeenOrder(init);
      GroupedFirstSeen(init);
      assert forall i :: 0 <= i < n ==> init[i] == metas[i];
      forall k, k', i | 0 <= k < k' < |g| && 0 <= i < |metas| && metas[i].documentId == g[k'].id
        ensures SeenBefore(metas, g[k].id, i)
      {
        assert g[k] == front[k];
        assert IdsOf(front)[k] == g[k].id;
        if i < n && k' < |front| {
          assert g[k'] == front[k'];
          assert init[i].documentId == front[k'].id;
          assert SeenBefore(init, g[k].id, i);
        } else if i == n {
          var j :| 0 <= j < n && init[j].documentId == g[k].id;
          assert metas[j].documentId == g[k].id;
        }
      }
    }
  }


  /**
    The loop of the vector-store `list_documents`: a dict filled on first
    sight of each document id, then listed in insertion order.
  */
  method GroupByDocument(metas: seq<ChunkMetadata>) returns (list: seq<DocSummary>)
    ensures list == Grouped(metas)
  {
    var seen: map<DocId, DocSummary> := map[];
    var keys: seq<DocId> := [];
    for i := 0 to |metas|
      invariant keys == IdsOf(Grouped(metas[..i]))
      invariant forall id :: id in seen <==> id in keys
      invariant forall k :: 0 <= k < |keys| ==> seen[keys[k]] == Grouped(metas[..i])[k]
    {
      assert metas[..i + 1][..i] == metas[..i];
      var m := metas[i];
      if m.documentId !in seen {
        seen := seen[m.documentId := SummaryOf(m)];
        keys := keys + [m.documentId];
      }
      assert IdsOf(Grouped(metas[..i + 1])) == keys;
    }
    assert metas[..|metas|] == metas;
    list := seq(|keys|, k requires 0 <= k < |keys| => seen[keys[k]]);
  }

  // ---------------------------------------------------------------------
  // The manager

  datatype Mode = Simple | Advanced

  /**
    `KnowledgeBase`: the vector store when both libraries are importable,
    the in-memory store otherwise. The vector collection is modelled as the
    sequence of its records in insertion order.
  */
  class KnowledgeBase {
    const mode: Mode
    const simple: SimpleKnowledgeBase
    var collection: seq<ChunkRecord>

    ghost predicate Valid()
      reads this, simple
    {
      simple.Valid()
    }

    /**
      `__init__`: the mode is chosen once, from the availability of the two
      libraries. The vector mode reopens the persistent collection, which
      holds the records `stored` that earlier runs wrote; the in-memory
      store starts empty.
    */
    constructor (chromaAvailable: bool, embeddingsAvailable: bool, stored: seq<ChunkRecord>)
      ensures Valid() && fresh(simple)
      ensures mode == (if chromaAvailable && embeddingsAvailable then Advanced else Simple)
      ensures simple.documents == map[] && simple.order == []
      ensures collection == if mode == Advanced then stored else []
    {
      mode := if chromaAvailable && embeddingsAvailable then Advanced else Simple;
      simple := new SimpleKnowledgeBase();
      collection := if chromaAvailable && embeddingsAvailable then stored else [];
    }

    /** The id has no chunk in the collection and no entry in the in-memory store. */
    ghost predicate FreshId(id: DocId)
      reads this, simple
    {
      id !in simple.documents && forall k :: 0 <= k < |collection| ==> collection[k].metadata.documentId != id
    }

    /**
      `add_document`: in the in-memory mode the store's own add; in the
      vector mode the chunks are written with the ids and metadata of
      `BuildChunkRecords`.
    */
    method AddDocument(path: string, filename: string, contents: Option<string>, freshId: DocId)
      returns (r: Result<DocId, ExtractError>)
      requires Valid() && FreshId(freshId)
      requires ExtractText(path, contents).Ok? ==>
        Spans(ExtractText(path, contents).value, DefaultChunkSize, DefaultOverlap).Some?
      modifies this, simple
      ensures Valid()
      ensures r.Ok? <==> ExtractText(path, contents).Ok?
      ensures r.Ok? ==> r.value == freshId
      ensures mode == Simple ==> collection == old(collection)
      ensures mode == Simple && r.Err? ==> simple.documents == old(simple.documents) && simple.order == old(simple.order)
      ensures mode == Simple && r.Ok? ==>
        && simple.documents == old(simple.documents)[freshId := Doc(filename, Chunk(ExtractText(path, contents).value, DefaultChunkSize, DefaultOverlap).value)]
        && simple.order == old(simple.order) + [freshId]
      ensures mode == Advanced ==> simple.documents == old(simple.documents) && simple.order == old(simple.order)
      ensures mode == Advanced && r.Err? ==> collection == old(collection)
      ensures mode == Advanced && r.Ok? ==>
        var chunks := Chunk(ExtractText(path, contents).value, DefaultChunkSize, DefaultOverlap).value;
        && |collection| == |old(collection)| + |chunks|
        && collection[..|old(collection)|] == old(collection)
        && forall i :: 0 <= i < |chunks| ==>
          collection[|old(collection)| + i] ==
            ChunkRecord(ChunkId(freshId, i), chunks[i], ChunkMetadata(freshId, filename, i, |chunks|))
    {
      if mode == Simple {
        r := simple.AddDocument(path, filename, contents, freshId);
        return;
      }
      var text := ExtractText(path, contents);
      if text.Err? {
        return Err(text.error);
      }
      var chunks := ChunkText(text.value, DefaultChunkSize, DefaultOverlap);
      var ids, metadatas := BuildChunkRecords(freshId, filename, chunks);
      collection := collection + Records(ids, chunks, metadatas);
      r := Ok(freshId);
    }

    /** `delete_document`: true exactly when the document was stored, in either mode. */
    method DeleteDocument(id: DocId) returns (deleted: bool)
      requires Valid()
      modifies this, simple
      ensures Valid()
      ensures mode == Simple ==>
        && deleted == (id in old(simple.documents))
        && simple.documents == old(simple.documents) - {id}
        && simple.order == Without(old(simple.order), id)
        && collection == old(collection)
      ensures mode == Advanced ==>
        && (deleted, collection) == (DeleteFromCollection(old(collection), id).1, DeleteFromCollection(old(collection), id).0)
        && simple.documents == old(simple.documents) && simple.order == old(simple.order)
    {
      if mode == Simple {
        deleted := simple.DeleteDocument(id);
        return;
      }
      var ids := LookupIds(collection, id);
      if |ids| > 0 {
        collection := RemoveIds(collection, ids);
        deleted := true;
      } else {
        deleted := false;
      }
    }

    /** `list_documents`: the store's list, or the grouping of the collection's metadata. */
    method ListDocuments() returns (list: seq<DocSummary>)
      requires Valid()
      ensures mode == Simple ==> list == simple.ListDocuments()
      ensures mode == Advanced ==> list == Grouped(MetadataOf(collection))
    {
      if mode == Simple {
        return simple.ListDocuments();
      }
      list := GroupByDocument(MetadataOf(collection));
    }

    /**
      `get_stats`: in the vector mode the chunk total is the collection's
      record count and the document total the length of the grouped list.
    */
    method GetStats() returns (stats: Stats)
      requires Valid()
      ensures mode == Simple ==> stats == simple.GetStats()
      ensures mode == Advanced ==>
        stats == Stats(|collection|, |Grouped(MetadataOf(collection))|, Grouped(MetadataOf(collection)))
    {
      if mode == Simple {
        return simple.GetStats();
      }
      var list := ListDocuments();
      stats := Stats(|collection|, |list|, list);
    }
  }

  /** The metadata of every record, in collection order. */
  function MetadataOf(records: seq<ChunkRecord>): (r: seq<ChunkMetadata>)
    ensures |r| == |records| && forall k :: 0 <= k < |r| ==> r[k] == records[k].metadata
  {
    seq(|records|, k requires 0 <= k < |records| => records[k].metadata)
  }
}
