/**
 The per-document collections of the vector store as the RAG pipeline sees
 them: one collection per document, named after the document id
 (`create_or_get_collection`, `delete_document`, `list_documents`), and the
 shaping of a similarity query's rows into ranked results
 (`retrieve_relevant_chunks`). What a collection holds, the embeddings and the
 nearest-neighbour search are the store's business and are not modelled: the
 query's rows are an input.
 */
module VectorStore {
  import opened Wrappers
  import opened Text
  import opened Values

  const CollectionPrefix: string := "doc_"

  /** The names of the collections that exist. */
  type Collections = set<string>

  /** The collection that holds the chunks of document `documentId`. */
  function CollectionName(documentId: string): (name: string)
    ensures StartsWith(name, CollectionPrefix)
    ensures name[|CollectionPrefix|..] == documentId
  {
    CollectionPrefix + documentId
  }

  /** Different documents get different collections. */
  lemma CollectionNameInjective(a: string, b: string)
    requires CollectionName(a) == CollectionName(b)
    ensures a == b
  {
    assert a == CollectionName(a)[|CollectionPrefix|..];
  }

  /** `create_or_get_collection`: afterwards the document's collection exists; no
      other collection is created or removed. */
  function CreateOrGet(store: Collections, documentId: string): (r: Collections)
    ensures CollectionName(documentId) in r
    ensures forall name :: name != CollectionName(documentId) ==> (name in r <==> name in store)
  {
    store + {CollectionName(documentId)}
  }

  /** Getting a collection that already exists changes nothing. */
  lemma CreateOrGetIdempotent(store: Collections, documentId: string)
    ensures CreateOrGet(CreateOrGet(store, documentId), documentId) == CreateOrGet(store, documentId)
    ensures CollectionName(documentId) in store ==> CreateOrGet(store, documentId) == store
  {
  }

  /** How Chroma's `delete_collection` answers: it removes the collection, or it
      raises. It always raises for a collection that does not exist. */
  datatype DeleteAnswer = Deleted | DeleteRaises

  /** `delete_document`: `true` exactly when the collection existed and the store
      removed it; on any raise the answer is `false` and the store is as it was. */
  function DeleteCollection(store: Collections, documentId: string, answer: DeleteAnswer): (r: (bool, Collections))
    ensures r.0 <==> CollectionName(documentId) in store && answer.Deleted?
    ensures r.0 ==> CollectionName(documentId) !in r.1
    ensures !r.0 ==> r.1 == store
    ensures forall name :: name != CollectionName(documentId) ==> (name in r.1 <==> name in store)
  {
    var name := CollectionName(documentId);
    if name in store && answer.Deleted? then (true, store - {name}) else (false, store)
  }

  // ---------------------------------------------------------------------------
  // Listing documents

  /** Each name that starts with the prefix, mapped through `toId`, in listing order. */
  function MapPrefixed(names: seq<string>, toId: string --> string): (ids: seq<string>)
    requires forall n :: StartsWith(n, CollectionPrefix) ==> toId.requires(n)
    ensures |ids| <= |names|
  {
    if |names| == 0 then []
    else
      var rest := MapPrefixed(names[1..], toId);
      if StartsWith(names[0], CollectionPrefix) then [toId(names[0])] + rest else rest
  }

  /** Listing splits over concatenation, and a single name is kept, mapped, exactly
      when it starts with the prefix; together these fix which names are listed,
      in which order, and what each becomes. */
  lemma MapPrefixedAppend(a: seq<string>, b: seq<string>, toId: string --> string)
    requires forall n :: StartsWith(n, CollectionPrefix) ==> toId.requires(n)
    ensures MapPrefixed(a + b, toId) == MapPrefixed(a, toId) + MapPrefixed(b, toId)
    ensures forall n :: MapPrefixed([n], toId) == if StartsWith(n, CollectionPrefix) then [toId(n)] else []
  {
    MapPrefixedConcat(a, b, toId);
    forall n
      ensures MapPrefixed([n], toId) == if StartsWith(n, CollectionPrefix) then [toId(n)] else []
    {
      assert [n][1..] == [];
    }
  }

  lemma {:induction false} MapPrefixedConcat(a: seq<string>, b: seq<string>, toId: string --> string)
    requires forall n :: StartsWith(n, CollectionPrefix) ==> toId.requires(n)
    ensures MapPrefixed(a + b, toId) == MapPrefixed(a, toId) + MapPrefixed(b, toId)
    decreases |a|
  {
    if |a| == 0 {
      assert a + b == b;
    } else {
      var ab := a + b;
      assert ab[1..] == a[1..] + b;
      assert ab[0] == a[0];
      MapPrefixedConcat(a[1..], b, toId);
      assert MapPrefixed(ab, toId) == (if StartsWith(a[0], CollectionPrefix) then [toId(a[0])] else []) + MapPrefixed(a[1..] + b, toId);
    }
  }

  /** The id the source reads off a collection name: `name.replace('doc_', '')`,
      which deletes every occurrence of the prefix, not only the leading one. */
  function IdOfName(name: string): string {
    RemoveAll(name, CollectionPrefix)
  }

  /** `list_documents` as written: the names of the listed collections that start
      with the prefix, each with every occurrence of the prefix deleted; nothing
      when listing raised (`None`). */
  function ListDocumentIds(listing: Option<seq<string>>): (ids: seq<string>)
    ensures listing.None? ==> ids == []
  {
    match listing
    case None => []
    case Some(names) => MapPrefixed(names, IdOfName)
  }

  /** Reading the id back off a collection name gives the id exactly when the id
      does not contain the prefix itself. */
  lemma IdOfNameRoundTrip(documentId: string)
    ensures IdOfName(CollectionName(documentId)) == documentId <==> !Contains(documentId, CollectionPrefix)
  {
    RemoveAllLeading(CollectionPrefix, documentId);
    RemoveAllUnchangedIff(documentId, CollectionPrefix);
  }

  /** The id `report_doc_0123abcd` (an upload named `report doc.pdf`, spaces
      replaced, then the digest's first 8 characters) is listed as `report_0123abcd`. */
  lemma ListingMangles()
    ensures ListDocumentIds(Some(NamesOf(["report_doc_0123abcd"]))) == ["report_0123abcd"]
  {
    var head, tail := "report_", "0123abcd";
    var d := head + (CollectionPrefix + tail);
    assert d == "report_doc_0123abcd";
    assert head + tail == "report_0123abcd";
    MangledId(head, tail);
    var names := NamesOf([d]);
    assert names[1..] == [];
    assert StartsWith(names[0], CollectionPrefix);
  }

  lemma MangledId(head: string, tail: string)
    requires head == "report_" && tail == "0123abcd"
    ensures IdOfName(CollectionName(head + (CollectionPrefix + tail))) == head + tail
  {
    forall j | 0 <= j < |head|
      ensures head[j] != CollectionPrefix[0]
    {
      assert j in {0, 1, 2, 3, 4, 5, 6};
    }
    PrefixedTail(tail);
    RemoveAllInner(head, tail, CollectionPrefix);
  }

  /** The pattern in front, then a stretch where it never starts, then the pattern again. */
  lemma RemoveAllInner(head: string, tail: string, pat: string)
    requires |pat| > 0
    requires forall j :: 0 <= j < |head| ==> head[j] != pat[0]
    requires RemoveAll(pat + tail, pat) == tail
    ensures RemoveAll(pat + (head + (pat + tail)), pat) == head + tail
  {
    RemoveAllKeepsFree(head, pat + tail, pat);
    RemoveAllLeading(pat, head + (pat + tail));
  }

  lemma PrefixedTail(tail: string)
    requires tail == "0123abcd"
    ensures RemoveAll(CollectionPrefix + tail, CollectionPrefix) == tail
  {
    var a, last := tail[..7], tail[7..];
    forall j | 0 <= j < |a|
      ensures a[j] != CollectionPrefix[0]
    {
      assert j in {0, 1, 2, 3, 4, 5, 6};
    }
    RemoveAllKeepsFree(a, last, CollectionPrefix);
    assert a + last == tail;
    RemoveAllLeading(CollectionPrefix, tail);
  }

  /** The id of a collection name, by removing the leading prefix only. */
  function IdOfNameByPrefix(name: string): (documentId: string)
    requires StartsWith(name, CollectionPrefix)
    ensures CollectionName(documentId) == name
  {
    name[|CollectionPrefix|..]
  }

  /** `list_documents` with the prefix stripped once, as the naming intends. */
  function ListDocumentIdsByPrefix(listing: Option<seq<string>>): (ids: seq<string>)
    ensures listing.None? ==> ids == []
  {
    match listing
    case None => []
    case Some(names) => MapPrefixed(names, IdOfNameByPrefix)
  }

  /** The collection names of some documents. */
  function NamesOf(ids: seq<string>): (names: seq<string>)
    ensures |names| == |ids| && forall i :: 0 <= i < |ids| ==> names[i] == CollectionName(ids[i])
  {
    seq(|ids|, i requires 0 <= i < |ids| => CollectionName(ids[i]))
  }

  /** Listing the collections of any documents gives back exactly those documents. */
  lemma {:induction false} ListByPrefixRoundTrip(ids: seq<string>)
    ensures ListDocumentIdsByPrefix(Some(NamesOf(ids))) == ids
  {
    ListByPrefixMaps(ids);
  }

  lemma {:induction false} ListByPrefixMaps(ids: seq<string>)
    ensures MapPrefixed(NamesOf(ids), IdOfNameByPrefix) == ids
  {
    if |ids| > 0 {
      var names := NamesOf(ids);
      assert names[1..] == NamesOf(ids[1..]);
      ListByPrefixMaps(ids[1..]);
      assert StartsWith(names[0], CollectionPrefix);
      CollectionNameInjective(IdOfNameByPrefix(names[0]), ids[0]);
    }
  }

  /** The listing as written gives back the documents exactly when none of their
      ids contains the prefix. */
  lemma {:induction false} ListRoundTripIff(ids: seq<string>)
    ensures (ListDocumentIds(Some(NamesOf(ids))) == ids)
              <==> forall i :: 0 <= i < |ids| ==> !Contains(ids[i], CollectionPrefix)
  {
    ListMaps(ids);
  }

  lemma {:induction false} ListMaps(ids: seq<string>)
    ensures (MapPrefixed(NamesOf(ids), IdOfName) == ids)
              <==> forall i :: 0 <= i < |ids| ==> !Contains(ids[i], CollectionPrefix)
  {
    if |ids| > 0 {
      var names := NamesOf(ids);
      assert names[1..] == NamesOf(ids[1..]);
      ListMaps(ids[1..]);
      assert StartsWith(names[0], CollectionPrefix);
      var m := MapPrefixed(names, IdOfName);
      assert m == [IdOfName(names[0])] + MapPrefixed(NamesOf(ids[1..]), IdOfName);
      IdOfNameRoundTrip(ids[0]);
      if m == ids {
        assert m[1..] == ids[1..];
      }
      assert forall i :: 1 <= i < |ids| ==> ids[i] == ids[1..][i - 1];
    }
  }

  // ---------------------------------------------------------------------------
  // Retrieval

  /** What the similarity query gave back for the one query embedding: parallel
      lists (one inner list per query) of texts, metadata and distances, or the
      raise that embedding or querying ended in. */
  datatype QueryReply =
    | QueryRaises
    | Rows(documents: seq<seq<string>>, metadatas: seq<seq<Metadata>>, distances: seq<seq<real>>)

  /** One ranked result. */
  datatype Retrieved = Retrieved(text: string, metadata: Metadata, similarityScore: real, rank: nat)

  /** The number of rows the first query returned. */
  function RowCount(reply: QueryReply): nat {
    if reply.Rows? && |reply.documents| > 0 then |reply.documents[0]| else 0
  }

  /** Metadata and distances exist for every returned text; otherwise indexing them raises. */
  predicate Aligned(reply: QueryReply) {
    && reply.Rows?
    && |reply.documents| > 0 && |reply.metadatas| > 0 && |reply.distances| > 0
    && |reply.metadatas[0]| >= |reply.documents[0]|
    && |reply.distances[0]| >= |reply.documents[0]|
  }

  /** The result-shaping part of `retrieve_relevant_chunks`: row `i` becomes the
      result ranked `i + 1`, with similarity `1 - distance`; no rows, a raise, or
      a raise while reading the rows gives no results. */
  function ShapeResults(reply: QueryReply): (r: seq<Retrieved>)
    ensures reply.QueryRaises? || RowCount(reply) == 0 ==> r == []
    ensures |r| == if Aligned(reply) then RowCount(reply) else 0
    ensures forall i :: 0 <= i < |r| ==>
              && r[i].rank == i + 1
              && r[i].text == reply.documents[0][i]
              && r[i].metadata == reply.metadatas[0][i]
              && r[i].similarityScore == 1.0 - reply.distances[0][i]
  {
    if !Aligned(reply) || RowCount(reply) == 0 then []
    else
      seq(RowCount(reply), i requires 0 <= i < RowCount(reply) =>
        Retrieved(reply.documents[0][i], reply.metadatas[0][i], 1.0 - reply.distances[0][i], i + 1))
  }

  predicate Nondecreasing(xs: seq<real>) {
    forall i, j :: 0 <= i < j < |xs| ==> xs[i] <= xs[j]
  }

  /** When the store returns rows nearest first, the results come out with
      non-increasing similarity and ranks 1, 2, 3, ... */
  lemma ResultsOrdered(reply: QueryReply)
    requires Aligned(reply) && Nondecreasing(reply.distances[0][..RowCount(reply)])
    ensures var r := ShapeResults(reply);
            forall i, j :: 0 <= i < j < |r| ==> r[i].similarityScore >= r[j].similarityScore && r[i].rank < r[j].rank
  {
    var r := ShapeResults(reply);
    var ds := reply.distances[0][..RowCount(reply)];
    forall i, j | 0 <= i < j < |r|
      ensures r[i].similarityScore >= r[j].similarityScore
    {
      assert ds[i] == reply.distances[0][i] && ds[j] == reply.distances[0][j];
    }
  }

  /** `retrieve_relevant_chunks`: the document's collection is created if it did
      not exist (that happens before the query), then the rows are shaped. */
  function Retrieve(store: Collections, documentId: string, reply: QueryReply): (r: (Collections, seq<Retrieved>))
    ensures CollectionName(documentId) in r.0
    ensures forall name :: name != CollectionName(documentId) ==> (name in r.0 <==> name in store)
    ensures |r.1| == if Aligned(reply) then RowCount(reply) else 0
    ensures forall i :: 0 <= i < |r.1| ==> r.1[i].rank == i + 1 && r.1[i].text == reply.documents[0][i]
  {
    (CreateOrGet(store, documentId), ShapeResults(reply))
  }
}
