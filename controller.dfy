/** The backend's DocumentController: the document repository (a map from id to stored
    document) and the search index (the documents handed to the indexer, in order),
    with the add, search, get and delete handlers. The database assigns ids and the
    indexer can fail; both are parameters. Ranking is the search service's and is a
    parameter too. */
module Backend {
  import opened Text

  datatype Document = Document(id: Option<int>, title: string, text: string)

  /** A ResponseEntity: the status code and the body, None for an empty or null body. */
  datatype Response<T> = Response(status: int, body: Option<T>)

  /** The `algo` values the handler accepts: "tfidf" or "bm25", ignoring case as Java's
      `equalsIgnoreCase` does. */
  predicate AlgoAccepted(algo: string) {
    JavaEqualsIgnoreCase(algo, "tfidf") || JavaEqualsIgnoreCase(algo, "bm25")
  }

  /** The index the search service ranks with. */
  datatype Ranking = Bm25Index | TfIdfIndex

  /** The service's choice: the BM25 index when `algo` equals "bm25" ignoring case, the
      tf-idf index otherwise. */
  function RankingFor(algo: string): (r: Ranking)
    ensures r == Bm25Index <==> JavaEqualsIgnoreCase(algo, "bm25")
  {
    if JavaEqualsIgnoreCase(algo, "bm25") then Bm25Index else TfIdfIndex
  }

  /** The call the handler makes to the search service. */
  datatype SearchCall = SearchCall(query: string, maxResults: int, algo: string)

  /** GET /api/documents/search. `query`, `maxResults` and `algo` are the request's
      parameters (None when absent) and `service` what the search service returns for
      the call (None when it throws). Spring answers 400 for a missing required
      parameter; the handler answers 400 with a null body for an unknown algorithm,
      and otherwise forwards the parameters to the service, `maxResults` defaulting to
      3, and returns its results with 200; an exception of the service becomes 500. */
  function SearchDocuments(query: Option<string>, maxResults: Option<int>, algo: Option<string>,
                           service: Option<seq<Document>>): (Option<SearchCall>, Response<seq<Document>>)
  {
    if query.None? || algo.None? then (None, Response(400, None))
    else if !AlgoAccepted(algo.value) then (None, Response(400, None))
    else
      var call := SearchCall(query.value, maxResults.GetOr(3), algo.value);
      match service
      case Some(results) => (Some(call), Response(200, Some(results)))
      case None => (Some(call), Response(500, None))
  }

  /** A request with an algorithm outside the whitelist is refused with 400 and a null
      body, and the service is not called. */
  lemma UnknownAlgoRefused(query: string, maxResults: Option<int>, algo: string, service: Option<seq<Document>>)
    requires !AlgoAccepted(algo)
    ensures SearchDocuments(Some(query), maxResults, Some(algo), service) == (None, Response(400, None))
  {
  }

  /** An accepted request reaches the service with the query and algorithm unchanged and
      the count defaulting to 3, and its results come back unchanged with 200. */
  lemma AcceptedRequestForwarded(query: string, maxResults: Option<int>, algo: string, service: Option<seq<Document>>)
    requires AlgoAccepted(algo)
    ensures SearchDocuments(Some(query), maxResults, Some(algo), service).0
      == Some(SearchCall(query, if maxResults.Some? then maxResults.value else 3, algo))
    ensures service.Some? ==> SearchDocuments(Some(query), maxResults, Some(algo), service).1 == Response(200, service)
    ensures service.None? ==> SearchDocuments(Some(query), maxResults, Some(algo), service).1.status == 500
  {
  }

  /** The service is called exactly when both required parameters are there and the
      algorithm is accepted. */
  lemma ServiceCalledExactlyWhenValid(query: Option<string>, maxResults: Option<int>, algo: Option<string>,
                                      service: Option<seq<Document>>)
    ensures SearchDocuments(query, maxResults, algo, service).0.Some?
      <==> query.Some? && algo.Some? && AlgoAccepted(algo.value)
    ensures SearchDocuments(query, maxResults, algo, service).1.status == 400
      <==> SearchDocuments(query, maxResults, algo, service).0.None?
  {
  }

  lemma TfIdfCaseless()
    ensures JavaEqualsIgnoreCase("TFIDF", "tfidf") && JavaEqualsIgnoreCase("TfIdf", "tfidf")
  {
    assert LowerChar('T') == 't' && LowerChar('F') == 'f' && LowerChar('I') == 'i' && LowerChar('D') == 'd';
  }

  lemma Bm25Caseless()
    ensures JavaEqualsIgnoreCase("BM25", "bm25") && RankingFor("BM25") == Bm25Index
  {
    assert LowerChar('B') == 'b' && LowerChar('M') == 'm';
  }

  /** The whitelist in examples: "TFIDF", "TfIdf" and "BM25" are accepted and pick
      their own index; a hyphenated name or an empty one is refused. */
  lemma AlgoExamples()
    ensures AlgoAccepted("TFIDF") && AlgoAccepted("TfIdf") && RankingFor("TFIDF") == TfIdfIndex
    ensures AlgoAccepted("BM25") && RankingFor("BM25") == Bm25Index
    ensures !AlgoAccepted("tf-idf") && !AlgoAccepted("")
  {
    TfIdfCaseless();
    Bm25Caseless();
    assert !JavaCharEqualsIgnoreCase('-', 'i');
  }

  /** Any capitalisation of the two names is accepted: a name whose ASCII lowering is
      "tfidf" or "bm25" passes the whitelist and picks the index it names. */
  lemma CaselessAccepted(s: string)
    requires Lower(s) == "tfidf" || Lower(s) == "bm25"
    ensures AlgoAccepted(s)
    ensures RankingFor(s) == (if Lower(s) == "bm25" then Bm25Index else TfIdfIndex)
  {
    var t := Lower(s);
    assert forall k :: 0 <= k < |s| ==> LowerChar(s[k]) == t[k] == LowerChar(t[k]);
    assert JavaEqualsIgnoreCase(s, t);
  }

  /** Java's case-insensitive comparison also folds the dotless i onto 'i', so "tfıdf"
      passes the whitelist (and is ranked with tf-idf). */
  lemma DotlessIAccepted()
    ensures AlgoAccepted("tf\U{0131}df") && RankingFor("tf\U{0131}df") == TfIdfIndex
  {
    assert JavaCharEqualsIgnoreCase('\U{0131}', 'i');
    assert !JavaCharEqualsIgnoreCase('t', 'b');
  }

  /** What the search service returns for the ids of the hits the index ranks, best
      first: each hit is looked up in the repository and dropped when it is not stored
      there any more. */
  function StoredHits(repository: map<int, Document>, hits: seq<int>): (r: seq<Document>)
    ensures |r| <= |hits|
  {
    if hits == [] then []
    else (if hits[0] in repository then [repository[hits[0]]] else []) + StoredHits(repository, hits[1..])
  }

  /** `d` is the stored document of one of the hits. */
  predicate FromHit(repository: map<int, Document>, hits: seq<int>, d: Document) {
    exists j :: 0 <= j < |hits| && hits[j] in repository && d == repository[hits[j]]
  }

  lemma FromLaterHit(repository: map<int, Document>, hits: seq<int>, d: Document)
    requires hits != [] && FromHit(repository, hits[1..], d)
    ensures FromHit(repository, hits, d)
  {
    var j :| 0 <= j < |hits[1..]| && hits[1..][j] in repository && d == repository[hits[1..][j]];
    assert hits[j + 1] == hits[1..][j];
  }

  /** Only documents of hits come back, each the one stored under its own id. */
  lemma {:induction false} StoredHitsSound(repository: map<int, Document>, hits: seq<int>)
    ensures forall i :: 0 <= i < |StoredHits(repository, hits)| ==> FromHit(repository, hits, StoredHits(repository, hits)[i])
    ensures KeyedById(repository) ==> forall i :: 0 <= i < |StoredHits(repository, hits)| ==>
      var d := StoredHits(repository, hits)[i];
      d.id.Some? && d.id.value in repository && repository[d.id.value] == d
  {
    if hits != [] {
      StoredHitsSound(repository, hits[1..]);
      var head := if hits[0] in repository then [repository[hits[0]]] else [];
      var tail := StoredHits(repository, hits[1..]);
      forall i | 0 <= i < |head + tail|
        ensures FromHit(repository, hits, (head + tail)[i])
      {
        if i >= |head| {
          assert (head + tail)[i] == tail[i - |head|];
          FromLaterHit(repository, hits, tail[i - |head|]);
        }
      }
    }
    if KeyedById(repository) {
      forall i | 0 <= i < |StoredHits(repository, hits)|
        ensures var d := StoredHits(repository, hits)[i];
          d.id.Some? && d.id.value in repository && repository[d.id.value] == d
      {
        var d := StoredHits(repository, hits)[i];
        assert FromHit(repository, hits, d);
        var j :| 0 <= j < |hits| && hits[j] in repository && d == repository[hits[j]];
        var id := hits[j];
        assert id in repository && KeyedById(repository);
        assert repository[id].id == Some(id);
      }
    }
  }

  /** Every hit still stored comes back; when all are stored, one document per hit. */
  lemma {:induction false} StoredHitsComplete(repository: map<int, Document>, hits: seq<int>)
    ensures forall id :: id in hits && id in repository ==> repository[id] in StoredHits(repository, hits)
    ensures (forall i :: 0 <= i < |hits| ==> hits[i] in repository) ==> |StoredHits(repository, hits)| == |hits|
  {
    if hits != [] {
      StoredHitsComplete(repository, hits[1..]);
      assert forall id :: id in hits ==> id == hits[0] || id in hits[1..];
      assert forall i :: 0 <= i < |hits[1..]| ==> hits[1..][i] == hits[i + 1];
    }
  }

  /** A single hit comes back exactly when its document is still stored. */
  lemma StoredHit(repository: map<int, Document>, id: int)
    ensures StoredHits(repository, [id]) == if id in repository then [repository[id]] else []
  {
    assert [id][1..] == [];
  }

  /** The hits are looked up one after the other: the results keep the rank order. */
  lemma {:induction false} StoredHitsAppend(repository: map<int, Document>, a: seq<int>, b: seq<int>)
    ensures StoredHits(repository, a + b) == StoredHits(repository, a) + StoredHits(repository, b)
  {
    if a == [] {
      assert a + b == b;
    } else {
      assert (a + b)[0] == a[0] && (a + b)[1..] == a[1..] + b;
      StoredHitsAppend(repository, a[1..], b);
    }
  }

  /** The stored form of `doc` once the database has given it `id`. */
  function Saved(doc: Document, id: int): Document {
    doc.(id := Some(id))
  }

  /** `saveAll`: the documents saved one after the other, the n-th under `ids[n]`. */
  function SaveAll(repository: map<int, Document>, docs: seq<Document>, ids: seq<int>): map<int, Document>
    requires |ids| == |docs|
    decreases |docs|
  {
    if docs == [] then repository
    else SaveAll(repository[ids[0] := Saved(docs[0], ids[0])], docs[1..], ids[1..])
  }

  /** The saved documents, in input order. */
  function SavedDocs(docs: seq<Document>, ids: seq<int>): (r: seq<Document>)
    requires |ids| == |docs|
    ensures |r| == |docs|
    ensures forall i :: 0 <= i < |r| ==>
      r[i].id == Some(ids[i]) && r[i].title == docs[i].title && r[i].text == docs[i].text
  {
    seq(|docs|, i requires 0 <= i < |docs| => Saved(docs[i], ids[i]))
  }

  /** The database keeps a document's own id; fresh ids for the others are its choice. */
  predicate IdsFor(docs: seq<Document>, ids: seq<int>) {
    |ids| == |docs| && forall i :: 0 <= i < |docs| && docs[i].id.Some? ==> ids[i] == docs[i].id.value
  }

  /** Every stored document is stored under its own id. */
  predicate KeyedById(repository: map<int, Document>) {
    forall id :: id in repository ==> repository[id].id == Some(id)
  }

  lemma {:induction false} SaveAllKeyed(repository: map<int, Document>, docs: seq<Document>, ids: seq<int>)
    requires |ids| == |docs| && KeyedById(repository)
    ensures KeyedById(SaveAll(repository, docs, ids))
    decreases |docs|
  {
    if docs != [] {
      SaveAllKeyed(repository[ids[0] := Saved(docs[0], ids[0])], docs[1..], ids[1..]);
    }
  }

  /** After `saveAll` the last document saved under an id is the one stored there, and
      ids not used are left alone. */
  lemma {:induction false} SaveAllStores(repository: map<int, Document>, docs: seq<Document>, ids: seq<int>, i: nat)
    requires |ids| == |docs| && i < |docs|
    requires forall j :: i < j < |docs| ==> ids[j] != ids[i]
    ensures ids[i] in SaveAll(repository, docs, ids) && SaveAll(repository, docs, ids)[ids[i]] == Saved(docs[i], ids[i])
    decreases |docs|
  {
    var next := repository[ids[0] := Saved(docs[0], ids[0])];
    if i == 0 {
      assert ids[0] !in ids[1..] by {
        assert forall j :: 0 <= j < |ids[1..]| ==> ids[1..][j] == ids[j + 1];
      }
      SaveAllUntouched(next, docs[1..], ids[1..], ids[0]);
    } else {
      SaveAllStores(next, docs[1..], ids[1..], i - 1);
    }
  }

  lemma {:induction false} SaveAllUntouched(repository: map<int, Document>, docs: seq<Document>, ids: seq<int>, id: int)
    requires |ids| == |docs|
    requires id !in ids
    ensures id in repository ==> id in SaveAll(repository, docs, ids) && SaveAll(repository, docs, ids)[id] == repository[id]
    ensures id !in repository ==> id !in SaveAll(repository, docs, ids)
    decreases |docs|
  {
    if docs != [] {
      assert ids == [ids[0]] + ids[1..];
      SaveAllUntouched(repository[ids[0] := Saved(docs[0], ids[0])], docs[1..], ids[1..], id);
    }
  }

  /** After `saveAll`, a lookup finds each document last saved under its id. */
  lemma SaveAllFinds(repository: map<int, Document>, docs: seq<Document>, ids: seq<int>)
    requires |ids| == |docs|
    ensures forall i :: 0 <= i < |docs| && (forall j :: i < j < |docs| ==> ids[j] != ids[i]) ==>
      ids[i] in SaveAll(repository, docs, ids) && SaveAll(repository, docs, ids)[ids[i]] == Saved(docs[i], ids[i])
  {
    forall i | 0 <= i < |docs| && (forall j :: i < j < |docs| ==> ids[j] != ids[i])
      ensures ids[i] in SaveAll(repository, docs, ids) && SaveAll(repository, docs, ids)[ids[i]] == Saved(docs[i], ids[i])
    {
      SaveAllStores(repository, docs, ids, i);
    }
  }

  /** After `saveAll`, a lookup of an id it did not use finds what was there before. */
  lemma SaveAllKeeps(repository: map<int, Document>, docs: seq<Document>, ids: seq<int>)
    requires |ids| == |docs|
    ensures forall id :: id !in ids ==>
      (id in SaveAll(repository, docs, ids) <==> id in repository)
      && (id in repository ==> SaveAll(repository, docs, ids)[id] == repository[id])
  {
    forall id | id !in ids
      ensures (id in SaveAll(repository, docs, ids) <==> id in repository)
        && (id in repository ==> SaveAll(repository, docs, ids)[id] == repository[id])
    {
      SaveAllUntouched(repository, docs, ids, id);
    }
  }

  /** The index without the entries of document `id`. */
  function WithoutId(index: seq<Document>, id: int): (r: seq<Document>)
    ensures |r| <= |index|
    ensures forall i :: 0 <= i < |r| ==> r[i].id != Some(id)
    ensures forall d :: d in index && d.id != Some(id) ==> d in r
    ensures forall d :: d in r ==> d in index
    ensures forall d :: multiset(r)[d] == if d.id == Some(id) then 0 else multiset(index)[d]
  {
    if index == [] then []
    else
      assert index == [index[0]] + index[1..];
      if index[0].id == Some(id) then WithoutId(index[1..], id)
      else [index[0]] + WithoutId(index[1..], id)
  }

  /** How many of `count` documents get indexed when indexing fails at position
      `failsAt` (None: it does not fail). */
  function IndexedCount(count: nat, failsAt: Option<nat>): (n: nat)
    ensures n <= count
    ensures n < count <==> failsAt.Some? && failsAt.value < count
  {
    if failsAt.Some? && failsAt.value < count then failsAt.value else count
  }

  const DeletedMessage: string := "Document deleted successfully."
  const DeleteErrorPrefix: string := "Error deleting document: "

  class DocumentController {
    var repository: map<int, Document>
    var index: seq<Document>

    ghost predicate Valid()
      reads this
    {
      KeyedById(repository)
    }

    constructor()
      ensures Valid() && repository == map[] && index == []
    {
      repository := map[];
      index := [];
    }

    /** GET /api/documents/{id}: 200 with the stored document, 404 with no body when
        there is none. */
    function GetDocumentById(id: int): (r: Response<Document>)
      reads this
      ensures r.status == 200 <==> id in repository
      ensures r.status == 200 ==> r.body == Some(repository[id])
      ensures r.status != 200 ==> r == Response(404, None)
    {
      if id in repository then Response(200, Some(repository[id])) else Response(404, None)
    }

    /** GET /api/documents/search against this repository, `hits` being the ids the
        chosen index ranks (None when the service throws): every document returned is
        stored under its own id, so a deleted document is never returned even when its
        index entry is still there. */
    function Search(query: Option<string>, maxResults: Option<int>, algo: Option<string>,
                    hits: Option<seq<int>>): (r: (Option<SearchCall>, Response<seq<Document>>))
      requires Valid()
      reads this
      ensures r.1.body.Some? ==>
        forall i :: 0 <= i < |r.1.body.value| ==>
          r.1.body.value[i].id.Some? && r.1.body.value[i].id.value in repository
          && repository[r.1.body.value[i].id.value] == r.1.body.value[i]
      ensures r.1.status == 200 ==> hits.Some? && r.1.body == Some(StoredHits(repository, hits.value))
    {
      if hits.Some? then StoredHitsSound(repository, hits.value); SearchDocuments(query, maxResults, algo, Some(StoredHits(repository, hits.value)))
      else SearchDocuments(query, maxResults, algo, None)
    }

    /** POST /api/documents: the document is saved first (under `newId`, its own id
        when it has one), then the saved document is indexed; with the index written
        the answer is 200 with the saved document. A failing save (`saveOk` false)
        stores and indexes nothing and becomes 500; a failing index write becomes 500
        with the saved document still stored. */
    method AddDocument(doc: Document, newId: int, saveOk: bool, indexOk: bool) returns (response: Response<Document>)
      requires Valid()
      requires doc.id.Some? ==> newId == doc.id.value
      modifies this
      ensures Valid()
      ensures !saveOk ==> repository == old(repository) && index == old(index) && response == Response(500, None)
      ensures saveOk ==> repository == old(repository)[newId := Saved(doc, newId)]
      ensures saveOk ==> GetDocumentById(newId) == Response(200, Some(Saved(doc, newId)))
      ensures saveOk && indexOk ==> index == old(index) + [Saved(doc, newId)] && response == Response(200, Some(Saved(doc, newId)))
      ensures saveOk && !indexOk ==> index == old(index) && response == Response(500, None)
    {
      if !saveOk {
        return Response(500, None);
      }
      var saved := Saved(doc, newId);
      repository := repository[newId := saved];
      if !indexOk {
        return Response(500, None);
      }
      index := index + [saved];
      response := Response(200, Some(saved));
    }

    /** `saveAll`: the documents are saved one after the other, the n-th under
        `newIds[n]`. */
    method SaveAllDocuments(docs: seq<Document>, newIds: seq<int>)
      requires Valid()
      requires |newIds| == |docs|
      modifies this
      ensures Valid()
      ensures repository == SaveAll(old(repository), docs, newIds)
      ensures index == old(index)
    {
      var i := 0;
      while i < |docs|
        invariant 0 <= i <= |docs|
        invariant SaveAll(repository, docs[i..], newIds[i..]) == SaveAll(old(repository), docs, newIds)
        invariant KeyedById(repository)
        invariant index == old(index)
      {
        assert docs[i..][1..] == docs[i + 1..] && newIds[i..][1..] == newIds[i + 1..];
        repository := repository[newIds[i] := Saved(docs[i], newIds[i])];
        i := i + 1;
      }
      assert docs[i..] == [];
    }

    /** The indexing loop of POST /api/documents/many: the saved documents are indexed
        in order until the indexer fails at position `failsAt`; the result says whether
        all of them were. */
    method IndexAll(saved: seq<Document>, failsAt: Option<nat>) returns (complete: bool)
      modifies this
      ensures repository == old(repository)
      ensures index == old(index) + saved[..IndexedCount(|saved|, failsAt)]
      ensures complete <==> IndexedCount(|saved|, failsAt) == |saved|
    {
      var n := 0;
      while n < |saved|
        invariant 0 <= n <= IndexedCount(|saved|, failsAt)
        invariant index == old(index) + saved[..n]
        invariant repository == old(repository)
      {
        if failsAt == Some(n) {
          return false;
        }
        assert saved[..n + 1] == saved[..n] + [saved[n]];
        index := index + [saved[n]];
        n := n + 1;
      }
      assert saved[..n] == saved;
      complete := true;
    }

    /** POST /api/documents/many: all documents are saved in one transaction, then each
        input document is indexed in order. A failing `saveAll` (`saveOk` false) is
        rolled back: nothing is stored or indexed, and the answer is 500. */
    method AddDocuments(docs: seq<Document>, newIds: seq<int>, saveOk: bool, indexFailsAt: Option<nat>)
      returns (response: Response<seq<Document>>)
      requires Valid()
      requires IdsFor(docs, newIds)
      modifies this
      ensures Valid()
      ensures !saveOk ==> repository == old(repository) && index == old(index) && response == Response(500, None)
      ensures saveOk ==> repository == SaveAll(old(repository), docs, newIds)
      ensures saveOk ==> index == old(index) + SavedDocs(docs, newIds)[..IndexedCount(|docs|, indexFailsAt)]
      ensures saveOk && IndexedCount(|docs|, indexFailsAt) == |docs| ==> response == Response(200, Some(SavedDocs(docs, newIds)))
      ensures saveOk && IndexedCount(|docs|, indexFailsAt) < |docs| ==> response == Response(500, None)
      ensures saveOk ==> forall i :: 0 <= i < |docs| && (forall j :: i < j < |docs| ==> newIds[j] != newIds[i]) ==>
        GetDocumentById(newIds[i]) == Response(200, Some(Saved(docs[i], newIds[i])))
      ensures forall id :: id !in newIds ==> GetDocumentById(id) == old(GetDocumentById(id))
    {
      if !saveOk {
        return Response(500, None);
      }
      SaveAllFinds(repository, docs, newIds);
      SaveAllKeeps(repository, docs, newIds);
      response := SaveAndIndex(docs, newIds, indexFailsAt);
    }

    /** The body of POST /api/documents/many once `saveAll` succeeds: the documents are
        saved, then each input document (carrying the id the save gave it) is indexed
        in input order until the indexer fails at position `indexFailsAt`; the answer is
        200 with the saved documents when all were indexed, 500 otherwise, the saved
        documents staying stored. */
    method SaveAndIndex(docs: seq<Document>, newIds: seq<int>, indexFailsAt: Option<nat>)
      returns (response: Response<seq<Document>>)
      requires Valid()
      requires IdsFor(docs, newIds)
      modifies this
      ensures Valid()
      ensures repository == SaveAll(old(repository), docs, newIds)
      ensures index == old(index) + SavedDocs(docs, newIds)[..IndexedCount(|docs|, indexFailsAt)]
      ensures IndexedCount(|docs|, indexFailsAt) == |docs| ==> response == Response(200, Some(SavedDocs(docs, newIds)))
      ensures IndexedCount(|docs|, indexFailsAt) < |docs| ==> response == Response(500, None)
    {
      SaveAllDocuments(docs, newIds);
      var saved := SavedDocs(docs, newIds);
      var complete := IndexAll(saved, indexFailsAt);
      if complete {
        response := Response(200, Some(saved));
      } else {
        response := Response(500, None);
      }
    }

    /** A search answers with at most as many documents as the index ranked, so at most
        `maxResults` when the index keeps to the count it was asked for. */
    lemma SearchAnswersAtMost(query: Option<string>, maxResults: Option<int>, algo: Option<string>, hits: Option<seq<int>>)
      requires Valid()
      requires hits.Some? ==> |hits.value| <= maxResults.GetOr(3)
      ensures Search(query, maxResults, algo, hits).1.body.Some? ==>
        |Search(query, maxResults, algo, hits).1.body.value| <= maxResults.GetOr(3)
    {
    }

    /** DELETE /api/documents/documents/{id}: the stored document is deleted, then the
        search service deletes it from the index; the answer is 200 with a confirmation,
        or 500 with the service's error message, the stored document being gone either
        way. */
    method DeleteDocument(id: int, indexError: Option<string>) returns (response: Response<string>)
      requires Valid()
      modifies this
      ensures Valid()
      ensures repository == old(repository) - {id}
      ensures GetDocumentById(id) == Response(404, None)
      ensures indexError.None? ==> index == WithoutId(old(index), id) && response == Response(200, Some(DeletedMessage))
      ensures indexError.Some? ==>
        index == old(index) && response == Response(500, Some(DeleteErrorPrefix + indexError.value))
    {
      repository := repository - {id};
      if indexError.Some? {
        return Response(500, Some(DeleteErrorPrefix + indexError.value));
      }
      index := WithoutId(index, id);
      response := Response(200, Some(DeletedMessage));
    }
  }
}
