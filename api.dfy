/** The frontend's HTTP client (api.ts), reduced to what the components rely on: the
    document record it returns and the parameters of a search request, with their
    defaults. The transport itself is not modelled. */
module Api {

  const ApiBaseUrl: string := "http://localhost:8089/api"

  /** A document as the backend returns it. */
  datatype Document = Document(id: int, title: string, text: string)

  /** The query parameters of GET /documents/search. */
  datatype SearchRequest = SearchRequest(query: string, maxResults: int, algo: string)

  /** `api.searchDocuments(query, maxResults, algo)`: the request it sends. */
  function SearchDocuments(query: string, maxResults: int := 3, algo: string := "tfidf"): (r: SearchRequest)
    ensures r.query == query && r.maxResults == maxResults && r.algo == algo
  {
    SearchRequest(query, maxResults, algo)
  }

  /** A caller that gives only the query asks for three results ranked with tf-idf;
      one that gives a count keeps tf-idf. */
  lemma SearchDefaults(query: string, maxResults: int)
    ensures SearchDocuments(query) == SearchRequest(query, 3, "tfidf")
    ensures SearchDocuments(query, maxResults) == SearchRequest(query, maxResults, "tfidf")
  {
  }
}
