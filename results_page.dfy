/** The results page (ResultsPage): the query comes from the URL's q parameter; on
    arrival the page searches with the client's defaults, then shows a loader, a
    "No results found" message or the list of results, each with its title and a
    150-character preview highlighted the way the search box highlights. */
module Results {
  import opened Text
  import opened Api
  import opened Highlighting

  /** The length of a result's preview, before the marker. */
  const ResultPreview: nat := 150

  /** One result as drawn. */
  datatype ResultItem = ResultItem(id: int, title: seq<Part>, snippet: seq<Part>)

  /** The three ways the page can look below the search box. */
  datatype View =
    | Loading
    | NoResults(heading: string)
    | ResultList(heading: string, items: seq<ResultItem>)

  function Item(doc: Document, query: string): ResultItem {
    ResultItem(doc.id, Highlight(doc.title, query), Highlight(Snippet(doc.text, ResultPreview), query))
  }

  /** The page's render choice: the loader while loading; otherwise the message when
      there are no results, and the list of every result, in order, when there are. */
  function Render(query: string, isLoading: bool, results: seq<Document>): (v: View)
    ensures v.Loading? <==> isLoading
    ensures v.NoResults? <==> !isLoading && results == []
    ensures v.NoResults? ==> v.heading == "No results found for \"" + query + "\""
    ensures v.ResultList? ==> v.heading == "Search Results for \"" + query + "\""
    ensures v.ResultList? ==> |v.items| == |results|
    ensures v.ResultList? ==> forall i :: 0 <= i < |results| ==> v.items[i].id == results[i].id
  {
    if isLoading then Loading
    else if |results| == 0 then NoResults("No results found for \"" + query + "\"")
    else ResultList("Search Results for \"" + query + "\"",
      seq(|results|, i requires 0 <= i < |results| => Item(results[i], query)))
  }

  /** Each listed result shows its whole title and its preview: the first 150 characters
      of its text followed by "...". */
  lemma ListedResultShowsDocument(query: string, results: seq<Document>, i: nat)
    requires i < |results|
    ensures Render(query, false, results).ResultList?
    ensures Shown(Render(query, false, results).items[i].title) == results[i].title
    ensures Shown(Render(query, false, results).items[i].snippet) == Snippet(results[i].text, ResultPreview)
    ensures |Shown(Render(query, false, results).items[i].snippet)| <= ResultPreview + 3
  {
    HighlightShowsText(results[i].title, query);
    HighlightShowsText(Snippet(results[i].text, ResultPreview), query);
  }

  class ResultsPage {
    const query: string
    var results: seq<Document>
    var isLoading: bool

    /** The first render, with `qParam` the value of the URL's q parameter (None when
        absent): a missing or empty value gives the empty query. */
    constructor(qParam: Option<string>)
      ensures query == qParam.GetOr("") && results == [] && isLoading
    {
      query := qParam.GetOr("");
      results := [];
      isLoading := true;
    }

    /** `fetchResults` up to its `await`: the loader goes up and the search is sent with
        the client's default count and ranking. */
    method BeginFetch() returns (request: SearchRequest)
      modifies this
      ensures isLoading && results == old(results)
      ensures request == SearchDocuments(query) && request == SearchRequest(query, 3, "tfidf")
    {
      isLoading := true;
      request := SearchDocuments(query);
    }

    /** `fetchResults` after its `await`: the results are stored as received, or emptied
        when the request failed, and the loader comes down. */
    method FinishFetch(response: Option<seq<Document>>)
      modifies this
      ensures !isLoading
      ensures results == if response.Some? then response.value else []
    {
      if response.Some? {
        results := response.value;
      } else {
        results := [];
      }
      isLoading := false;
    }

    /** The whole of `fetchResults`, the request settling with `response`. */
    method FetchResults(response: Option<seq<Document>>) returns (request: SearchRequest)
      modifies this
      ensures request == SearchRequest(query, 3, "tfidf")
      ensures !isLoading && results == if response.Some? then response.value else []
    {
      request := BeginFetch();
      FinishFetch(response);
    }

    function View(): View
      reads this
    {
      Render(query, isLoading, results)
    }
  }

  /** A failed search reads as an empty one: once it settles, the page shows the
      "No results found" message for the query. */
  lemma FailureShowsNoResults(query: string)
    ensures Render(query, false, []) == NoResults("No results found for \"" + query + "\"")
  {
  }
}
