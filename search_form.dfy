/** The search box (SearchForm): the query typed so far, whether the input has the
    focus, and the suggestions of the last search. A non-blank query asks for five
    results and turns each into a suggestion with a 100-character preview; submitting
    navigates to the results page with the query encoded into the URL. */
module SearchBox {
  import opened Text
  import opened Api
  import opened Highlighting
  import opened UriComponent

  /** One entry of the suggestion panel. */
  datatype Suggestion = Suggestion(id: int, title: string, snippet: string)

  /** The length of a suggestion's preview, before the marker. */
  const SuggestionPreview: nat := 100

  /** The results, in order, as suggestions: the same id and title, and the first 100
      characters of the text followed by "...". */
  function ToSuggestions(docs: seq<Document>): (r: seq<Suggestion>)
    ensures |r| == |docs|
    ensures forall i :: 0 <= i < |r| ==> r[i].id == docs[i].id && r[i].title == docs[i].title
    ensures forall i :: 0 <= i < |r| ==>
      3 <= |r[i].snippet| <= SuggestionPreview + 3 && r[i].snippet[|r[i].snippet| - 3..] == "..."
      && r[i].snippet[..|r[i].snippet| - 3] <= docs[i].text
    ensures forall i :: 0 <= i < |r| && SuggestionPreview <= |docs[i].text| ==> |r[i].snippet| == SuggestionPreview + 3
    ensures forall i :: 0 <= i < |r| && |docs[i].text| <= SuggestionPreview ==> r[i].snippet == docs[i].text + "..."
    ensures forall i :: 0 <= i < |r| && SuggestionPreview <= |docs[i].text| ==>
      r[i].snippet == docs[i].text[..SuggestionPreview] + "..."
  {
    seq(|docs|, i requires 0 <= i < |docs| =>
      Suggestion(docs[i].id, docs[i].title, Snippet(docs[i].text, SuggestionPreview)))
  }

  /** The URL `handleSubmit` navigates to, None when it does not navigate. */
  function SubmitTarget(query: string): (r: Option<string>)
    ensures r.Some? <==> !IsBlank(query)
  {
    if IsBlank(query) then None else Some("/results?q=" + Encode(query))
  }

  /** No character that would end the parameter value or change its meaning. */
  predicate PlainInQueryValue(c: char) {
    c != '&' && c != '#' && c != '+' && c != '=' && c != ' '
  }

  /** Submitting a non-blank query leads to a URL whose single parameter q holds the
      untrimmed query, recoverable by decoding; the encoded value carries none of the
      characters that would end or split the parameter. */
  lemma SubmitKeepsQuery(query: string)
    requires !IsBlank(query)
    ensures SubmitTarget(query) == Some("/results?q=" + Encode(query))
    ensures Decode(Encode(query)) == Some(query)
    ensures forall i :: 0 <= i < |Encode(query)| ==> PlainInQueryValue(Encode(query)[i])
  {
    DecodeEncode(query);
    var e := Encode(query);
    EncodedAlphabet(query);
    forall i | 0 <= i < |e|
      ensures PlainInQueryValue(e[i])
    {
      EncodedCharIsPlain(e[i]);
    }
  }

  lemma EncodedCharIsPlain(c: char)
    requires IsUnreserved(c) || c == '%' || IsHexDigit(c)
    ensures PlainInQueryValue(c)
  {
  }

  /** A suggestion as it is drawn: its title and its preview, each highlighted. */
  datatype SuggestionView = SuggestionView(id: int, title: seq<Part>, snippet: seq<Part>)

  class SearchForm {
    var query: string
    var isFocused: bool
    var suggestions: seq<Suggestion>

    constructor()
      ensures query == "" && !isFocused && suggestions == []
    {
      query := "";
      isFocused := false;
      suggestions := [];
    }

    /** The input's change handler. */
    method SetQuery(value: string)
      modifies this
      ensures query == value && isFocused == old(isFocused) && suggestions == old(suggestions)
    {
      query := value;
    }

    /** `fetchSuggestions`, run once the typing pauses, with `response` the outcome of
        the search it sends (None when the request fails). A blank query sends nothing
        and clears the suggestions; otherwise the search asks for five results and the
        suggestions become those results, or nothing when the request failed. */
    method FetchSuggestions(response: Option<seq<Document>>) returns (request: Option<SearchRequest>)
      modifies this
      ensures IsBlank(query) ==> request == None && suggestions == []
      ensures !IsBlank(query) ==> request == Some(SearchDocuments(query, 5))
      ensures !IsBlank(query) && response.Some? ==> suggestions == ToSuggestions(response.value)
      ensures !IsBlank(query) && response.None? ==> suggestions == []
      ensures response.Some? && |response.value| <= 5 ==> |suggestions| <= 5
      ensures query == old(query) && isFocused == old(isFocused)
    {
      if !IsBlank(query) {
        request := Some(SearchDocuments(query, 5));
        match response
        case Some(results) =>
          suggestions := ToSuggestions(results);
        case None =>
          suggestions := [];
      } else {
        request := None;
        suggestions := [];
      }
    }

    method Focus()
      modifies this
      ensures isFocused && query == old(query) && suggestions == old(suggestions)
    {
      isFocused := true;
    }

    /** The focus is dropped once the blur's delay has passed. */
    method Blur()
      modifies this
      ensures !isFocused && query == old(query) && suggestions == old(suggestions)
    {
      isFocused := false;
    }

    /** `handleSubmit`: the URL navigated to, if any. */
    method Submit() returns (target: Option<string>)
      ensures target == SubmitTarget(query)
    {
      if !IsBlank(query) {
        target := Some("/results?q=" + Encode(query));
      } else {
        target := None;
      }
    }

    /** The suggestion panel is drawn only while the input has the focus and there is at
        least one suggestion. */
    predicate PanelShown()
      reads this
    {
      isFocused && |suggestions| > 0
    }

    /** What the panel shows: nothing when it is hidden, otherwise every suggestion with
        its title and preview highlighted against the current query. */
    function Panel(): (r: seq<SuggestionView>)
      reads this
      ensures !PanelShown() ==> r == []
      ensures PanelShown() ==> |r| == |suggestions|
      ensures PanelShown() ==> forall i :: 0 <= i < |r| ==> r[i].id == suggestions[i].id
    {
      if PanelShown() then Views(suggestions, query) else []
    }
  }

  function Views(suggestions: seq<Suggestion>, query: string): (r: seq<SuggestionView>)
    ensures |r| == |suggestions|
    ensures forall i :: 0 <= i < |r| ==>
      r[i].id == suggestions[i].id && r[i].title == Highlight(suggestions[i].title, query) && r[i].snippet == Highlight(suggestions[i].snippet, query)
  {
    seq(|suggestions|, i requires 0 <= i < |suggestions| =>
      SuggestionView(suggestions[i].id, Highlight(suggestions[i].title, query), Highlight(suggestions[i].snippet, query)))
  }

  /** The panel spells out each suggestion's title and preview exactly: highlighting only
      wraps parts of them in emphasis. */
  lemma PanelShowsSuggestions(suggestions: seq<Suggestion>, query: string, i: nat)
    requires i < |suggestions|
    ensures Shown(Views(suggestions, query)[i].title) == suggestions[i].title
    ensures Shown(Views(suggestions, query)[i].snippet) == suggestions[i].snippet
  {
    HighlightShowsText(suggestions[i].title, query);
    HighlightShowsText(suggestions[i].snippet, query);
  }
}
