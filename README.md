# Search engine frontend and document controller, modelled in Dafny

The system is a small document search engine. A React frontend lets a user search a
document collection, read results, and write new documents in a rich-text editor. A
Spring backend stores the documents in a database and indexes them with Lucene, for
tf-idf and for BM25 ranking. This project models these parts and proves properties
of the model:

- the theme button's three-way cycle and its icon (`theme.dfy`);
- the search box: suggestions fetched for a non-blank query, the 100-character
  snippets, the submit target built with `encodeURIComponent`, and the
  case-insensitive emphasis of the query in titles and snippets (`search_form.dfy`,
  `uri.dfy`, `highlight.dfy`);
- the results page: the loading, empty and list views, and the 150-character
  snippets (`results_page.dfy`);
- the document editor in its desktop and mobile forms (`editor.dfy`, `formatting.dfy`):
  - the save checks and the outcome of a save;
  - the command each toolbar format issues;
  - list rebuilding and list insertion;
  - the set of active formats shown on the toolbar;
  - the dropdowns, the click-outside handler and the mobile sidebar;
- the add-document page's save callback (`add_document_page.dfy`);
- the API client's request defaults (`api.dfy`);
- the backend's DocumentController (`controller.dfy`), with its repository and
  index as state:
  - parameter validation for search, and the results filtered through the repository;
  - get by id;
  - single and bulk add: save first, then index, with a failing save or index answered 500;
  - delete;
- the routing of the client's four requests onto the controller's mappings
  (`routes.dfy`).

The browser's editing engine (`execCommand`, `queryCommandState`, the selection)
is not modelled. Neither are the network, the database and Lucene. Each of these
enters the model as parameters that stand for its answers:

- the command states;
- whether a range exists and the enclosing list's items;
- whether an API call succeeded and what it returned;
- the ids the database assigns;
- where indexing fails;
- the hits the index ranks.

`text.dfy` holds the string primitives both sides rely on:

- ECMAScript's `trim`, with its white-space set;
- ASCII `toLowerCase`;
- `slice`;
- Java's `equalsIgnoreCase` against an ASCII word, including the four non-ASCII
  characters that fold onto an ASCII letter.

The desktop and mobile editors share one class, `DocumentForm`, whose `layout`
field selects the differences:

- only the desktop form reports the outcome of a save in a toast;
- only the mobile form has a sidebar.

## Model

| member | source | states |
|---|---|---|
| ThemeToggle.Toggle | searchenginefrontend/src/components/DarkModeToggler.tsx:11-18 | the next theme differs from the current one and is the next element of the cycle light, dark, system |
| ThemeToggle.PressPosition | searchenginefrontend/src/components/DarkModeToggler.tsx:11-18 | n presses advance the theme n places along the cycle, modulo 3 |
| ThemeToggle.PressPeriod | searchenginefrontend/src/components/DarkModeToggler.tsx:11-18 | presses repeat with period exactly three: three presses return to the start, and no count that is not a multiple of three does |
| ThemeToggle.PressReachesEveryTheme | searchenginefrontend/src/components/DarkModeToggler.tsx:11-18 | every theme is reached from every other within at most two presses |
| ThemeToggle.Icons | searchenginefrontend/src/components/DarkModeToggler.tsx:26-28 | exactly one icon is rendered for each theme |
| ThemeToggle.IconsIdentifyTheme | searchenginefrontend/src/components/DarkModeToggler.tsx:26-28 | two themes render the same icon exactly when they are the same theme |
| Text.Trim | searchenginefrontend/src/components/AddDocumentForm.tsx:43 | trim removes the leading and trailing white space and nothing else: the result is the slice of the input between its leading and its trailing white space, whose ends are not white space, empty exactly when the input is all white space |
| Text.TrimPadded | searchenginefrontend/src/components/AddDocumentForm.tsx:43 | white space around a word that neither starts nor ends with white space is removed by trim |
| Text.IsJsSpace | searchenginefrontend/src/components/AddDocumentForm.tsx:43 | the white space trim removes; Trim and TrimPadded state what trim does with it |
| Text.Lower | searchenginefrontend/src/components/SearchForm.tsx:49 | toLowerCase keeps the length and lowers every ASCII capital |
| Text.Prefix | searchenginefrontend/src/pages/ResultsPage.tsx:88 | slice(0, n) is a prefix whose length is the smaller of n and the text's length |
| Text.Snippet | searchenginefrontend/src/components/SearchForm.tsx:21 | a preview is a prefix of the text of at most n characters followed by "...", the whole text plus "..." when it is short, and exactly n + 3 long otherwise |
| Text.JavaEqualsIgnoreCase | SRI/src/main/java/org/example/sri/controller/DocumentController.java:56 | equalsIgnoreCase against an ASCII word; AlgoExamples and DotlessIAccepted state its cases |
| Highlighting.Highlight | searchenginefrontend/src/components/SearchForm.tsx:46-51 | the parts are the pieces of the case-insensitive split, and a part is emphasised exactly when it equals the query ignoring case |
| Highlighting.Split | searchenginefrontend/src/components/SearchForm.tsx:47 | the split of the text around the matches; HighlightShowsText states that the pieces spell out the text, SplitFromEvenClean that the pieces between matches hold no occurrence, HighlightAlternates and PlainPartsHoldNoOccurrence that exactly the matches are emphasised, and NoOccurrenceIsPlain the case without a match |
| Highlighting.SplitFrom | searchenginefrontend/src/components/SearchForm.tsx:47 | the split loop from one state; SplitFromConcat states that its pieces spell out the rest of the text and SplitFromAlternates that they alternate |
| Highlighting.SplitFromConcat | searchenginefrontend/src/components/SearchForm.tsx:47 | the pieces of the split, concatenated, give back the text from the split's start |
| Highlighting.SplitFromAlternates | searchenginefrontend/src/components/SearchForm.tsx:47 | for a non-empty query the pieces alternate between pieces that differ from the query ignoring case and matched pieces, with an odd number of pieces, so unmatched text comes first and last |
| Highlighting.SliceHasNoOccurrence | searchenginefrontend/src/components/SearchForm.tsx:47 | a stretch of the text in which no match starts holds no occurrence of the query |
| Highlighting.SplitFromEvenClean | searchenginefrontend/src/components/SearchForm.tsx:47 | for a non-empty query, every piece at an even position, the text between matches, holds no occurrence of the query |
| Highlighting.EmitEvenClean | searchenginefrontend/src/components/SearchForm.tsx:47 | emitting the text before a match and the match keeps every even piece free of occurrences |
| Highlighting.HighlightShowsText | searchenginefrontend/src/components/SearchForm.tsx:46-51 | the highlighted rendering shows exactly the original text |
| Highlighting.SplitAroundLast | searchenginefrontend/src/components/SearchForm.tsx:47 | a text whose one occurrence of the query ends it splits into the text before it, the occurrence and an empty piece |
| Highlighting.ThreePieces | searchenginefrontend/src/components/SearchForm.tsx:48-50 | of three pieces around an occurrence of the query, only the occurrence is emphasised when the outer pieces differ from it in length |
| Highlighting.HighlightAlternates | searchenginefrontend/src/components/SearchForm.tsx:46-51 | with a non-empty query, the parts at odd positions are emphasised and no others, and there is an odd number of them |
| Highlighting.PlainPartsHoldNoOccurrence | searchenginefrontend/src/components/SearchForm.tsx:46-51 | every occurrence of a non-empty query is emphasised: no plain part holds an occurrence, and every strong part is one |
| Highlighting.HelloWorldSplit | searchenginefrontend/src/components/SearchForm.tsx:47 | "hello world" split on "world" gives "hello ", "world" and "" |
| Highlighting.HelloWorld | searchenginefrontend/src/components/SearchForm.tsx:46-51 | "hello world" with the query "world" renders plain "hello ", emphasised "world", plain "" |
| Highlighting.NoOccurrenceIsPlain | searchenginefrontend/src/components/SearchForm.tsx:46-51 | a text without an occurrence of the query renders as one plain part |
| Highlighting.EmptyQuerySplitFrom | searchenginefrontend/src/components/SearchForm.tsx:47 | splitting on the empty pattern yields each character separated by empty captures |
| Highlighting.EmptyQueryEmphasisesNothing | searchenginefrontend/src/components/SearchForm.tsx:46-51 | with an empty query every character is shown plain and only the empty captures between them are emphasised |
| UriComponent.Escape | searchenginefrontend/src/components/SearchForm.tsx:42 | a byte is written as '%' and two upper-case hexadecimal digits |
| UriComponent.Utf8 | searchenginefrontend/src/components/SearchForm.tsx:42 | a code point takes one to four UTF-8 bytes |
| UriComponent.DecodeEncode | searchenginefrontend/src/components/SearchForm.tsx:42 | decodeURIComponent(encodeURIComponent(q)) == q for every string q |
| UriComponent.Encode | searchenginefrontend/src/components/SearchForm.tsx:42 | encodeURIComponent; its round trip is stated by DecodeEncode and its alphabet by EncodedAlphabet and UnreservedUnchanged |
| UriComponent.Decode | searchenginefrontend/src/components/SearchForm.tsx:42 | decodeURIComponent, None where ECMAScript throws; DecodeEncode states that it undoes Encode |
| UriComponent.EncodedAlphabet | searchenginefrontend/src/components/SearchForm.tsx:42 | the encoded query holds only unreserved characters, '%' and hexadecimal digits |
| UriComponent.UnreservedUnchanged | searchenginefrontend/src/components/SearchForm.tsx:42 | a query of unreserved characters only is left unchanged by the encoding |
| EditorFormatting.SecondField | searchenginefrontend/src/components/AddDocumentForm.tsx:102 | the text after the first '-' is no longer than the format name |
| EditorFormatting.FieldHead | searchenginefrontend/src/components/AddDocumentForm.tsx:102 | the text before the first '-' is a prefix of the name that holds no '-' and stops at a '-' |
| EditorFormatting.SecondFieldOf | searchenginefrontend/src/components/AddDocumentForm.tsx:102 | for a name of the form prefix-word without further dashes, split('-')[1] is the word |
| EditorFormatting.CommandFor | searchenginefrontend/src/components/AddDocumentForm.tsx:78-116 | the command each format issues; AlignCommands, ListFormats, FontSizeCodes and UnknownFormatIssuesNothing state its cases |
| EditorFormatting.AlignCommands | searchenginefrontend/src/components/AddDocumentForm.tsx:84-88 | the alignment formats issue justifyLeft, justifyCenter and justifyRight with an empty value |
| EditorFormatting.ListDecimal | searchenginefrontend/src/components/AddDocumentForm.tsx:98-102 | 'list-decimal' calls formatList with 'decimal' |
| EditorFormatting.ListAlpha | searchenginefrontend/src/components/AddDocumentForm.tsx:99-102 | 'list-alpha' calls formatList with 'alpha' |
| EditorFormatting.ListRoman | searchenginefrontend/src/components/AddDocumentForm.tsx:100-102 | 'list-roman' calls formatList with 'roman' |
| EditorFormatting.ListBullet | searchenginefrontend/src/components/AddDocumentForm.tsx:101-102 | 'list-bullet' calls formatList with 'bullet' |
| EditorFormatting.ListFormats | searchenginefrontend/src/components/AddDocumentForm.tsx:98-103 | the four list formats call formatList with the word after the dash |
| EditorFormatting.FontSizeSmall | searchenginefrontend/src/components/AddDocumentForm.tsx:104-106 | 'fontSize-1' sets font size 2 |
| EditorFormatting.FontSizeNormal | searchenginefrontend/src/components/AddDocumentForm.tsx:107-109 | 'fontSize-2' sets font size 3 |
| EditorFormatting.FontSizeLarge | searchenginefrontend/src/components/AddDocumentForm.tsx:110-112 | 'fontSize-3' sets font size 5 |
| EditorFormatting.FontSizeExtraLarge | searchenginefrontend/src/components/AddDocumentForm.tsx:113-115 | 'fontSize-4' sets font size 7 |
| EditorFormatting.FontSizeCodes | searchenginefrontend/src/components/AddDocumentForm.tsx:104-115 | the four size entries map to the browser sizes 2, 3, 5 and 7 |
| EditorFormatting.UnknownFormatIssuesNothing | searchenginefrontend/src/components/AddDocumentForm.tsx:78-116 | a format the switch does not name issues no command |
| EditorFormatting.ListTag | searchenginefrontend/src/components/AddDocumentForm.tsx:131 | a list is bulleted (ul) exactly for 'bullet' and numbered (ol) otherwise |
| EditorFormatting.ListStyleFor | searchenginefrontend/src/components/AddDocumentForm.tsx:138-150 | a bulleted list gets no list-style-type of its own |
| EditorFormatting.InsertCommand | searchenginefrontend/src/components/AddDocumentForm.tsx:154 | insertUnorderedList is used exactly when a bulleted list is wanted |
| EditorFormatting.ListStyles | searchenginefrontend/src/components/AddDocumentForm.tsx:138-150 | decimal, alpha and roman give numbered lists styled decimal, lower-alpha and lower-roman |
| EditorFormatting.FormatList | searchenginefrontend/src/components/AddDocumentForm.tsx:121-170 | nothing happens without an editor or a range; inside a list, the list is replaced by one of the chosen kind with the same items in the same order; otherwise a list is inserted and restyled when it is found |
| EditorFormatting.SameStyleOnBothPaths | searchenginefrontend/src/components/AddDocumentForm.tsx:138-168 | a rebuilt list and an inserted one get the same marker style and the same kind |
| EditorFormatting.ActiveSet | searchenginefrontend/src/components/AddDocumentForm.tsx:21-32 | the tags the browser reports as on; ActiveSetExactly and the Tracked lemmas state which |
| EditorFormatting.ActiveFormats | searchenginefrontend/src/components/AddDocumentForm.tsx:21-32 | the new active set is built from the browser's eight answers alone: the tag of each command reported as on, and nothing else |
| EditorFormatting.BoldTracked | searchenginefrontend/src/components/AddDocumentForm.tsx:23 | 'bold' is active exactly when bold is on |
| EditorFormatting.ItalicTracked | searchenginefrontend/src/components/AddDocumentForm.tsx:24 | 'italic' is active exactly when italic is on |
| EditorFormatting.UnderlineTracked | searchenginefrontend/src/components/AddDocumentForm.tsx:25 | 'underline' is active exactly when underline is on |
| EditorFormatting.AlignLeftTracked | searchenginefrontend/src/components/AddDocumentForm.tsx:26 | 'alignLeft' is active exactly when justifyLeft is on |
| EditorFormatting.AlignCenterTracked | searchenginefrontend/src/components/AddDocumentForm.tsx:27 | 'alignCenter' is active exactly when justifyCenter is on |
| EditorFormatting.AlignRightTracked | searchenginefrontend/src/components/AddDocumentForm.tsx:28 | 'alignRight' is active exactly when justifyRight is on |
| EditorFormatting.OrderedListTracked | searchenginefrontend/src/components/AddDocumentForm.tsx:29 | 'orderedList' is active exactly when insertOrderedList is on |
| EditorFormatting.UnorderedListTracked | searchenginefrontend/src/components/AddDocumentForm.tsx:30 | 'unorderedList' is active exactly when insertUnorderedList is on |
| EditorFormatting.OnlyTrackedTags | searchenginefrontend/src/components/AddDocumentForm.tsx:21-32 | the active set holds only the eight tags the function records |
| EditorFormatting.ActiveSetExactly | searchenginefrontend/src/components/AddDocumentForm.tsx:21-32 | each of the eight tags is in the set exactly when its command is reported on |
| EditorFormatting.IsFormatActive | searchenginefrontend/src/components/AddDocumentForm.tsx:172-174 | whether a toolbar button is drawn pressed; ToolbarButtonsTrackTheirCommand and BulletButtonNeverActive state when |
| EditorFormatting.ToolbarButtonsTrackTheirCommand | searchenginefrontend/src/components/AddDocumentForm.tsx:296-313 | each of the first six toolbar buttons is drawn pressed exactly when the command it issues is on |
| EditorFormatting.BulletButtonNeverActive | searchenginefrontend/src/components/AddDocumentForm.tsx:303-309 | the bullet-list button is never drawn pressed, even while the browser reports a bulleted list |
| EditorFormatting.ButtonTag | searchenginefrontend/src/components/AddDocumentForm.tsx:303 | every button other than the bullet-list one looks up its own format name |
| EditorFormatting.CorrectedButtonsTrackTheirCommand | searchenginefrontend/src/components/AddDocumentForm.tsx:296-313 | with the corrected lookup every toolbar button, the bullet-list one included, is pressed exactly when its command is on |
| EditorFormatting.CorrectedBulletButtonTracksList | searchenginefrontend/src/components/AddDocumentForm.tsx:303-309 | with the corrected lookup the bullet-list button is drawn pressed exactly when the caret is in a bulleted list |
| DocumentEditor.Validate | searchenginefrontend/src/components/AddDocumentForm.tsx:43-55 | the checks before a save; ValidateExactly states when a save goes ahead and which warning is shown otherwise |
| DocumentEditor.ValidateExactly | searchenginefrontend/src/components/AddDocumentForm.tsx:43-55 | a save goes ahead exactly when the trimmed title is neither empty nor 'Untitled' and the editor is mounted with non-blank markup; a bad title is reported first |
| DocumentEditor.PaddedDefaultTitleRefused | searchenginefrontend/src/components/AddDocumentForm.tsx:43 | 'Untitled' with white space around it is still refused as a title |
| DocumentEditor.BlankTitleRefused | searchenginefrontend/src/components/AddDocumentForm.tsx:43 | a title of white space only is refused |
| DocumentEditor.BlankContentRefused | searchenginefrontend/src/components/AddDocumentForm.tsx:50 | content of white space only is refused once the title is acceptable |
| DocumentEditor.SavedFormIsRefused | searchenginefrontend/src/components/AddDocumentForm.tsx:61 | after a successful save the title is 'Untitled' again, so saving again is refused until a new title is typed |
| DocumentEditor.DocumentForm.constructor | searchenginefrontend/src/components/AddDocumentForm.tsx:11-19 | the first render: title 'Untitled', editor empty, nothing saving, no active formats, menus and toast closed |
| DocumentEditor.DocumentForm.SetTitle | searchenginefrontend/src/components/AddDocumentForm.tsx:34-36 | typing a title changes the title and nothing else |
| DocumentEditor.DocumentForm.Input | searchenginefrontend/src/components/AddDocumentForm.tsx:38-40 | typing in the editor changes the markup and recomputes the active formats |
| DocumentEditor.DocumentForm.UpdateActiveFormats | searchenginefrontend/src/components/AddDocumentForm.tsx:21-32 | the active set is replaced by the browser's current answers; nothing else changes |
| DocumentEditor.DocumentForm.Warn | searchenginefrontend/src/components/AddDocumentForm.tsx:44-47 | a warning toast with the given message is shown |
| DocumentEditor.DocumentForm.StartSave | searchenginefrontend/src/components/AddDocumentForm.tsx:42-59 | a refused save warns about the first failed check and calls nothing; an accepted one raises the saving flag and passes the untrimmed title and markup |
| DocumentEditor.DocumentForm.FinishSave | searchenginefrontend/src/components/AddDocumentForm.tsx:59-71 | a resolved save resets the title and empties the editor; a rejected one keeps both; the desktop form reports the outcome in a toast, the mobile form (AddDocumentFormMobile.tsx:59-69) reports neither; the saving flag is lowered |
| DocumentEditor.DocumentForm.HandleSave | searchenginefrontend/src/components/AddDocumentForm.tsx:42-72 | addDocument is called exactly when the checks pass, with the title and markup as they stand; the form is reset only when the call resolves |
| DocumentEditor.DocumentForm.HandleFormatting | searchenginefrontend/src/components/AddDocumentForm.tsx:74-119 | without an editor nothing happens; otherwise the format's command is issued (list formats through formatList) and the active formats are recomputed |
| DocumentEditor.DocumentForm.ToggleListOptions | searchenginefrontend/src/components/AddDocumentForm.tsx:180-184 | the list menu flips and the font-size menu closes |
| DocumentEditor.DocumentForm.ToggleFontSizes | searchenginefrontend/src/components/AddDocumentForm.tsx:228-232 | the font-size menu flips and the list menu closes |
| DocumentEditor.DocumentForm.ChooseListOption | searchenginefrontend/src/components/AddDocumentForm.tsx:194-215 | a list entry runs formatList with its type and closes the menu, without recomputing the active formats |
| DocumentEditor.DocumentForm.ChooseFontSize | searchenginefrontend/src/components/AddDocumentForm.tsx:242-273 | a size entry issues that size's command through handleFormatting and closes the menu |
| DocumentEditor.DocumentForm.ClickOutside | searchenginefrontend/src/components/AddDocumentFormMobile.tsx:279-292 | every click on the page closes both dropdowns (also AddDocumentForm.tsx:281-288); on the mobile form an open sidebar also closes on a narrow viewport when a sidebar element exists and the click landed outside it |
| DocumentEditor.DocumentForm.ToggleSidebar | searchenginefrontend/src/components/AddDocumentFormMobile.tsx:303 | the menu button flips the sidebar |
| DocumentEditor.DocumentForm.CloseToast | searchenginefrontend/src/components/AddDocumentForm.tsx:381 | closing the toast hides it and changes nothing else |
| Api.SearchDocuments | searchenginefrontend/src/api.ts:17-22 | the request carries the query, the count and the algorithm it was given |
| Api.SearchDefaults | searchenginefrontend/src/api.ts:17 | the count defaults to 3 and the algorithm to 'tfidf' |
| SearchBox.ToSuggestions | searchenginefrontend/src/components/SearchForm.tsx:18-22 | one suggestion per result, in order, with its id and title; the snippet is the first 100 characters of the text followed by "...", the whole text followed by "..." when it is shorter |
| SearchBox.SubmitTarget | searchenginefrontend/src/components/SearchForm.tsx:39-44 | submitting navigates exactly when the trimmed query is not empty |
| SearchBox.SubmitKeepsQuery | searchenginefrontend/src/components/SearchForm.tsx:41-42 | the address is /results?q= followed by encodeURIComponent of the untrimmed query; decodeURIComponent of that part gives the query back, and it holds no character that would end or split the q parameter |
| SearchBox.EncodedCharIsPlain | searchenginefrontend/src/components/SearchForm.tsx:42 | no character of an encoded query is '&', '#', '+', '=' or a space |
| SearchBox.SearchForm.constructor | searchenginefrontend/src/components/SearchForm.tsx:8-10 | the box starts with an empty query, unfocused, with no suggestions |
| SearchBox.SearchForm.SetQuery | searchenginefrontend/src/components/SearchForm.tsx:63 | typing changes the query only |
| SearchBox.SearchForm.FetchSuggestions | searchenginefrontend/src/components/SearchForm.tsx:14-30 | a blank query clears the suggestions without a request; otherwise five results are asked for, and they become the suggestions, or none when the call fails; with a response of at most the 5 documents asked for, at most 5 suggestions are shown |
| SearchBox.SearchForm.Focus | searchenginefrontend/src/components/SearchForm.tsx:64 | focusing marks the box focused |
| SearchBox.SearchForm.Blur | searchenginefrontend/src/components/SearchForm.tsx:65 | blurring marks the box unfocused |
| SearchBox.SearchForm.Submit | searchenginefrontend/src/components/SearchForm.tsx:39-44 | submitting yields the navigation target of the current query |
| SearchBox.SearchForm.PanelShown | searchenginefrontend/src/components/SearchForm.tsx:78 | whether the suggestion panel is drawn; Panel states what it shows when it is and when it is not |
| SearchBox.SearchForm.Panel | searchenginefrontend/src/components/SearchForm.tsx:78-95 | the panel is shown only while focused with suggestions, one entry per suggestion with its id |
| SearchBox.Views | searchenginefrontend/src/components/SearchForm.tsx:85-95 | each entry highlights the suggestion's title and snippet |
| SearchBox.PanelShowsSuggestions | searchenginefrontend/src/components/SearchForm.tsx:91-93 | each entry shows its suggestion's title and snippet exactly |
| Results.Render | searchenginefrontend/src/pages/ResultsPage.tsx:51-96 | the loader is shown exactly while loading; the empty message exactly when loaded with no results; otherwise the list with its heading and one item per result with the result's id |
| Results.Item | searchenginefrontend/src/pages/ResultsPage.tsx:83-89 | what one listed result shows; ListedResultShowsDocument states it |
| Results.ListedResultShowsDocument | searchenginefrontend/src/pages/ResultsPage.tsx:83-89 | a listed result shows the document's title and its first 150 characters followed by "..." |
| Results.ResultsPage.constructor | searchenginefrontend/src/pages/ResultsPage.tsx:16-19 | the page starts loading, with no results, the query taken from q or empty |
| Results.ResultsPage.BeginFetch | searchenginefrontend/src/pages/ResultsPage.tsx:23-25 | fetching raises the loading flag and asks for the query with the client's defaults |
| Results.ResultsPage.FinishFetch | searchenginefrontend/src/pages/ResultsPage.tsx:25-31 | the results are the response, or none when the call failed; loading ends |
| Results.ResultsPage.FetchResults | searchenginefrontend/src/pages/ResultsPage.tsx:22-32 | the whole fetch: the default request, then the response or no results, and loading ends |
| Results.ResultsPage.View | searchenginefrontend/src/pages/ResultsPage.tsx:51-96 | the page drawn from its current state; Render states the choice between loader, empty message and list |
| Results.FailureShowsNoResults | searchenginefrontend/src/pages/ResultsPage.tsx:59-65 | a failed fetch shows 'No results found for' the query |
| Backend.RankingFor | SRI/src/main/java/org/example/sri/service/LuceneService.java:109 | the BM25 index is used exactly when the algorithm equals 'bm25' ignoring case |
| Backend.AlgoAccepted | SRI/src/main/java/org/example/sri/controller/DocumentController.java:56 | the whitelist of algorithms; its cases are stated by AlgoExamples and DotlessIAccepted |
| Backend.SearchDocuments | SRI/src/main/java/org/example/sri/controller/DocumentController.java:49-63 | the search handler; what it answers is stated by UnknownAlgoRefused, AcceptedRequestForwarded and ServiceCalledExactlyWhenValid |
| Backend.UnknownAlgoRefused | SRI/src/main/java/org/example/sri/controller/DocumentController.java:56-58 | an algorithm other than tfidf or bm25 is answered 400 with a null body and the service is not called |
| Backend.AcceptedRequestForwarded | SRI/src/main/java/org/example/sri/controller/DocumentController.java:49-62 | an accepted request reaches the service unchanged, the count defaulting to 3; its results come back with 200 |
| Backend.ServiceCalledExactlyWhenValid | SRI/src/main/java/org/example/sri/controller/DocumentController.java:49-62 | the service is called exactly when the query and algorithm are present and the algorithm is accepted, and 400 is answered exactly otherwise |
| Backend.AlgoExamples | SRI/src/main/java/org/example/sri/controller/DocumentController.java:56 | "TFIDF", "TfIdf" and "BM25" are accepted and pick their own index; 'tf-idf' and '' are refused |
| Backend.CaselessAccepted | SRI/src/main/java/org/example/sri/controller/DocumentController.java:56 | every algo whose ASCII lowering is tfidf or bm25 is accepted and picks the index it names |
| Backend.DotlessIAccepted | SRI/src/main/java/org/example/sri/controller/DocumentController.java:56 | equalsIgnoreCase also lets 'tf' + dotless i + 'df' through, ranked with tf-idf |
| Backend.StoredHits | SRI/src/main/java/org/example/sri/service/LuceneService.java:126-133 | the service returns no more documents than there are hits (the properties are stated by StoredHitsSound, StoredHitsComplete, StoredHit and StoredHitsAppend) |
| Backend.StoredHitsSound | SRI/src/main/java/org/example/sri/service/LuceneService.java:126-133 | every returned document is the stored document of one of the hits, and is stored under its own id |
| Backend.StoredHitsComplete | SRI/src/main/java/org/example/sri/service/LuceneService.java:126-133 | every hit still stored is returned, and when all hits are stored there is one document per hit |
| Backend.StoredHit | SRI/src/main/java/org/example/sri/service/LuceneService.java:128-130 | a single hit returns its stored document, or nothing when it is no longer stored |
| Backend.StoredHitsAppend | SRI/src/main/java/org/example/sri/service/LuceneService.java:127-131 | the hits are looked up one after the other, so the results keep the rank order of the hits (with StoredHit this fixes the result for every list of hits) |
| Backend.SavedDocs | SRI/src/main/java/org/example/sri/controller/DocumentController.java:41 | saveAll returns each input document with the id it was saved under, in input order |
| Backend.SaveAll | SRI/src/main/java/org/example/sri/controller/DocumentController.java:41 | saveAll on the repository; what it stores is stated by SaveAllKeyed, SaveAllStores, SaveAllUntouched, SaveAllFinds and SaveAllKeeps |
| Backend.SaveAllKeyed | SRI/src/main/java/org/example/sri/controller/DocumentController.java:41 | saving keeps every stored document under its own id |
| Backend.SaveAllStores | SRI/src/main/java/org/example/sri/controller/DocumentController.java:41 | after saveAll, the last document saved under an id is the one stored there |
| Backend.SaveAllUntouched | SRI/src/main/java/org/example/sri/controller/DocumentController.java:41 | saveAll leaves ids it does not use alone |
| Backend.SaveAllFinds | SRI/src/main/java/org/example/sri/controller/DocumentController.java:41 | every document whose id no later document reuses is found under that id after saveAll |
| Backend.SaveAllKeeps | SRI/src/main/java/org/example/sri/controller/DocumentController.java:41 | after saveAll an id not among the new ids is stored exactly when it was before, with the same document |
| Backend.WithoutId | SRI/src/main/java/org/example/sri/service/LuceneService.java:142-149 | deleting from the index removes every entry of the document and keeps every other entry, each as often as it occurred |
| Backend.IndexedCount | SRI/src/main/java/org/example/sri/controller/DocumentController.java:42-45 | indexing stops short of the end exactly when the indexer fails inside the list |
| Backend.DocumentController.constructor | SRI/src/main/java/org/example/sri/controller/DocumentController.java:19-26 | the controller over a repository and an index, both starting empty |
| Backend.DocumentController.GetDocumentById | SRI/src/main/java/org/example/sri/controller/DocumentController.java:65-70 | 200 with the document exactly when it is stored, 404 with no body otherwise |
| Backend.DocumentController.Search | SRI/src/main/java/org/example/sri/controller/DocumentController.java:49-63 | a search answers 200 with the stored documents of the hits only, so a deleted document is never returned |
| Backend.DocumentController.AddDocument | SRI/src/main/java/org/example/sri/controller/DocumentController.java:28-37 | a failing save stores and indexes nothing and is answered 500; otherwise the document is saved first and can then be found under its id, and it is indexed and answered 200, or the index failure is answered 500 with the document still stored |
| Backend.DocumentController.SaveAllDocuments | SRI/src/main/java/org/example/sri/controller/DocumentController.java:41 | the repository becomes the result of saving the documents in order |
| Backend.DocumentController.IndexAll | SRI/src/main/java/org/example/sri/controller/DocumentController.java:42-45 | the saved documents are indexed in order up to the first failure |
| Backend.DocumentController.AddDocuments | SRI/src/main/java/org/example/sri/controller/DocumentController.java:38-47 | a failing saveAll stores and indexes nothing and is answered 500; otherwise all documents are saved, then indexed in order up to the first failure, answered 200 with the saved documents or 500, and each saved document can be found under its id; ids not used keep their entries either way |
| Backend.DocumentController.SaveAndIndex | SRI/src/main/java/org/example/sri/controller/DocumentController.java:41-46 | once saveAll succeeds, the repository is the result of saving the documents in order, the index grows by the saved documents up to the first failure, and the answer is 200 with the saved documents exactly when none failed |
| Backend.DocumentController.SearchAnswersAtMost | SRI/src/main/java/org/example/sri/service/LuceneService.java:123-133 | a search answers with at most maxResults documents when the index ranks at most maxResults hits, as TopDocs does |
| Backend.DocumentController.DeleteDocument | SRI/src/main/java/org/example/sri/controller/DocumentController.java:72-81 | the document is gone from the repository either way; the index loses its entries and 200 confirms it, or 500 carries the service's message |
| Routes.FirstMatch | SRI/src/main/java/org/example/sri/controller/DocumentController.java:16 | the first route that matches the verb and path, and no earlier route matches |
| Routes.Dispatch | SRI/src/main/java/org/example/sri/controller/DocumentController.java:16 | a handler runs exactly when some route matches; 404 exactly when no route maps the path for any verb; 405 otherwise |
| Routes.RouteTablesSpecificFirst | SRI/src/main/java/org/example/sri/controller/DocumentController.java:49-65 | in both route tables, literal patterns come before patterns with variables |
| Routes.PatternVariables | SRI/src/main/java/org/example/sri/controller/DocumentController.java:16-72 | the create, bulk-create and search mappings have no path variable; the fetch and delete mappings have one |
| Routes.Digits | searchenginefrontend/src/api.ts:25 | an id prints as a non-empty string of digits |
| Routes.Decimal | searchenginefrontend/src/api.ts:25 | an id prints as a non-empty string that starts with '-' exactly when the id is negative, every other character a digit |
| Routes.DigitsRoundTrip | searchenginefrontend/src/api.ts:25 | reading the printed digits back gives the number printed |
| Routes.DecimalInjective | searchenginefrontend/src/api.ts:25 | different ids print as different path segments |
| Routes.DecimalIsNoKeyword | searchenginefrontend/src/api.ts:25 | a printed id is never 'search', 'many' or 'documents' |
| Routes.ClientAdd | searchenginefrontend/src/api.ts:13 | the request addDocument sends; AddRouted states where it is routed |
| Routes.ClientSearch | searchenginefrontend/src/api.ts:18 | the request searchDocuments sends; SearchRouted states where it is routed |
| Routes.ClientGet | searchenginefrontend/src/api.ts:25 | the request getDocument sends; GetRouted states where it is routed |
| Routes.ClientDelete | searchenginefrontend/src/api.ts:30 | the request deleteDocument sends; DeleteNotRouted and CorrectedDeleteRouted state where it is routed |
| Routes.AddRouted | searchenginefrontend/src/api.ts:13 | the client's POST of a document reaches addDocument |
| Routes.SearchRouted | searchenginefrontend/src/api.ts:18 | the client's search reaches searchDocuments, not getDocumentById |
| Routes.GetRouted | searchenginefrontend/src/api.ts:25 | the client's fetch of a document reaches getDocumentById |
| Routes.ClientCallsRouted | searchenginefrontend/src/api.ts:12-27 | the client's create, search and fetch reach their handlers |
| Routes.DeleteNotRouted | SRI/src/main/java/org/example/sri/controller/DocumentController.java:72 | the client's DELETE of /api/documents/{id} is answered 405; only /api/documents/documents/{id} reaches deleteDocument |
| Routes.ServerDeleteRouted | SRI/src/main/java/org/example/sri/controller/DocumentController.java:72 | a DELETE of /api/documents/documents/{id} reaches deleteDocument |
| Routes.CorrectedClientCallsRouted | searchenginefrontend/src/api.ts:29-31 | with the delete mapping at /{id}, all four client calls reach their handlers |
| Routes.CorrectedDeleteRouted | searchenginefrontend/src/api.ts:29-31 | with the delete mapping at /{id}, the client's DELETE of /api/documents/{id} reaches deleteDocument |
| DocumentPage.CallbackResolves | searchenginefrontend/src/pages/AddDocumentPage.tsx:33-41 | whether the callback as written resolves; FailureIndistinguishable states that it always does |
| DocumentPage.CorrectedCallbackResolves | searchenginefrontend/src/pages/AddDocumentPage.tsx:33-41 | the corrected callback resolves exactly when the API call succeeds |
| DocumentPage.FailureIndistinguishable | searchenginefrontend/src/pages/AddDocumentPage.tsx:33-41 | as written, the callback resolves whether or not the API call succeeded |
| DocumentPage.AddDocumentPage.constructor | searchenginefrontend/src/pages/AddDocumentPage.tsx:11-13 | the page starts with no toast |
| DocumentPage.AddDocumentPage.CloseToast | searchenginefrontend/src/pages/AddDocumentPage.tsx:29-31 | closing the page's toast hides it and keeps its message |
| DocumentPage.AddDocumentPage.HandleAddDocument | searchenginefrontend/src/pages/AddDocumentPage.tsx:33-41 | the page shows its own success or failure toast and always resolves |
| DocumentPage.AddDocumentPage.CorrectedHandleAddDocument | searchenginefrontend/src/pages/AddDocumentPage.tsx:33-41 | the page shows the same toast and resolves only on success |
| DocumentPage.Save | searchenginefrontend/src/pages/AddDocumentPage.tsx:57 | as written, when the API call fails the desktop form still clears the title and content and reports success, while the page reports failure |
| DocumentPage.CorrectedSave | searchenginefrontend/src/components/AddDocumentForm.tsx:59-70 | with the corrected callback a failed call keeps the title and content, and both toasts report the failure |

## Left out

- Regular-expression metacharacters in the query are not modelled. The highlight treats the query as a literal string, which is what the source's `RegExp` does for queries without metacharacters. A query holding `(`, `*` or the like makes the source build a different pattern, or throw.
- Case folding is modelled for ASCII only. Text.Lower and the case-insensitive split apply ECMAScript's full Unicode lowering only to ASCII letters.
- Java's `equalsIgnoreCase` is modelled only against an ASCII word. That covers both words the controller compares with.
- Text.Trim works on Dafny characters, which are Unicode scalar values. JavaScript strings are UTF-16, so lone surrogates are not represented, and lengths in slice(0, n) count code points, not UTF-16 units.
- UriComponent.Encode does not model the URIError that encodeURIComponent throws on a lone surrogate (SearchForm.tsx:42). Dafny strings cannot hold one, so every query the model sees encodes.
- Results.ResultsPage.constructor takes the q parameter as qParam. Parsing it from the address with URLSearchParams.get('q') (ResultsPage.tsx:19) is not modelled. That parser decodes form encoding, which agrees with decodeURIComponent on Encode's output (no '+', only well-formed escapes), but no lemma ties qParam to SearchBox.SubmitTarget.
- Backend.DocumentController.AddDocuments: a failing saveAll is modelled as storing nothing. That holds when saveAll runs in one transaction, as Spring Data's implementation does; the mapping itself declares none.
- Backend.DocumentController.SearchAnswersAtMost takes the bound on the number of hits as a requires. That TopDocs ranks at most maxResults hits belongs to Lucene, which is not modelled.
- UriComponent.Decode does not model the URIError that ECMAScript raises on invalid percent-escapes. It returns None for them, and it is only ever applied to encoded queries.
- The 300 ms debounce of the suggestion fetch, the 200 ms delay before the blur takes effect, and races between overlapping fetches are not modelled. Each fetch is modelled as settling before the next event.
- The theme's persistence and the system-theme media query belong to the dark-mode hook, which is not part of this model.
- Lucene's analysis, scoring and ranking are not modelled. The ranked hit ids are a parameter of Backend.DocumentController.Search.
- Spring's conversion of a non-numeric maxResults into a 400 answer is not modelled. The model takes maxResults as an optional integer.
- The body of a 500 answer produced by an unhandled exception is not modelled. It is Spring's error document and is modelled as no body.
- Partial failures inside one indexing or deletion call are not modelled: for example, the BM25 index written but the tf-idf one not. Indexing a document either fails or succeeds as a whole.
- Backend.DocumentController.DeleteDocument leaves the index unchanged when the service fails. The source may have already removed the tf-idf entries at that point.
- Deleting an id that is not stored is modelled as a no-op. Older Spring Data versions throw instead.
- The database's id generation is a parameter (newId, newIds). For a document without an id the model does not require the new id to be fresh. A document that has an id is saved under it, as JPA's merge does.
- DocumentController.addDocuments indexes the input documents. The model assumes `saveAll` gives those same objects their ids, as JPA does for new entities.
- The desktop form's list and font-size option buttons have no type attribute inside a <form>. A browser treats them as submit buttons. Form submission and page reload are not modelled.
- The mobile form's markup has no element of class 'sidebar'. Whether one is found is a parameter of ClickOutside.
- Clicks on buttons without stopPropagation also reach the document's click listener, which closes both dropdowns. These buttons are the mobile menu button, the toolbar format buttons, the list options and the font-size options (AddDocumentFormMobile.tsx:192-195, 240-243 and 328, and the same buttons in the desktop form). The model treats ToggleSidebar, HandleFormatting, ChooseListOption and ChooseFontSize as events separate from ClickOutside.
- The editor's markup after an execCommand is not modelled. Only the command issued and the list edit are. DocumentEditor.DocumentForm.HandleFormatting leaves the editor field unchanged.
- Navigation is not modelled: the suggestion and result links, and the page loaders' 2-second delay.
- Routes.Decimal prints integer ids only. JavaScript prints huge or fractional numbers differently.

## Findings

| source | as written | input that shows it | evidently intended | confidence | as-written member | corrected member |
|---|---|---|---|---|---|---|
| SRI/src/main/java/org/example/sri/controller/DocumentController.java:72 | the delete mapping is "/documents/{id}" under the class mapping "/api/documents", so it sits at /api/documents/documents/{id} | the client's `api.deleteDocument(5)` sends DELETE /api/documents/5, which only the GET mapping "/{id}" matches: 405 | the delete mapping at "/{id}", where the client sends it | high (not executed) | Routes.DeleteNotRouted | Routes.CorrectedClientCallsRouted |
| searchenginefrontend/src/components/AddDocumentForm.tsx:303-309 | the bullet-list button asks isFormatActive('list-bullet'), but updateActiveFormats records a bulleted list as 'unorderedList' | the caret inside a bulleted list: queryCommandState('insertUnorderedList') is true, yet the button is not drawn pressed | the button looks up 'unorderedList' | medium (not executed) | EditorFormatting.BulletButtonNeverActive | EditorFormatting.CorrectedButtonsTrackTheirCommand |
| searchenginefrontend/src/pages/AddDocumentPage.tsx:33-41 | handleAddDocument catches the API error and resolves, so the form's try block always succeeds | an add that fails (server down): the page shows 'Error adding document', and the form clears the title and content and shows 'Document saved successfully!' | the callback passes the error on, so the form keeps the document and shows its failure toast | high (not executed) | DocumentPage.Save | DocumentPage.CorrectedSave |
