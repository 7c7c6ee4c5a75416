/** The formatting rules of the document editor, shared word for word by the desktop
    and the mobile form: which editing command a toolbar format issues, how a list is
    rebuilt or inserted, and which formats the toolbar shows as active. The browser's
    editing engine (execCommand, queryCommandState, the selection, closest) is not
    modelled; its answers are parameters. */
module EditorFormatting {
  import opened Text

  /** What `handleFormatting` asks of the browser for one format name. */
  datatype Command =
    | Exec(name: string, value: string)   // document.execCommand(name, false, value)
    | ApplyList(listType: string)          // formatList(listType)

  /** The text after the first '-' of `s` and before the next one: `s.split('-')[1]`,
      or "" when `s` has no '-' (where ECMAScript would give undefined). */
  function SecondField(s: string): (r: string)
    ensures |r| <= |s|
    decreases |s|
  {
    if s == [] then []
    else if s[0] == '-' then FieldHead(s[1..])
    else SecondField(s[1..])
  }

  /** The text of `s` before its first '-'. */
  function FieldHead(s: string): (r: string)
    ensures r <= s && '-' !in r
    ensures |r| < |s| ==> s[|r|] == '-'
  {
    if s == [] || s[0] == '-' then [] else [s[0]] + FieldHead(s[1..])
  }

  /** The command `handleFormatting` issues for `format`; None for a format its switch
      does not list. */
  function CommandFor(format: string): Option<Command> {
    if format == "bold" || format == "italic" || format == "underline" then Some(Exec(format, ""))
    else if format == "alignLeft" || format == "alignCenter" || format == "alignRight" then
      Some(Exec("justify" + format[5..], ""))
    else if format == "heading-1" then Some(Exec("formatBlock", "<h1>"))
    else if format == "heading-2" then Some(Exec("formatBlock", "<h2>"))
    else if format == "heading-3" then Some(Exec("formatBlock", "<h3>"))
    else if format == "list-decimal" || format == "list-alpha" || format == "list-roman" || format == "list-bullet" then
      Some(ApplyList(SecondField(format)))
    else if format == "fontSize-1" then Some(Exec("fontSize", "2"))
    else if format == "fontSize-2" then Some(Exec("fontSize", "3"))
    else if format == "fontSize-3" then Some(Exec("fontSize", "5"))
    else if format == "fontSize-4" then Some(Exec("fontSize", "7"))
    else None
  }

  /** The alignment formats issue the browser's justify commands. */
  lemma AlignCommands()
    ensures CommandFor("alignLeft") == Some(Exec("justifyLeft", ""))
    ensures CommandFor("alignCenter") == Some(Exec("justifyCenter", ""))
    ensures CommandFor("alignRight") == Some(Exec("justifyRight", ""))
  {
    assert CommandFor("alignLeft") == Some(Exec("justifyLeft", "")) by {
      assert "alignLeft"[5..] == "Left" && "justify" + "Left" == "justifyLeft";
    }
    assert CommandFor("alignCenter") == Some(Exec("justifyCenter", "")) by {
      assert "alignCenter"[5..] == "Center" && "justify" + "Center" == "justifyCenter";
    }
    assert CommandFor("alignRight") == Some(Exec("justifyRight", "")) by {
      assert "alignRight"[5..] == "Right" && "justify" + "Right" == "justifyRight";
    }
  }

  lemma {:induction false} FieldHeadWhole(w: string)
    requires '-' !in w
    ensures FieldHead(w) == w
  {
    if w != [] {
      FieldHeadWhole(w[1..]);
      assert [w[0]] + w[1..] == w;
    }
  }

  /** `(p + '-' + w).split('-')[1] == w` when neither part contains a dash. */
  lemma {:induction false} SecondFieldOf(p: string, w: string)
    requires '-' !in p && '-' !in w
    ensures SecondField(p + "-" + w) == w
  {
    if p == [] {
      assert ("-" + w)[1..] == w;
      FieldHeadWhole(w);
    } else {
      assert (p + "-" + w)[1..] == p[1..] + "-" + w;
      SecondFieldOf(p[1..], w);
    }
  }

  lemma ListDecimal()
    ensures CommandFor("list-decimal") == Some(ApplyList("decimal"))
  {
    assert "list-decimal" == "list" + "-" + "decimal";
    SecondFieldOf("list", "decimal");
  }

  lemma ListAlpha()
    ensures CommandFor("list-alpha") == Some(ApplyList("alpha"))
  {
    assert "list-alpha" == "list" + "-" + "alpha";
    SecondFieldOf("list", "alpha");
  }

  lemma ListRoman()
    ensures CommandFor("list-roman") == Some(ApplyList("roman"))
  {
    assert "list-roman" == "list" + "-" + "roman";
    SecondFieldOf("list", "roman");
  }

  lemma ListBullet()
    ensures CommandFor("list-bullet") == Some(ApplyList("bullet"))
  {
    assert "list-bullet" == "list" + "-" + "bullet";
    SecondFieldOf("list", "bullet");
  }

  /** The four list formats pass the word after the dash to formatList. */
  lemma ListFormats()
    ensures CommandFor("list-decimal") == Some(ApplyList("decimal"))
    ensures CommandFor("list-alpha") == Some(ApplyList("alpha"))
    ensures CommandFor("list-roman") == Some(ApplyList("roman"))
    ensures CommandFor("list-bullet") == Some(ApplyList("bullet"))
  {
    ListDecimal();
    ListAlpha();
    ListRoman();
    ListBullet();
  }

  /** The font-size code the menu entry `fontSize-n` sets, None when it sets none. */
  function FontSizeCode(format: string): Option<string> {
    match CommandFor(format)
    case Some(Exec(name, v)) => if name == "fontSize" then Some(v) else None
    case _ => None
  }

  lemma FontSizeSmall() ensures FontSizeCode("fontSize-1") == Some("2") {}
  lemma FontSizeNormal() ensures FontSizeCode("fontSize-2") == Some("3") {}
  lemma FontSizeLarge() ensures FontSizeCode("fontSize-3") == Some("5") {}
  lemma FontSizeExtraLarge() ensures FontSizeCode("fontSize-4") == Some("7") {}

  /** The font-size menu: Small, Normal, Large and Extra Large set the codes 2, 3, 5 and
      7, in increasing order of size. */
  lemma FontSizeCodes()
    ensures FontSizeCode("fontSize-1") == Some("2") && FontSizeCode("fontSize-2") == Some("3")
    ensures FontSizeCode("fontSize-3") == Some("5") && FontSizeCode("fontSize-4") == Some("7")
  {
    FontSizeSmall();
    FontSizeNormal();
    FontSizeLarge();
    FontSizeExtraLarge();
  }

  /** Every format either issues exactly one command or none, and the formats that issue
      none are those the switch does not name. */
  lemma UnknownFormatIssuesNothing(format: string)
    requires format !in {"bold", "italic", "underline", "alignLeft", "alignCenter", "alignRight",
      "heading-1", "heading-2", "heading-3", "list-decimal", "list-alpha", "list-roman", "list-bullet",
      "fontSize-1", "fontSize-2", "fontSize-3", "fontSize-4"}
    ensures CommandFor(format) == None
  {
  }

  // ----- lists -----

  /** The element formatList creates: a bulleted list for 'bullet', a numbered one otherwise. */
  function ListTag(listType: string): (tag: string)
    ensures tag == "ul" <==> listType == "bullet"
    ensures tag == "ul" || tag == "ol"
  {
    if listType == "bullet" then "ul" else "ol"
  }

  /** The list-style-type formatList sets, on either path; None leaves the browser's default. */
  function ListStyleFor(listType: string): (style: Option<string>)
    ensures listType == "bullet" ==> style == None
  {
    if listType == "bullet" then None
    else if listType == "decimal" then Some("decimal")
    else if listType == "alpha" then Some("lower-alpha")
    else if listType == "roman" then Some("lower-roman")
    else None
  }

  /** The editing command that inserts a new list of the given type. */
  function InsertCommand(listType: string): (name: string)
    ensures name == "insertUnorderedList" <==> ListTag(listType) == "ul"
  {
    if listType == "bullet" then "insertUnorderedList" else "insertOrderedList"
  }

  /** Each list menu entry gives a numbered list with its own marker style, and the three
      styles differ. */
  lemma ListStyles()
    ensures ListTag("decimal") == ListTag("alpha") == ListTag("roman") == "ol"
    ensures ListStyleFor("decimal") == Some("decimal")
    ensures ListStyleFor("alpha") == Some("lower-alpha")
    ensures ListStyleFor("roman") == Some("lower-roman")
  {
  }

  /** A list element: its tag, its inline list-style-type and the inner HTML of its items. */
  datatype ListElement = ListElement(tag: string, style: Option<string>, items: seq<string>)

  /** What formatList does to the editor. */
  datatype ListEdit =
    | NoEdit
      /** The enclosing list is replaced by `list`. */
    | Replaced(list: ListElement)
      /** `command` is executed; when the list it creates is found, `restyle` is set on it. */
    | Inserted(command: string, restyle: Option<string>)

  /** What `formatList(listType)` does, given whether the editor element is mounted
      (`hasEditor`), the selection's range count (`rangeCount`, 0 when there is no
      selection), the inner HTML of the children of the enclosing `ol`/`ul` when the
      selection is inside one (`container`), and whether, after a list is inserted, the
      selection is inside the new list (`insertedFound`): nothing without an editor or a
      range; the enclosing list replaced by a rebuilt one holding the same items in the
      same order; otherwise a new list inserted and, when found, restyled. */
  predicate ListEditOf(listType: string, hasEditor: bool, rangeCount: nat, container: Option<seq<string>>,
                       insertedFound: bool, edit: ListEdit) {
    && (!hasEditor || rangeCount == 0 ==> edit == NoEdit)
    && (hasEditor && rangeCount > 0 && container.Some? ==>
          edit == Replaced(ListElement(ListTag(listType), ListStyleFor(listType), container.value)))
    && (hasEditor && rangeCount > 0 && container.None? ==>
          edit == Inserted(InsertCommand(listType), if insertedFound then ListStyleFor(listType) else None))
  }

  /** `formatList(listType)`: the rebuild copies the items one by one into the new list. */
  method FormatList(listType: string, hasEditor: bool, rangeCount: nat, container: Option<seq<string>>,
                    insertedFound: bool) returns (edit: ListEdit)
    ensures ListEditOf(listType, hasEditor, rangeCount, container, insertedFound, edit)
  {
    if !hasEditor || rangeCount == 0 {
      return NoEdit;
    }
    match container
    case Some(children) =>
      var items: seq<string> := [];
      var i := 0;
      while i < |children|
        invariant 0 <= i <= |children|
        invariant items == children[..i]
      {
        items := items + [children[i]];
        i := i + 1;
      }
      assert children[..|children|] == children;
      var style := if listType != "bullet" then ListStyleFor(listType) else None;
      edit := Replaced(ListElement(ListTag(listType), style, items));
    case None =>
      var restyle := if insertedFound && listType != "bullet" then ListStyleFor(listType) else None;
      edit := Inserted(InsertCommand(listType), restyle);
  }

  /** The marker style does not depend on whether the selection was already in a list: a
      rebuilt list and a newly inserted one get the same style (when the new one is found). */
  lemma SameStyleOnBothPaths(listType: string, children: seq<string>)
    ensures Replaced(ListElement(ListTag(listType), ListStyleFor(listType), children)).list.style
      == Inserted(InsertCommand(listType), ListStyleFor(listType)).restyle
    ensures (ListTag(listType) == "ul") == (InsertCommand(listType) == "insertUnorderedList")
  {
  }

  // ----- active formats -----

  /** The tags `updateActiveFormats` can record, in the order it asks, each with the
      command whose state it asks the browser about. */
  const FormatQueries: seq<(string, string)> := [
    ("bold", "bold"), ("italic", "italic"), ("underline", "underline"),
    ("alignLeft", "justifyLeft"), ("alignCenter", "justifyCenter"), ("alignRight", "justifyRight"),
    ("orderedList", "insertOrderedList"), ("unorderedList", "insertUnorderedList")]

  /** The set `updateActiveFormats` builds: the tag of each of the eight commands the
      browser reports as on. */
  function ActiveSet(queryCommandState: string -> bool): set<string> {
    {}
      + (if queryCommandState("bold") then {"bold"} else {})
      + (if queryCommandState("italic") then {"italic"} else {})
      + (if queryCommandState("underline") then {"underline"} else {})
      + (if queryCommandState("justifyLeft") then {"alignLeft"} else {})
      + (if queryCommandState("justifyCenter") then {"alignCenter"} else {})
      + (if queryCommandState("justifyRight") then {"alignRight"} else {})
      + (if queryCommandState("insertOrderedList") then {"orderedList"} else {})
      + (if queryCommandState("insertUnorderedList") then {"unorderedList"} else {})
  }

  /** `updateActiveFormats`: a new set, starting empty, to which the browser is asked
      about each of the eight commands in turn and the tag added when the command is on.
      The set shown before plays no part. */
  method ActiveFormats(queryCommandState: string -> bool) returns (active: set<string>)
    ensures active == ActiveSet(queryCommandState)
  {
    active := {};
    active := active + (if queryCommandState("bold") then {"bold"} else {});
    active := active + (if queryCommandState("italic") then {"italic"} else {});
    active := active + (if queryCommandState("underline") then {"underline"} else {});
    active := active + (if queryCommandState("justifyLeft") then {"alignLeft"} else {});
    active := active + (if queryCommandState("justifyCenter") then {"alignCenter"} else {});
    active := active + (if queryCommandState("justifyRight") then {"alignRight"} else {});
    active := active + (if queryCommandState("insertOrderedList") then {"orderedList"} else {});
    active := active + (if queryCommandState("insertUnorderedList") then {"unorderedList"} else {});
  }

  lemma BoldTracked(queryCommandState: string -> bool)
    ensures "bold" in ActiveSet(queryCommandState) <==> queryCommandState("bold")
  {
  }

  lemma ItalicTracked(queryCommandState: string -> bool)
    ensures "italic" in ActiveSet(queryCommandState) <==> queryCommandState("italic")
  {
  }

  lemma UnderlineTracked(queryCommandState: string -> bool)
    ensures "underline" in ActiveSet(queryCommandState) <==> queryCommandState("underline")
  {
  }

  lemma AlignLeftTracked(queryCommandState: string -> bool)
    ensures "alignLeft" in ActiveSet(queryCommandState) <==> queryCommandState("justifyLeft")
  {
  }

  lemma AlignCenterTracked(queryCommandState: string -> bool)
    ensures "alignCenter" in ActiveSet(queryCommandState) <==> queryCommandState("justifyCenter")
  {
  }

  lemma AlignRightTracked(queryCommandState: string -> bool)
    ensures "alignRight" in ActiveSet(queryCommandState) <==> queryCommandState("justifyRight")
  {
  }

  lemma OrderedListTracked(queryCommandState: string -> bool)
    ensures "orderedList" in ActiveSet(queryCommandState) <==> queryCommandState("insertOrderedList")
  {
  }

  lemma UnorderedListTracked(queryCommandState: string -> bool)
    ensures "unorderedList" in ActiveSet(queryCommandState) <==> queryCommandState("insertUnorderedList")
  {
  }

  /** The eight tags of the table. */
  const TrackedTags: set<string> :=
    {"bold", "italic", "underline", "alignLeft", "alignCenter", "alignRight", "orderedList", "unorderedList"}

  /** Only the eight tags of the table can ever be in the set. */
  lemma OnlyTrackedTags(queryCommandState: string -> bool)
    ensures ActiveSet(queryCommandState) <= TrackedTags
  {
  }

  /** Each tag of the table is in the set exactly when the browser reports its own
      command as on. */
  lemma ActiveSetExactly(queryCommandState: string -> bool, i: nat)
    requires i < |FormatQueries|
    ensures FormatQueries[i].0 in ActiveSet(queryCommandState) <==> queryCommandState(FormatQueries[i].1)
  {
    if i == 0 {
      assert FormatQueries[i] == ("bold", "bold");
      BoldTracked(queryCommandState);
    } else if i == 1 {
      assert FormatQueries[i] == ("italic", "italic");
      ItalicTracked(queryCommandState);
    } else if i == 2 {
      assert FormatQueries[i] == ("underline", "underline");
      UnderlineTracked(queryCommandState);
    } else if i == 3 {
      assert FormatQueries[i] == ("alignLeft", "justifyLeft");
      AlignLeftTracked(queryCommandState);
    } else if i == 4 {
      assert FormatQueries[i] == ("alignCenter", "justifyCenter");
      AlignCenterTracked(queryCommandState);
    } else if i == 5 {
      assert FormatQueries[i] == ("alignRight", "justifyRight");
      AlignRightTracked(queryCommandState);
    } else if i == 6 {
      assert FormatQueries[i] == ("orderedList", "insertOrderedList");
      OrderedListTracked(queryCommandState);
    } else {
      assert FormatQueries[i] == ("unorderedList", "insertUnorderedList");
      UnorderedListTracked(queryCommandState);
    }
  }

  /** The formats of the toolbar's button row, in order. */
  const ToolbarFormats: seq<string> :=
    ["bold", "italic", "underline", "alignLeft", "alignCenter", "alignRight", "list-bullet"]

  /** `isFormatActive(format)`: the button for `format` is drawn as pressed. */
  predicate IsFormatActive(active: set<string>, format: string) {
    format in active
  }

  /** For the first six toolbar buttons, the button is drawn pressed exactly when the
      browser reports the command that button issues as on. */
  lemma ToolbarButtonsTrackTheirCommand(queryCommandState: string -> bool, i: nat)
    requires i < 6
    ensures CommandFor(ToolbarFormats[i]).Some? && CommandFor(ToolbarFormats[i]).value.Exec?
    ensures IsFormatActive(ActiveSet(queryCommandState), ToolbarFormats[i])
      <==> queryCommandState(CommandFor(ToolbarFormats[i]).value.name)
  {
    AlignCommands();
    assert ToolbarFormats[i] == FormatQueries[i].0 && CommandFor(ToolbarFormats[i]).value.name == FormatQueries[i].1 by {
      assert i == 0 || i == 1 || i == 2 || i == 3 || i == 4 || i == 5;
    }
    ActiveSetExactly(queryCommandState, i);
  }

  /** As written, the bullet-list button is never drawn pressed: it asks for the tag
      'list-bullet', while the set records a bulleted list as 'unorderedList'. With the
      browser reporting a bulleted list, the set says so and the button does not. */
  lemma BulletButtonNeverActive(queryCommandState: string -> bool)
    ensures !IsFormatActive(ActiveSet(queryCommandState), "list-bullet")
    ensures queryCommandState("insertUnorderedList") ==> "unorderedList" in ActiveSet(queryCommandState)
  {
    OnlyTrackedTags(queryCommandState);
    UnorderedListTracked(queryCommandState);
  }

  /** The tag a toolbar button should look up: the list-bullet button stands for the
      bulleted list the set records as 'unorderedList'. */
  function ButtonTag(format: string): (tag: string)
    ensures format != "list-bullet" ==> tag == format
  {
    if format == "list-bullet" then "unorderedList" else format
  }

  /** Corrected `isFormatActive`: looks the button's format up under its set tag. */
  predicate IsButtonActive(active: set<string>, format: string) {
    ButtonTag(format) in active
  }

  /** With the corrected lookup the bullet-list button is drawn pressed exactly when the
      browser reports as on insertUnorderedList, the command of a new bulleted list. */
  lemma CorrectedBulletButtonTracksList(queryCommandState: string -> bool)
    ensures IsButtonActive(ActiveSet(queryCommandState), "list-bullet")
      <==> queryCommandState(InsertCommand("bullet"))
  {
    UnorderedListTracked(queryCommandState);
  }

  /** With the corrected lookup every toolbar button, the bullet-list one included, is
      drawn pressed exactly when the browser reports as on the command that inserts
      what the button makes (for list-bullet: the command of a new bulleted list). */
  lemma CorrectedButtonsTrackTheirCommand(queryCommandState: string -> bool, i: nat)
    requires i < |ToolbarFormats|
    ensures i < 6 ==> (IsButtonActive(ActiveSet(queryCommandState), ToolbarFormats[i])
      <==> queryCommandState(CommandFor(ToolbarFormats[i]).value.name))
    ensures i == 6 ==> ToolbarFormats[i] == "list-bullet" && CommandFor(ToolbarFormats[i]) == Some(ApplyList("bullet"))
    ensures i == 6 ==>
      (IsButtonActive(ActiveSet(queryCommandState), ToolbarFormats[i]) <==> queryCommandState(InsertCommand("bullet")))
  {
    if i < 6 {
      assert ToolbarFormats[i] != "list-bullet";
      ToolbarButtonsTrackTheirCommand(queryCommandState, i);
    } else {
      ListBullet();
      CorrectedBulletButtonTracksList(queryCommandState);
    }
  }
}
