/** The document editor's form, in its two variants: AddDocumentForm (desktop) and
    AddDocumentFormMobile. Both hold the title, the editor's content, the saving flag,
    the active formats, the two toolbar dropdowns and a toast; the mobile one also has
    a sidebar and shows no toast for the outcome of a save. The save is asynchronous:
    it starts (validation, then the call) and later settles. */
module DocumentEditor {
  import opened Text
  import opened EditorFormatting

  datatype Layout = Desktop | Mobile

  datatype ToastKind = Success | Warning

  const DefaultTitle: string := "Untitled"
  const TitleMissingMessage: string := "Please provide a title for your document."
  const ContentMissingMessage: string := "Please add some content to your document."
  const SavedMessage: string := "Document saved successfully!"
  const SaveFailedMessage: string := "Error saving document. Please try again."

  /** The outcome of the two checks `handleSave` makes before saving. */
  datatype Verdict = MissingTitle | MissingContent | Ready

  /** The checks in their order: first the trimmed title (neither the default title nor
      empty), then the editor (mounted, with non-blank markup). */
  function Validate(title: string, editor: Option<string>): Verdict {
    if Trim(title) == DefaultTitle || Trim(title) == "" then MissingTitle
    else if editor.None? || Trim(editor.value) == "" then MissingContent
    else Ready
  }

  /** A save goes ahead exactly when the title is neither blank nor the default title and
      the editor holds markup that is not blank; the title is checked first, so a bad
      title is reported whatever the content. */
  lemma ValidateExactly(title: string, editor: Option<string>)
    ensures Validate(title, editor) == Ready
      <==> !IsBlank(title) && Trim(title) != DefaultTitle && editor.Some? && !IsBlank(editor.value)
    ensures IsBlank(title) || Trim(title) == DefaultTitle ==> Validate(title, editor) == MissingTitle
    ensures Validate(title, editor) == MissingContent
      <==> !IsBlank(title) && Trim(title) != DefaultTitle && (editor.None? || IsBlank(editor.value))
  {
  }

  /** The default title is refused even with white space around it. */
  lemma PaddedDefaultTitleRefused(before: string, after: string, editor: Option<string>)
    requires AllSpaces(before) && AllSpaces(after)
    ensures Validate(before + DefaultTitle + after, editor) == MissingTitle
  {
    TrimPadded(before, DefaultTitle, after);
  }

  /** A title of white space only is refused. */
  lemma BlankTitleRefused(title: string, editor: Option<string>)
    requires AllSpaces(title)
    ensures Validate(title, editor) == MissingTitle
  {
  }

  /** Content of white space only is refused once the title is acceptable. */
  lemma BlankContentRefused(title: string, content: string)
    requires !IsBlank(title) && Trim(title) != DefaultTitle
    requires AllSpaces(content)
    ensures Validate(title, Some(content)) == MissingContent
  {
  }

  /** What `handleSave` hands to `addDocument`: the title and the markup as they are,
      without trimming. */
  datatype SaveCall = SaveCall(title: string, content: string)

  /** The toasts a form can show: the two validation warnings on both forms, the outcome
      of a save only on the desktop form; success is shown with the success style only. */
  predicate ToastAllowed(layout: Layout, message: string, kind: ToastKind) {
    || (message == TitleMissingMessage && kind == Warning)
    || (message == ContentMissingMessage && kind == Warning)
    || (layout == Desktop && message == SavedMessage && kind == Success)
    || (layout == Desktop && message == SaveFailedMessage && kind == Warning)
  }

  class DocumentForm {
    const layout: Layout
    var title: string
    /** The editor element's inner HTML; None before the element is mounted. */
    var editor: Option<string>
    var isSaving: bool
    var activeFormats: set<string>
    var showListOptions: bool
    var showFontSizes: bool
    var showToast: bool
    var toastMessage: string
    var toastKind: ToastKind
    /** Only the mobile form has a sidebar. */
    var sidebarOpen: bool

    /** At most one dropdown is open, the desktop form never has a sidebar open, a shown
        toast is one the form can show, and the active set holds only tracked tags. */
    ghost predicate Valid()
      reads this
    {
      && !(showListOptions && showFontSizes)
      && (layout == Desktop ==> !sidebarOpen)
      && (showToast ==> ToastAllowed(layout, toastMessage, toastKind))
      && activeFormats <= TrackedTags
    }

    /** The state after the first render, with the editor element mounted and empty. */
    constructor(layout: Layout)
      ensures Valid()
      ensures this.layout == layout && title == DefaultTitle && editor == Some("")
      ensures !isSaving && activeFormats == {} && !showListOptions && !showFontSizes
      ensures !showToast && toastMessage == "" && toastKind == Success && !sidebarOpen
    {
      this.layout := layout;
      title := DefaultTitle;
      editor := Some("");
      isSaving := false;
      activeFormats := {};
      showListOptions := false;
      showFontSizes := false;
      showToast := false;
      toastMessage := "";
      toastKind := Success;
      sidebarOpen := false;
    }

    /** The title input's change handler. */
    method SetTitle(value: string)
      requires Valid()
      modifies this
      ensures Valid()
      ensures title == value
      ensures editor == old(editor) && isSaving == old(isSaving) && activeFormats == old(activeFormats)
      ensures showListOptions == old(showListOptions) && showFontSizes == old(showFontSizes)
      ensures showToast == old(showToast) && toastMessage == old(toastMessage) && toastKind == old(toastKind)
      ensures sidebarOpen == old(sidebarOpen)
    {
      title := value;
    }

    /** Typing in the editor: the browser changes the markup to `html`, and the input
        handler recomputes the active formats. */
    method Input(html: string, queryCommandState: string -> bool)
      requires Valid() && editor.Some?
      modifies this
      ensures Valid()
      ensures editor == Some(html) && activeFormats == ActiveSet(queryCommandState)
      ensures title == old(title) && isSaving == old(isSaving)
      ensures showListOptions == old(showListOptions) && showFontSizes == old(showFontSizes)
      ensures showToast == old(showToast) && toastMessage == old(toastMessage) && toastKind == old(toastKind)
      ensures sidebarOpen == old(sidebarOpen)
    {
      editor := Some(html);
      UpdateActiveFormats(queryCommandState);
    }

    /** `updateActiveFormats`, also run on key-up and mouse-up in the editor: the set is
        replaced by a freshly built one. */
    method UpdateActiveFormats(queryCommandState: string -> bool)
      requires Valid()
      modifies this
      ensures Valid()
      ensures activeFormats == ActiveSet(queryCommandState)
      ensures title == old(title) && editor == old(editor) && isSaving == old(isSaving)
      ensures showListOptions == old(showListOptions) && showFontSizes == old(showFontSizes)
      ensures showToast == old(showToast) && toastMessage == old(toastMessage) && toastKind == old(toastKind)
      ensures sidebarOpen == old(sidebarOpen)
    {
      var formats := ActiveFormats(queryCommandState);
      OnlyTrackedTags(queryCommandState);
      activeFormats := formats;
    }

    /** A warning toast. */
    method Warn(message: string)
      requires Valid()
      requires ToastAllowed(layout, message, Warning)
      modifies this
      ensures Valid()
      ensures showToast && toastMessage == message && toastKind == Warning
      ensures title == old(title) && editor == old(editor) && isSaving == old(isSaving)
      ensures activeFormats == old(activeFormats)
      ensures showListOptions == old(showListOptions) && showFontSizes == old(showFontSizes)
      ensures sidebarOpen == old(sidebarOpen)
    {
      toastMessage := message;
      toastKind := Warning;
      showToast := true;
    }

    /** `handleSave` up to its `await`: a refused save shows the warning of the first
        failed check and calls nothing; an accepted one raises the saving flag and calls
        `addDocument` with the title and markup as they stand. */
    method StartSave() returns (call: Option<SaveCall>)
      requires Valid()
      modifies this
      ensures Valid()
      ensures Validate(old(title), old(editor)) == MissingTitle ==>
        call == None && showToast && toastMessage == TitleMissingMessage && toastKind == Warning
        && isSaving == old(isSaving)
      ensures Validate(old(title), old(editor)) == MissingContent ==>
        call == None && showToast && toastMessage == ContentMissingMessage && toastKind == Warning
        && isSaving == old(isSaving)
      ensures Validate(old(title), old(editor)) == Ready ==>
        call == Some(SaveCall(old(title), old(editor).value)) && isSaving
        && showToast == old(showToast) && toastMessage == old(toastMessage) && toastKind == old(toastKind)
      ensures title == old(title) && editor == old(editor) && activeFormats == old(activeFormats)
      ensures showListOptions == old(showListOptions) && showFontSizes == old(showFontSizes)
      ensures sidebarOpen == old(sidebarOpen)
    {
      var verdict := Validate(title, editor);
      if verdict == MissingTitle {
        Warn(TitleMissingMessage);
        return None;
      }
      if verdict == MissingContent {
        Warn(ContentMissingMessage);
        return None;
      }
      isSaving := true;
      call := Some(SaveCall(title, editor.value));
    }

    /** `handleSave` after its `await`, `ok` telling whether `addDocument` resolved. On
        success the title goes back to the default and a mounted editor is emptied; on
        failure both are kept. The desktop form reports the outcome in a toast, the
        mobile one does not. The saving flag ends lowered either way. */
    method FinishSave(ok: bool)
      requires Valid()
      modifies this
      ensures Valid()
      ensures ok ==> title == DefaultTitle && editor == (if old(editor).Some? then Some("") else None)
      ensures !ok ==> title == old(title) && editor == old(editor)
      ensures !isSaving
      ensures layout == Desktop ==>
        showToast && toastMessage == (if ok then SavedMessage else SaveFailedMessage)
        && toastKind == (if ok then Success else Warning)
      ensures layout == Mobile ==>
        showToast == old(showToast) && toastMessage == old(toastMessage) && toastKind == old(toastKind)
      ensures activeFormats == old(activeFormats)
      ensures showListOptions == old(showListOptions) && showFontSizes == old(showFontSizes)
      ensures sidebarOpen == old(sidebarOpen)
    {
      if ok {
        title := DefaultTitle;
        if editor.Some? {
          editor := Some("");
        }
        if layout == Desktop {
          toastMessage := SavedMessage;
          toastKind := Success;
          showToast := true;
        }
      } else if layout == Desktop {
        Warn(SaveFailedMessage);
      }
      isSaving := false;
    }

    /** The whole of `handleSave` when nothing happens while the call is pending and the
        call settles with `ok`. */
    method HandleSave(ok: bool) returns (call: Option<SaveCall>)
      requires Valid()
      modifies this
      ensures Valid()
      ensures call.Some? <==> Validate(old(title), old(editor)) == Ready
      ensures call.Some? ==> call.value == SaveCall(old(title), old(editor).value) && !isSaving
      ensures call.Some? && ok ==> title == DefaultTitle && editor == Some("")
      ensures call.None? || !ok ==> title == old(title) && editor == old(editor)
      ensures call.None? ==> isSaving == old(isSaving)
      ensures activeFormats == old(activeFormats)
      ensures showListOptions == old(showListOptions) && showFontSizes == old(showFontSizes)
      ensures sidebarOpen == old(sidebarOpen)
    {
      call := StartSave();
      if call.Some? {
        FinishSave(ok);
      }
    }

    /** `handleFormatting(format)`: with the editor mounted, the command for `format` is
        issued (a list format goes through formatList with the selection's answers), then
        the active formats are recomputed from the browser's answers after the command;
        without an editor nothing happens. */
    method HandleFormatting(format: string, queryCommandState: string -> bool, rangeCount: nat,
                            container: Option<seq<string>>, insertedFound: bool)
      returns (command: Option<Command>, edit: ListEdit)
      requires Valid()
      modifies this
      ensures Valid()
      ensures old(editor).None? ==> command == None && edit == NoEdit && activeFormats == old(activeFormats)
      ensures old(editor).Some? ==> command == CommandFor(format) && activeFormats == ActiveSet(queryCommandState)
      ensures old(editor).Some? && command.Some? && command.value.ApplyList? ==>
        ListEditOf(command.value.listType, true, rangeCount, container, insertedFound, edit)
      ensures !(command.Some? && command.value.ApplyList?) ==> edit == NoEdit
      ensures title == old(title) && editor == old(editor) && isSaving == old(isSaving)
      ensures showListOptions == old(showListOptions) && showFontSizes == old(showFontSizes)
      ensures showToast == old(showToast) && toastMessage == old(toastMessage) && toastKind == old(toastKind)
      ensures sidebarOpen == old(sidebarOpen)
    {
      command, edit := None, NoEdit;
      if editor.None? {
        return;
      }
      command := CommandFor(format);
      if command.Some? && command.value.ApplyList? {
        edit := FormatList(command.value.listType, true, rangeCount, container, insertedFound);
      }
      UpdateActiveFormats(queryCommandState);
    }

    /** The list dropdown's toggle: it stops the click from reaching the document, flips
        its own menu and closes the font-size menu. */
    method ToggleListOptions()
      requires Valid()
      modifies this
      ensures Valid()
      ensures showListOptions == !old(showListOptions) && !showFontSizes
      ensures title == old(title) && editor == old(editor) && isSaving == old(isSaving)
      ensures activeFormats == old(activeFormats)
      ensures showToast == old(showToast) && toastMessage == old(toastMessage) && toastKind == old(toastKind)
      ensures sidebarOpen == old(sidebarOpen)
    {
      showListOptions := !showListOptions;
      showFontSizes := false;
    }

    /** The font-size dropdown's toggle, the mirror image of the list one. */
    method ToggleFontSizes()
      requires Valid()
      modifies this
      ensures Valid()
      ensures showFontSizes == !old(showFontSizes) && !showListOptions
      ensures title == old(title) && editor == old(editor) && isSaving == old(isSaving)
      ensures activeFormats == old(activeFormats)
      ensures showToast == old(showToast) && toastMessage == old(toastMessage) && toastKind == old(toastKind)
      ensures sidebarOpen == old(sidebarOpen)
    {
      showFontSizes := !showFontSizes;
      showListOptions := false;
    }

    /** A list menu entry: formatList with the entry's list type (the active formats are
        not recomputed), then the menu closes. */
    method ChooseListOption(listType: string, rangeCount: nat, container: Option<seq<string>>,
                            insertedFound: bool) returns (edit: ListEdit)
      requires Valid()
      modifies this
      ensures Valid()
      ensures ListEditOf(listType, old(editor).Some?, rangeCount, container, insertedFound, edit)
      ensures !showListOptions && showFontSizes == old(showFontSizes)
      ensures title == old(title) && editor == old(editor) && isSaving == old(isSaving)
      ensures activeFormats == old(activeFormats)
      ensures showToast == old(showToast) && toastMessage == old(toastMessage) && toastKind == old(toastKind)
      ensures sidebarOpen == old(sidebarOpen)
    {
      edit := FormatList(listType, editor.Some?, rangeCount, container, insertedFound);
      showListOptions := false;
    }

    /** A font-size menu entry (`size` 1 to 4 for Small, Normal, Large, Extra Large):
        handleFormatting with 'fontSize-<size>', then the menu closes. */
    method ChooseFontSize(size: nat, queryCommandState: string -> bool) returns (command: Option<Command>)
      requires Valid()
      requires 1 <= size <= 4
      modifies this
      ensures Valid()
      ensures old(editor).Some? ==>
        command == CommandFor(["fontSize-1", "fontSize-2", "fontSize-3", "fontSize-4"][size - 1])
        && activeFormats == ActiveSet(queryCommandState)
      ensures old(editor).None? ==> command == None && activeFormats == old(activeFormats)
      ensures !showFontSizes && showListOptions == old(showListOptions)
      ensures title == old(title) && editor == old(editor) && isSaving == old(isSaving)
      ensures showToast == old(showToast) && toastMessage == old(toastMessage) && toastKind == old(toastKind)
      ensures sidebarOpen == old(sidebarOpen)
    {
      var format := ["fontSize-1", "fontSize-2", "fontSize-3", "fontSize-4"][size - 1];
      var edit;
      command, edit := HandleFormatting(format, queryCommandState, 0, None, false);
      showFontSizes := false;
    }

    /** The document's click listener. On the mobile form an open sidebar is closed when
        the viewport is narrower than 768 pixels, an element of class 'sidebar' is found
        and the click landed outside it; on both forms every click closes both dropdowns. */
    method ClickOutside(innerWidth: int, sidebarFound: bool, targetInSidebar: bool)
      requires Valid()
      modifies this
      ensures Valid()
      ensures !showListOptions && !showFontSizes
      ensures sidebarOpen == (old(sidebarOpen)
        && !(layout == Mobile && innerWidth < 768 && sidebarFound && !targetInSidebar))
      ensures title == old(title) && editor == old(editor) && isSaving == old(isSaving)
      ensures activeFormats == old(activeFormats)
      ensures showToast == old(showToast) && toastMessage == old(toastMessage) && toastKind == old(toastKind)
    {
      if layout == Mobile && sidebarOpen && innerWidth < 768 {
        if sidebarFound && !targetInSidebar {
          sidebarOpen := false;
        }
      }
      showListOptions := false;
      showFontSizes := false;
    }

    /** The mobile form's menu button. */
    method ToggleSidebar()
      requires Valid() && layout == Mobile
      modifies this
      ensures Valid()
      ensures sidebarOpen == !old(sidebarOpen)
      ensures title == old(title) && editor == old(editor) && isSaving == old(isSaving)
      ensures activeFormats == old(activeFormats)
      ensures showListOptions == old(showListOptions) && showFontSizes == old(showFontSizes)
      ensures showToast == old(showToast) && toastMessage == old(toastMessage) && toastKind == old(toastKind)
    {
      sidebarOpen := !sidebarOpen;
    }

    /** The toast's close button. */
    method CloseToast()
      requires Valid()
      modifies this
      ensures Valid()
      ensures !showToast && toastMessage == old(toastMessage) && toastKind == old(toastKind)
      ensures title == old(title) && editor == old(editor) && isSaving == old(isSaving)
      ensures activeFormats == old(activeFormats)
      ensures showListOptions == old(showListOptions) && showFontSizes == old(showFontSizes)
      ensures sidebarOpen == old(sidebarOpen)
    {
      showToast := false;
    }

    /** Whether the toolbar button for `format` is drawn pressed. */
    predicate IsFormatActive(format: string)
      reads this
    {
      EditorFormatting.IsFormatActive(activeFormats, format)
    }
  }

  /** After a successful save the form holds the default title again, so saving once more
      is refused with the title warning until a new title is typed. */
  lemma SavedFormIsRefused(editor: Option<string>)
    ensures Validate(DefaultTitle, editor) == MissingTitle
  {
    PaddedDefaultTitleRefused("", "", editor);
    assert "" + DefaultTitle + "" == DefaultTitle;
  }
}
