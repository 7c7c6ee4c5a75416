/** The add-document page: the `addDocument` callback it hands to the desktop form and
    its own toast. The API call's outcome is a parameter. */
module DocumentPage {
  import opened Text
  import opened DocumentEditor

  const AddedMessage: string := "Document added successfully!"
  const AddFailedMessage: string := "Error adding document. Please try again."

  /** Whether the callback's promise resolves, given whether the API call did: the page
      catches the API's error and resolves anyway. */
  function CallbackResolves(apiOk: bool): (resolved: bool)
  {
    true
  }

  /** The callback that passes the API's error on to its caller. */
  function CorrectedCallbackResolves(apiOk: bool): (resolved: bool)
    ensures resolved <==> apiOk
  {
    apiOk
  }

  /** As written, the form cannot tell a failed call from a successful one. */
  lemma FailureIndistinguishable()
    ensures CallbackResolves(false) == CallbackResolves(true) == true
  {
  }

  class AddDocumentPage {
    var showToast: bool
    var toastMessage: string
    var toastKind: ToastKind

    constructor()
      ensures !showToast && toastMessage == "" && toastKind == Success
    {
      showToast := false;
      toastMessage := "";
      toastKind := Success;
    }

    /** The toast's close handler. */
    method CloseToast()
      modifies this
      ensures !showToast && toastMessage == old(toastMessage) && toastKind == old(toastKind)
    {
      showToast := false;
    }

    /** `handleAddDocument`: the API call's outcome is shown in the page's own toast, and
        the call's error is caught, so the returned promise resolves either way. */
    method HandleAddDocument(apiOk: bool) returns (resolved: bool)
      modifies this
      ensures resolved == CallbackResolves(apiOk)
      ensures showToast
      ensures apiOk ==> toastMessage == AddedMessage && toastKind == Success
      ensures !apiOk ==> toastMessage == AddFailedMessage && toastKind == Warning
    {
      if apiOk {
        toastMessage, toastKind := AddedMessage, Success;
      } else {
        toastMessage, toastKind := AddFailedMessage, Warning;
      }
      showToast := true;
      resolved := true;
    }

    /** The callback with the error passed on after the page's toast is shown. */
    method CorrectedHandleAddDocument(apiOk: bool) returns (resolved: bool)
      modifies this
      ensures resolved == CorrectedCallbackResolves(apiOk)
      ensures showToast
      ensures apiOk ==> toastMessage == AddedMessage && toastKind == Success
      ensures !apiOk ==> toastMessage == AddFailedMessage && toastKind == Warning
    {
      if apiOk {
        toastMessage, toastKind := AddedMessage, Success;
      } else {
        toastMessage, toastKind := AddFailedMessage, Warning;
      }
      showToast := true;
      resolved := apiOk;
    }
  }

  /** Saving from the desktop form on this page, as written: when the API call fails,
      the page reports the failure but the form still clears the title and the content
      and reports success. */
  method Save(page: AddDocumentPage, form: DocumentForm, apiOk: bool) returns (call: Option<SaveCall>)
    requires form.Valid() && form.layout == Desktop
    modifies page, form
    ensures form.Valid()
    ensures call.Some? <==> Validate(old(form.title), old(form.editor)) == Ready
    ensures call.Some? ==> form.title == DefaultTitle && form.editor == Some("")
    ensures call.Some? ==> form.toastMessage == SavedMessage && form.toastKind == Success && form.showToast
    ensures call.Some? && !apiOk ==> page.toastMessage == AddFailedMessage
  {
    call := form.StartSave();
    if call.Some? {
      var resolved := page.HandleAddDocument(apiOk);
      form.FinishSave(resolved);
    }
  }

  /** Saving with the corrected callback: a failed call keeps the title and the content
      in the form and both toasts report the failure. */
  method CorrectedSave(page: AddDocumentPage, form: DocumentForm, apiOk: bool) returns (call: Option<SaveCall>)
    requires form.Valid() && form.layout == Desktop
    modifies page, form
    ensures form.Valid()
    ensures call.Some? <==> Validate(old(form.title), old(form.editor)) == Ready
    ensures call.Some? && apiOk ==> form.title == DefaultTitle && form.editor == Some("")
    ensures call.Some? && !apiOk ==> form.title == old(form.title) && form.editor == old(form.editor)
    ensures call.Some? ==> form.showToast
    ensures call.Some? ==> form.toastMessage == (if apiOk then SavedMessage else SaveFailedMessage)
    ensures call.Some? ==> page.toastMessage == (if apiOk then AddedMessage else AddFailedMessage)
  {
    call := form.StartSave();
    if call.Some? {
      var resolved := page.CorrectedHandleAddDocument(apiOk);
      form.FinishSave(resolved);
    }
  }
}
