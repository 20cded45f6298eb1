/**
 * The post editor state holder of
 * presentation/screens/dashboard/addpost_screen/AddPostScreenViewModel.kt:
 * the form, the save-draft dialog, saving drafts and starting an upload.
 */
module AddPost {
  import opened Wrappers
  import opened UserDataStore
  import opened DraftDao

  /**
   * android.net.Uri, by its string form: Uri.parse(s).toString() gives s
   * back, which is all this screen relies on.
   */
  datatype Uri = Uri(text: string)

  /** AddPostFormState. */
  datatype AddPostFormState = AddPostFormState(
    postTitle: string,
    postBody: string,
    uri: Option<Uri>,
    isLoading: bool,
    isSaveDraftModalOpen: bool,
    isFromDraft: bool,
    draftId: Option<int>)

  /** The form a new screen starts with: empty, nothing attached, not from a draft. */
  const EmptyForm := AddPostFormState("", "", None, false, false, false, None)

  /** The upload request body; `photo` carries the title, as the screen fills it. */
  datatype PostBody = PostBody(
    postTitle: string, postBody: string, postedBy: string, postedOn: string, postedAt: string, photo: string)

  /** A started upload: the request body and the image to send with it. */
  datatype Upload = Upload(postBody: PostBody, uri: Uri)

  /** The one-shot messages the screen shows. */
  datatype UiEvent = ShowSnackbar(message: string)

  const DraftUpdated := "Your draft has been updated"
  const DraftSaved := "Your draft has been saved"
  const DraftSaveFailed := "Failed to save Draft"

  /** How a draft stores the image: "" for none, otherwise the uri's text. */
  function SavableImageUri(uri: Option<Uri>): (s: string)
    ensures uri.None? ==> s == ""
    ensures uri.Some? ==> s == uri.value.text
  {
    if uri.None? then "" else uri.value.text
  }

  /** How a loaded draft's image is read back: "" means none. */
  function LoadedUri(s: string): (u: Option<Uri>)
    ensures u.None? <==> s == ""
    ensures u.Some? ==> u.value.text == s
  {
    if s == "" then None else Some(Uri(s))
  }

  /** A stored image string survives a load and a save. */
  lemma StoredUriRoundTrip(s: string)
    ensures SavableImageUri(LoadedUri(s)) == s
  {
  }

  /**
   * An attached image survives a save and a load, except a uri whose text
   * is empty, which comes back as no image.
   */
  lemma AttachedUriRoundTrip(u: Option<Uri>)
    ensures LoadedUri(SavableImageUri(u)) == u <==> u != Some(Uri(""))
  {
  }

  /** The form after a stored draft has been loaded into it. */
  function WithDraft(form: AddPostFormState, d: DraftRecord): (r: AddPostFormState)
    ensures r.postTitle == d.postTitle && r.postBody == d.postBody
    ensures r.uri == LoadedUri(d.imageUri)
    ensures r.isFromDraft && r.draftId == Some(d.id)
    ensures r.isLoading == form.isLoading && r.isSaveDraftModalOpen == form.isSaveDraftModalOpen
  {
    form.(postTitle := d.postTitle, postBody := d.postBody, uri := LoadedUri(d.imageUri),
          isFromDraft := true, draftId := Some(d.id))
  }

  /** The draft row a save writes for the form under the given id. */
  function DraftOf(form: AddPostFormState, id: int): (d: DraftRecord)
    ensures d.id == id && d.postTitle == form.postTitle && d.postBody == form.postBody
    ensures d.imageUri == SavableImageUri(form.uri)
  {
    DraftRecord(id, form.postTitle, form.postBody, SavableImageUri(form.uri))
  }

  /** Opening a draft and saving it without edits writes back the very same row. */
  lemma ReopenedDraftSavesUnchanged(form: AddPostFormState, d: DraftRecord)
    ensures DraftOf(WithDraft(form, d), d.id) == d
  {
    StoredUriRoundTrip(d.imageUri);
  }

  /** The back button leaves directly only when both text fields are empty. */
  predicate LeavesOnBack(form: AddPostFormState)
  {
    form.postTitle == "" && form.postBody == ""
  }

  /** postArticle's author name: the signed-in user's username, or "" with nobody signed in. */
  function AuthorName(user: Option<User>): (name: string)
    ensures user.None? ==> name == ""
    ensures user.Some? ==> name == user.value.username
  {
    if user.None? then "" else user.value.username
  }

  class AddPostScreenViewModel {
    var formState: AddPostFormState

    /**
     * init: with a draft id among the navigation arguments, the stored
     * draft of that id, if there is one, is loaded into the empty form.
     */
    constructor (draftIdArg: Option<int>, drafts: DraftTable)
      requires drafts.Valid()
      ensures draftIdArg.Some? && DraftById(drafts.rows, draftIdArg.value).Some? ==>
        formState == WithDraft(EmptyForm, drafts.rows[draftIdArg.value])
      ensures draftIdArg.None? || DraftById(drafts.rows, draftIdArg.value).None? ==> formState == EmptyForm
    {
      formState := EmptyForm;
      if draftIdArg.Some? {
        var draft := DraftById(drafts.rows, draftIdArg.value);
        if draft.Some? {
          formState := WithDraft(EmptyForm, draft.value);
        }
      }
    }

    /** onCloseDialog */
    method OnCloseDialog()
      modifies this
      ensures formState == old(formState).(isSaveDraftModalOpen := false)
    {
      formState := formState.(isSaveDraftModalOpen := false);
    }

    /**
     * onBackPress: an empty form navigates back; a form with text opens
     * the save-draft dialog instead and stays.
     */
    method OnBackPress() returns (navigateBack: bool)
      modifies this
      ensures navigateBack <==> LeavesOnBack(old(formState))
      ensures navigateBack ==> formState == old(formState)
      ensures !navigateBack ==> formState == old(formState).(isSaveDraftModalOpen := true)
    {
      if formState.postTitle != "" || formState.postBody != "" {
        formState := formState.(isSaveDraftModalOpen := true);
        navigateBack := false;
      } else {
        navigateBack := true;
      }
    }

    /** onChangePostTitle */
    method OnChangePostTitle(text: string)
      modifies this
      ensures formState == old(formState).(postTitle := text)
    {
      formState := formState.(postTitle := text);
    }

    /** onChangePostBody */
    method OnChangePostBody(text: string)
      modifies this
      ensures formState == old(formState).(postBody := text)
    {
      formState := formState.(postBody := text);
    }

    /** onChangePhotoUri */
    method OnChangePhotoUri(uri: Option<Uri>)
      modifies this
      ensures formState == old(formState).(uri := uri)
    {
      formState := formState.(uri := uri);
    }

    /** onSaveDraftDismiss: closes the dialog and always navigates back, saving nothing. */
    method OnSaveDraftDismiss() returns (navigateBack: bool)
      modifies this
      ensures formState == old(formState).(isSaveDraftModalOpen := false)
      ensures navigateBack
    {
      formState := formState.(isSaveDraftModalOpen := false);
      navigateBack := true;
    }

    /**
     * onSaveDraftConfirm. The dialog closes. A form loaded from a draft
     * rewrites that draft; a new form inserts a draft under `newDraftId`,
     * the id the database generates. `ioFault` says the database call
     * throws an IOException: then nothing is written, the failure message
     * is shown and the screen stays. A form marked as from a draft but
     * without an id writes nothing, shows nothing and navigates back.
     */
    method OnSaveDraftConfirm(drafts: DraftTable, newDraftId: int, ioFault: bool)
      returns (navigateBack: bool, event: Option<UiEvent>)
      requires drafts.Valid() && newDraftId !in drafts.rows
      modifies this, drafts
      ensures drafts.Valid()
      ensures formState == old(formState).(isSaveDraftModalOpen := false)
      ensures var f := old(formState);
        if f.isFromDraft && f.draftId.None? then
          navigateBack && event == None && drafts.rows == old(drafts.rows)
        else if ioFault then
          !navigateBack && event == Some(ShowSnackbar(DraftSaveFailed)) && drafts.rows == old(drafts.rows)
        else if f.isFromDraft then
          navigateBack && event == Some(ShowSnackbar(DraftUpdated))
          && drafts.rows == old(drafts.rows)[f.draftId.value := DraftOf(f, f.draftId.value)]
        else
          navigateBack && event == Some(ShowSnackbar(DraftSaved))
          && drafts.rows == old(drafts.rows)[newDraftId := DraftOf(f, newDraftId)]
    {
      formState := formState.(isSaveDraftModalOpen := false);
      var savableImageUri := SavableImageUri(formState.uri);
      if formState.isFromDraft {
        if formState.draftId.Some? {
          if ioFault {
            return false, Some(ShowSnackbar(DraftSaveFailed));
          }
          var id := formState.draftId.value;
          drafts.InsertDraft(DraftRecord(id, formState.postTitle, formState.postBody, savableImageUri));
          event := Some(ShowSnackbar(DraftUpdated));
        } else {
          event := None;
        }
      } else {
        if ioFault {
          return false, Some(ShowSnackbar(DraftSaveFailed));
        }
        drafts.InsertDraft(DraftRecord(newDraftId, formState.postTitle, formState.postBody, savableImageUri));
        event := Some(ShowSnackbar(DraftSaved));
      }
      navigateBack := true;
    }

    /**
     * postArticle. `postedOn` and `postedAt` are the clock's date and time
     * as the screen formats them. Without an attached image nothing is
     * uploaded and the screen stays; with one, an upload of the form's
     * title and body by the signed-in user starts and the screen navigates
     * to the dashboard.
     */
    method PostArticle(user: Option<User>, postedOn: string, postedAt: string)
      returns (upload: Option<Upload>, navigateToDashboard: bool)
      ensures upload.Some? <==> formState.uri.Some?
      ensures navigateToDashboard <==> upload.Some?
      ensures upload.Some? ==> upload.value.uri == formState.uri.value
      ensures upload.Some? ==>
        upload.value.postBody ==
          PostBody(formState.postTitle, formState.postBody, AuthorName(user), postedOn, postedAt, formState.postTitle)
    {
      var body := PostBody(formState.postTitle, formState.postBody, AuthorName(user), postedOn, postedAt,
                           formState.postTitle);
      if formState.uri.Some? {
        upload := Some(Upload(body, formState.uri.value));
        navigateToDashboard := true;
      } else {
        upload := None;
        navigateToDashboard := false;
      }
    }
  }
}
