/** The client-side logic of app/settings/page.tsx: the form, its tag
    editor, the checks made before each request, the requests themselves,
    the display merge and the image check. */
module Settings {
  import opened Wrappers
  import opened Text
  import opened Seqs
  import opened Types
  import opened Data
  import opened Db
  import opened AgentsApi

  // ----------------------------------------------------------------- form

  /** The form state `newAgent` with the tag box `tagInput` beside it. */
  datatype Editor = Editor(form: PartialAgent, tagInput: string)

  /** The blank form the page starts with and returns to after each save. */
  const InitialForm := PartialAgent(Some(""), Some(""), Some(Other), Some([]), Some(Live),
                                    Some(""), Some(DefaultImageUrl), Some(DefaultActionLabel))

  /** Opening a record for editing loads its eight editable fields. */
  function EditForm(a: Agent): (e: Editor)
    ensures e.tagInput == "" && FormComplete(e.form)
    ensures e.form.name.Some? && e.form.description.Some? && e.form.vercelUrl.Some? && e.form.imageUrl.Some?
    ensures e.form.primaryActionLabel.Some? <==> a.primaryActionLabel.Some?
    ensures MergeAgent(a, Some(e.form)) == a
  {
    Editor(Fields(a), "")
  }

  /** The fields every request from this page carries as they are: category,
      status and tag list are always present in the form. */
  predicate FormComplete(form: PartialAgent) {
    form.category.Some? && form.status.Some? && form.tags.Some?
  }

  lemma FormsComplete(a: Agent)
    ensures FormComplete(InitialForm) && FormComplete(EditForm(a).form)
    ensures !HasRequiredFields(InitialForm)
  {
  }

  // ----------------------------------------------------------- tag editor

  /** `handleAddTag` (and the identical `handleEditAddTag`): the trimmed input
      is appended and the box cleared, provided it is non-empty, the form has
      a tag list, and the list does not hold it yet; otherwise nothing
      changes. */
  function AddTag(e: Editor): (r: Editor)
    ensures r != e <==> Trim(e.tagInput) != [] && e.form.tags.Some? && Trim(e.tagInput) !in e.form.tags.value
    ensures r != e ==>
      && r.tagInput == ""
      && r.form == e.form.(tags := r.form.tags) && r.form.tags.Some?
      && multiset(r.form.tags.value) == multiset(e.form.tags.value) + multiset{Trim(e.tagInput)}
  {
    var t := Trim(e.tagInput);
    if t != [] && e.form.tags.Some? && t !in e.form.tags.value then
      Editor(e.form.(tags := Some(e.form.tags.value + [t])), "")
    else e
  }

  /** Whether `AddTag` would add anything. */
  predicate AddsTag(e: Editor) {
    AddTag(e) != e
  }

  /** A tag that is added is non-empty, has no surrounding whitespace, and
      occurs in the typed text. */
  lemma AddedTagIsTrimmedInput(e: Editor)
    requires AddsTag(e)
    ensures var tags := AddTag(e).form.tags.value;
      && tags[..|tags| - 1] == e.form.tags.value
      && tags[|tags| - 1] == Trim(e.tagInput)
      && tags[|tags| - 1] != []
      && !IsSpace(tags[|tags| - 1][0])
      && exists k :: InfixAt(e.tagInput, Trim(e.tagInput), k)
  {
    var t := Trim(e.tagInput);
    var tags := AddTag(e).form.tags.value;
    assert tags == e.form.tags.value + [t];
  }

  /** Adding keeps a duplicate-free tag list duplicate-free, and touches no
      other field. */
  lemma AddTagKeepsNoDuplicates(e: Editor)
    requires e.form.tags.Some? && NoDuplicates(e.form.tags.value)
    ensures AddTag(e).form.tags.Some? && NoDuplicates(AddTag(e).form.tags.value)
    ensures AddTag(e).form == e.form.(tags := AddTag(e).form.tags)
  {
    var t := Trim(e.tagInput);
    if t != [] && t !in e.form.tags.value {
      AppendFreshNoDuplicates(e.form.tags.value, t);
    }
  }

  /** `handleRemoveTag` (and the identical `handleEditRemoveTag`): every
      occurrence of `tag` is dropped, the other tags keep their order, and
      a missing list is treated as empty. */
  function RemoveTag(e: Editor, tag: string): (r: Editor)
    ensures r.tagInput == e.tagInput
    ensures r.form == e.form.(tags := r.form.tags) && r.form.tags.Some?
    ensures tag !in r.form.tags.value
    ensures forall t :: t != tag ==> (t in r.form.tags.value <==> t in e.form.tags.GetOr([]))
    ensures IsSubsequence(r.form.tags.value, e.form.tags.GetOr([]))
    ensures forall t :: multiset(r.form.tags.value)[t] == if t == tag then 0 else multiset(e.form.tags.GetOr([]))[t]
  {
    Editor(e.form.(tags := Some(RemoveAll(e.form.tags.GetOr([]), tag))), e.tagInput)
  }

  lemma RemoveTagKeepsNoDuplicates(e: Editor, tag: string)
    requires NoDuplicates(e.form.tags.GetOr([]))
    ensures NoDuplicates(RemoveTag(e, tag).form.tags.value)
  {
    SubsequenceNoDuplicates(RemoveTag(e, tag).form.tags.value, e.form.tags.GetOr([]));
  }

  /** Removing the tag just added gives the earlier tag list back. */
  lemma RemoveUndoesAdd(e: Editor)
    requires AddsTag(e)
    ensures RemoveTag(AddTag(e), Trim(e.tagInput)).form == e.form
  {
    var t := Trim(e.tagInput);
    var tags := e.form.tags.value;
    assert t != [] && t !in tags;
    assert AddTag(e).form.tags.value == tags + [t];
    RemoveAppended(tags, t);
  }

  // ------------------------------------------------------------- requests

  /** `handleAddAgent`: the page refuses to send a form without name,
      description or URL, and otherwise posts the form as it is. */
  function SubmitAdd(form: PartialAgent): (body: Option<PartialAgent>)
    ensures body.Some? <==> HasRequiredFields(form)
    ensures body.Some? ==> body.value == form
  {
    if HasRequiredFields(form) then Some(form) else None
  }

  /** The page refuses exactly the forms the server would answer with 400,
      and a form it sends is created or, on an id clash, fails with 500. */
  lemma SubmitAddAgreesWithServer(st: State, form: PartialAgent, now: nat, today: string)
    ensures SubmitAdd(form).None? <==> Post(st, form, now, today).response.BadRequest?
    ensures SubmitAdd(form).Some? ==>
      var r := Post(st, SubmitAdd(form).value, now, today).response;
      r.Created? || r.ServerError?
  {
  }

  /** The `updates` object of `handleUpdateAgent`: exactly the eight editable
      fields, never an `id`, `slug` or `lastUpdated`. */
  function UpdatePayload(form: PartialAgent): (u: Updates)
    ensures u.fields == form && u.slug.None?
    ensures forall row ::
              ApplyUpdates(row, u).slug == if form.name.Some? then Slug.Slugify(form.name.value) else row.slug
  {
    Updates(form, None)
  }

  /** `handleUpdateAgent`: nothing is sent unless a record is being edited
      and the required fields are filled in; otherwise a `PUT` for the edited
      record's id, routed by whether it is a default agent. */
  function SubmitUpdate(editing: Option<Agent>, isDefault: bool, form: PartialAgent): (req: Option<PutRequest>)
    ensures req.Some? <==> editing.Some? && HasRequiredFields(form)
    ensures req.Some? ==>
      req.value == PutRequest(Some(editing.value.id), Some(UpdatePayload(form)), isDefault)
    ensures req.Some? ==> NoBareSlug(req.value)
  {
    if editing.Some? && HasRequiredFields(form) then
      Some(PutRequest(Some(editing.value.id), Some(UpdatePayload(form)), isDefault))
    else None
  }

  /** Every update the page sends is accepted exactly when the edited id is
      non-empty, and keeps the custom-table invariant. */
  lemma SubmitUpdateKeepsValid(st: State, editing: Agent, isDefault: bool, form: PartialAgent)
    requires Valid(st)
    requires SubmitUpdate(Some(editing), isDefault, form).Some?
    ensures var req := SubmitUpdate(Some(editing), isDefault, form).value;
      && (Put(st, req).response.Ok? <==> editing.id != "")
      && Valid(Put(st, req).state)
  {
    PutKeepsValid(st, SubmitUpdate(Some(editing), isDefault, form).value);
  }

  /** Saving a custom agent from the page re-derives its slug from the new
      name and stores the form's tags. */
  lemma SubmitUpdateCustom(catalog: seq<Agent>, st: State, editing: Agent, form: PartialAgent, i: int)
    requires SubmitUpdate(Some(editing), false, form).Some?
    requires FormComplete(form)
    requires editing.id != "" && 0 <= i < |st.custom| && st.custom[i].id == editing.id
    ensures var req := SubmitUpdate(Some(editing), false, form).value;
      var a := ListAgents(catalog, Put(st, req).state).customAgents[i];
      && a.id == editing.id && a.name == form.name.value
      && a.slug == Slug.Slugify(form.name.value)
      && a.tags == form.tags.value && a.category == form.category.value
      && a.status == form.status.value && a.description == form.description.value
  {
    var req := SubmitUpdate(Some(editing), false, form).value;
    var rows := Put(st, req).state.custom;
    assert rows[i] == ApplyUpdates(st.custom[i], req.updates.value);
  }

  /** Saving a default agent from the page shows the form's values in the
      listing. */
  lemma SubmitUpdateDefault(catalog: seq<Agent>, st: State, i: int, form: PartialAgent)
    requires 0 <= i < |catalog| && catalog[i].id != ""
    requires HasRequiredFields(form) && FormComplete(form)
    ensures var req := SubmitUpdate(Some(catalog[i]), true, form).value;
      var a := ListAgents(catalog, Put(st, req).state).agents[i];
      && a.id == catalog[i].id && a.name == form.name.value
      && a.description == form.description.value && a.vercelUrl == form.vercelUrl.value
      && a.tags == form.tags.value && a.category == form.category.value
      && a.status == form.status.value
  {
    var req := SubmitUpdate(Some(catalog[i]), true, form).value;
    ListedRecord(catalog, Put(st, req).state, i);
  }

  /** `handleDeleteAgent` and `handleResetAgent`: the query each button sends. */
  function DeleteRequest(id: string): (q: DeleteQuery)
    ensures q.id == Some(id) && q.reset != Some("true")
    ensures forall st ::
              Delete(st, q) ==
                if id == "" then Step(BadRequest(MissingIdError), st)
                else Step(Ok, st.(custom := DeleteCustomAgent(st.custom, id)))
  {
    DeleteQuery(Some(id), None)
  }

  /** The reset button removes exactly the agent's override row. */
  function ResetRequest(id: string): (q: DeleteQuery)
    ensures forall st ::
              Delete(st, q) ==
                if id == "" then Step(BadRequest(MissingIdError), st)
                else Step(Ok, st.(overrides := st.overrides - {id}))
  {
    DeleteQuery(Some(id), Some("true"))
  }

  // -------------------------------------------------------------- display

  /** `displayDefaultAgents`: the fetched overrides spread over the catalog. */
  function DisplayDefaultAgents(catalog: seq<Agent>, l: Listing): (r: seq<Agent>)
    ensures |r| == |catalog|
    ensures forall i :: 0 <= i < |catalog| ==> r[i].id == catalog[i].id
  {
    MergeCatalog(catalog, l.agentOverrides)
  }

  /** The settings page shows the default agents exactly as the listing of
      the same catalog does. */
  lemma DisplayMatchesListing(catalog: seq<Agent>, st: State)
    ensures DisplayDefaultAgents(catalog, ListAgents(catalog, st)) == ListAgents(catalog, st).agents[..|catalog|]
  {
  }

  /** Whether the "Modified" badge and the reset button are drawn. */
  predicate ShowsModified(l: Listing, id: string) {
    id in l.agentOverrides
  }

  /** The badge shows exactly when an override row exists; saving a default
      agent makes it appear and resetting it makes it go. */
  lemma ModifiedBadge(catalog: seq<Agent>, st: State, i: int, form: PartialAgent)
    requires 0 <= i < |catalog| && catalog[i].id != ""
    ensures ShowsModified(ListAgents(catalog, st), catalog[i].id) <==> catalog[i].id in st.overrides
    ensures HasRequiredFields(form) ==>
      var req := SubmitUpdate(Some(catalog[i]), true, form).value;
      ShowsModified(ListAgents(catalog, Put(st, req).state), catalog[i].id)
    ensures !ShowsModified(ListAgents(catalog, Delete(st, ResetRequest(catalog[i].id)).state), catalog[i].id)
  {
  }

  // ---------------------------------------------------------------- image

  /** The picked file's MIME type and size in bytes. */
  datatype ImageFile = ImageFile(mimeType: string, size: nat)

  /** The outcome of the pre-upload check: nothing picked, rejected type,
      rejected size, or accepted for upload. */
  datatype ImageCheck = NoFile | BadType | TooLarge | Accepted

  const ValidImageTypes := ["image/jpeg", "image/jpg", "image/png", "image/gif", "image/webp", "image/svg+xml"]

  const MaxImageSize: nat := 5 * 1024 * 1024

  /** `handleImageUpload` before the upload: the type is checked first, then
      the size, which may be at most 5 MiB. */
  function CheckImage(file: Option<ImageFile>): (r: ImageCheck)
    ensures r.NoFile? <==> file.None?
    ensures r.BadType? <==> file.Some? && file.value.mimeType !in ValidImageTypes
    ensures r.TooLarge? <==>
      file.Some? && file.value.mimeType in ValidImageTypes && file.value.size > MaxImageSize
    ensures r.Accepted? <==>
      file.Some? && file.value.mimeType in ValidImageTypes && file.value.size <= MaxImageSize
  {
    match file
    case None => NoFile
    case Some(f) =>
      if f.mimeType !in ValidImageTypes then BadType
      else if f.size > MaxImageSize then TooLarge
      else Accepted
  }
}
