/**
 * The frontend's `App` component: the state it keeps with `useState` and
 * the handlers that replace that state. Each handler is a function from the
 * state before to the state after; network outcomes are parameters.
 */
module App {

  import opened Wrappers
  import opened Api
  import opened Search
  import opened Strings

  const ApiBaseUrl: string := "http://localhost:8080/person-management-backend/api/persons"
  const LoadError: string := "Error loading persons. Make sure your backend is running on " + ApiBaseUrl
  const AddError: string := "Error adding person"
  const UpdateError: string := "Error updating person"
  const DeleteError: string := "Error deleting person"
  const FillFieldsError: string := "Please fill all required fields"

  /** A form value: text typed into an input, or a number taken from a fetched person. */
  datatype Field = Str(s: string) | Num(n: int)

  /** JavaScript truthiness of a form value (`!value` is its negation). */
  predicate Truthy(f: Field)
    ensures Truthy(f) <==> f != Str("") && f != Num(0)
  {
    match f
    case Str(s) => s != ""
    case Num(n) => n != 0
  }

  /** `currentPerson`: the record the add/edit form edits. */
  datatype Draft = Draft(id: Field, name: string, email: string, age: Field)

  /** `{ id: '', name: '', email: '', age: '' }` */
  const EmptyDraft: Draft := Draft(Str(""), "", "", Str(""))

  /** A fetched person as the edit form receives it. */
  function DraftOf(p: Person): (d: Draft)
    ensures d.id == Num(p.id) && d.age == Num(p.age)
    ensures d.name == p.name && d.email == p.email
  {
    Draft(Num(p.id), p.name, p.email, Num(p.age))
  }

  /** The body of an add request: a draft without its `id` key. */
  datatype NewPerson = NewPerson(name: string, email: string, age: Field)

  /** Puts an `id` key back on an add request body. */
  function WithId(np: NewPerson, id: Field): Draft {
    Draft(id, np.name, np.email, np.age)
  }

  /** `const { id, ...personData } = currentPerson`: all of the draft but its id. */
  function StripId(d: Draft): (np: NewPerson)
    ensures WithId(np, d.id) == d
  {
    NewPerson(d.name, d.email, d.age)
  }

  datatype Mode = AddMode | EditMode

  /** The requests the component sends. */
  datatype Request =
    | AddRequest(newPerson: NewPerson)   // POST /api/persons
    | UpdateRequest(draft: Draft)         // PUT /api/persons/{draft.id}
    | DeleteRequest(id: int)              // DELETE /api/persons/{id}

  /** The component's state, one field per `useState`. */
  datatype AppState = AppState(
    persons: seq<Person>,
    filteredPersons: seq<Person>,
    loading: bool,
    error: string,
    searchTerm: string,
    showModal: bool,
    modalMode: Mode,
    currentPerson: Draft,
    deleteConfirm: Option<int>)

  const InitialState: AppState :=
    AppState([], [], false, "", "", false, AddMode, EmptyDraft, None)

  /** The shown list is the one the search box's term selects from the fetched list. */
  predicate ViewConsistent(s: AppState) {
    s.filteredPersons == VisibleList(s.persons, s.searchTerm)
  }

  /** The form and the delete prompt are as they were. */
  predicate SameFormAndPrompt(s: AppState, t: AppState) {
    && t.showModal == s.showModal
    && t.modalMode == s.modalMode
    && t.currentPerson == s.currentPerson
    && t.deleteConfirm == s.deleteConfirm
  }

  // ----- Loading the list -----

  /** `fetchPersons` up to the request: loading on, error cleared. */
  function BeginFetch(s: AppState): (t: AppState)
    ensures t.loading && t.error == ""
    ensures t.(loading := s.loading, error := s.error) == s
  {
    s.(loading := true, error := "")
  }

  /**
   * `fetchPersons` after the response: on success both lists become the
   * fetched data; on failure they stay and the load error is shown. Loading
   * is off either way.
   */
  function FinishFetch(s: AppState, ok: bool, data: seq<Person>): (t: AppState)
    ensures !t.loading
    ensures ok ==> t.persons == data && t.filteredPersons == data && t.error == s.error
    ensures !ok ==> t.persons == s.persons && t.filteredPersons == s.filteredPersons && t.error == LoadError
    ensures t.searchTerm == s.searchTerm && SameFormAndPrompt(s, t)
  {
    if ok then s.(persons := data, filteredPersons := data, loading := false)
    else s.(error := LoadError, loading := false)
  }

  /** The whole of `fetchPersons` with its outcome `ok` and, on success, the fetched `data`. */
  function FetchPersons(s: AppState, ok: bool, data: seq<Person>): (t: AppState)
    ensures !t.loading
    ensures ok ==> t.persons == data && t.filteredPersons == data && t.error == ""
    ensures !ok ==> t.persons == s.persons && t.filteredPersons == s.filteredPersons && t.error == LoadError
    ensures t.searchTerm == s.searchTerm && SameFormAndPrompt(s, t)
  {
    FinishFetch(BeginFetch(s), ok, data)
  }

  // ----- Search -----

  /** `handleSearch(term)`: records the term and shows what it selects. */
  function HandleSearch(s: AppState, term: string): (t: AppState)
    ensures t.searchTerm == term
    ensures t.filteredPersons == FilterPersons(s.persons, term)
    ensures ViewConsistent(t)
    ensures t.(searchTerm := s.searchTerm, filteredPersons := s.filteredPersons) == s
  {
    s.(searchTerm := term, filteredPersons := VisibleList(s.persons, term))
  }

  // ----- The add/edit form -----

  /** `resetForm`: the draft becomes all-empty. */
  function ResetForm(s: AppState): (t: AppState)
    ensures t.currentPerson == EmptyDraft
    ensures t.(currentPerson := s.currentPerson) == s
  {
    s.(currentPerson := EmptyDraft)
  }

  /** `openAddModal`: add mode, an all-empty draft, the form shown. */
  function OpenAddModal(s: AppState): (t: AppState)
    ensures t.modalMode == AddMode && t.showModal && t.currentPerson == EmptyDraft
    ensures t.(modalMode := s.modalMode, showModal := s.showModal, currentPerson := s.currentPerson) == s
  {
    ResetForm(s.(modalMode := AddMode)).(showModal := true)
  }

  /** `openEditModal(person)`: edit mode, the draft is the selected person, the form shown. */
  function OpenEditModal(s: AppState, p: Person): (t: AppState)
    ensures t.modalMode == EditMode && t.showModal && t.currentPerson == DraftOf(p)
    ensures t.(modalMode := s.modalMode, showModal := s.showModal, currentPerson := s.currentPerson) == s
  {
    s.(modalMode := EditMode, currentPerson := DraftOf(p), showModal := true)
  }

  /** The close and Cancel buttons: the form is hidden and the draft is kept. */
  function CloseModal(s: AppState): (t: AppState)
    ensures !t.showModal && t.currentPerson == s.currentPerson
    ensures t.(showModal := s.showModal) == s
  {
    s.(showModal := false)
  }

  /** Typing in the name input. */
  function ChangeName(s: AppState, v: string): (t: AppState)
    ensures t.currentPerson == s.currentPerson.(name := v)
    ensures t.(currentPerson := s.currentPerson) == s
  {
    s.(currentPerson := s.currentPerson.(name := v))
  }

  /** Typing in the email input. */
  function ChangeEmail(s: AppState, v: string): (t: AppState)
    ensures t.currentPerson == s.currentPerson.(email := v)
    ensures t.(currentPerson := s.currentPerson) == s
  {
    s.(currentPerson := s.currentPerson.(email := v))
  }

  /** Typing in the age input: the value arrives as text. */
  function ChangeAge(s: AppState, v: string): (t: AppState)
    ensures t.currentPerson == s.currentPerson.(age := Str(v))
    ensures t.(currentPerson := s.currentPerson) == s
  {
    s.(currentPerson := s.currentPerson.(age := Str(v)))
  }

  /** Submit passes validation when name, email and age are all truthy. */
  predicate DraftFilled(d: Draft)
    ensures DraftFilled(d) <==> d.name != "" && d.email != "" && d.age != Str("") && d.age != Num(0)
  {
    d.name != "" && d.email != "" && Truthy(d.age)
  }

  /** What `handleSubmit` leaves and which request it sends, if any. */
  datatype Submission = Submission(state: AppState, request: Option<Request>)

  /**
   * `handleSubmit`: an empty name, email or age sets the validation error
   * and sends nothing; otherwise add mode posts the draft without its id and
   * edit mode puts the draft as it is, the state left unchanged.
   */
  function HandleSubmit(s: AppState): (r: Submission)
    ensures r.request.None? <==> !DraftFilled(s.currentPerson)
    ensures r.request.None? ==> r.state == s.(error := FillFieldsError)
    ensures r.request.Some? ==> r.state == s
    ensures r.request.Some? && s.modalMode == AddMode ==>
      r.request.value.AddRequest? && WithId(r.request.value.newPerson, s.currentPerson.id) == s.currentPerson
    ensures r.request.Some? && s.modalMode == EditMode ==>
      r.request.value == UpdateRequest(s.currentPerson)
  {
    var d := s.currentPerson;
    if d.name == "" || d.email == "" || !Truthy(d.age) then
      Submission(s.(error := FillFieldsError), None)
    else if s.modalMode == AddMode then
      Submission(s, Some(AddRequest(StripId(d))))
    else
      Submission(s, Some(UpdateRequest(d)))
  }

  // ----- Delete confirmation -----

  /** The row's delete button: remembers which id to delete. */
  function RequestDelete(s: AppState, id: int): (t: AppState)
    ensures t.deleteConfirm == Some(id)
    ensures t.(deleteConfirm := s.deleteConfirm) == s
  {
    s.(deleteConfirm := Some(id))
  }

  /** The prompt's Cancel button: forgets the pending id, sends nothing. */
  function CancelDelete(s: AppState): (t: AppState)
    ensures t.deleteConfirm.None?
    ensures t.(deleteConfirm := s.deleteConfirm) == s
  {
    s.(deleteConfirm := None)
  }

  /** The prompt is rendered when `deleteConfirm` is truthy: set, and not the id 0. */
  predicate DeletePromptShown(s: AppState)
    ensures DeletePromptShown(s) <==> s.deleteConfirm != None && s.deleteConfirm != Some(0)
  {
    s.deleteConfirm.Some? && s.deleteConfirm.value != 0
  }

  /** The prompt's Delete button: deletes the pending id. */
  function ConfirmDelete(s: AppState): (req: Request)
    requires DeletePromptShown(s)
    ensures req.DeleteRequest? && Some(req.id) == s.deleteConfirm
  {
    DeleteRequest(s.deleteConfirm.value)
  }

  // ----- After a mutation's response -----

  /**
   * `addPerson` once its POST has answered (`ok`) and, when it succeeded,
   * the list has been fetched again (`fetchOk`, `data`): success closes the
   * form and empties the draft; failure only sets the add error.
   */
  function AddPersonDone(s: AppState, ok: bool, fetchOk: bool, data: seq<Person>): (t: AppState)
    ensures ok ==> !t.showModal && t.currentPerson == EmptyDraft && t.deleteConfirm == s.deleteConfirm
    ensures ok ==> t.modalMode == s.modalMode && t.searchTerm == s.searchTerm && !t.loading
    ensures ok && fetchOk ==> t.persons == data && t.filteredPersons == data && t.error == ""
    ensures ok && !fetchOk ==> t.persons == s.persons && t.filteredPersons == s.filteredPersons && t.error == LoadError
    ensures !ok ==> t == s.(error := AddError) && SameFormAndPrompt(s, t)
  {
    if ok then ResetForm(FetchPersons(s, fetchOk, data).(showModal := false))
    else s.(error := AddError)
  }

  /** `updatePerson` once its PUT has answered; same shape as `AddPersonDone`. */
  function UpdatePersonDone(s: AppState, ok: bool, fetchOk: bool, data: seq<Person>): (t: AppState)
    ensures ok ==> !t.showModal && t.currentPerson == EmptyDraft && t.deleteConfirm == s.deleteConfirm
    ensures ok ==> t.modalMode == s.modalMode && t.searchTerm == s.searchTerm && !t.loading
    ensures ok && fetchOk ==> t.persons == data && t.filteredPersons == data && t.error == ""
    ensures ok && !fetchOk ==> t.persons == s.persons && t.filteredPersons == s.filteredPersons && t.error == LoadError
    ensures !ok ==> t == s.(error := UpdateError) && SameFormAndPrompt(s, t)
  {
    if ok then ResetForm(FetchPersons(s, fetchOk, data).(showModal := false))
    else s.(error := UpdateError)
  }

  /**
   * `deletePerson` once its DELETE has answered: success re-fetches and
   * clears the pending id; failure only sets the delete error.
   */
  function DeletePersonDone(s: AppState, ok: bool, fetchOk: bool, data: seq<Person>): (t: AppState)
    ensures ok ==> t.deleteConfirm.None? && t.showModal == s.showModal && t.currentPerson == s.currentPerson
    ensures ok ==> t.modalMode == s.modalMode && t.searchTerm == s.searchTerm && !t.loading
    ensures ok && fetchOk ==> t.persons == data && t.filteredPersons == data && t.error == ""
    ensures ok && !fetchOk ==> t.persons == s.persons && t.filteredPersons == s.filteredPersons && t.error == LoadError
    ensures !ok ==> t == s.(error := DeleteError) && SameFormAndPrompt(s, t)
  {
    if ok then FetchPersons(s, fetchOk, data).(deleteConfirm := None)
    else s.(error := DeleteError)
  }

  // ----- Properties across handlers -----

  /** Submitting the form straight after opening it for adding fails validation and sends nothing. */
  lemma SubmitEmptyAddFormFails(s: AppState)
    ensures HandleSubmit(OpenAddModal(s)).request.None?
    ensures HandleSubmit(OpenAddModal(s)).state.error == FillFieldsError
  {
  }

  /**
   * Opening the add form and typing a non-empty name, email and age makes
   * submit post exactly those three values and no id.
   */
  lemma SubmitTypedNewPerson(s: AppState, name: string, email: string, age: string)
    requires name != "" && email != "" && age != ""
    ensures HandleSubmit(ChangeAge(ChangeEmail(ChangeName(OpenAddModal(s), name), email), age)).request
      == Some(AddRequest(NewPerson(name, email, Str(age))))
  {
  }

  /**
   * Opening the edit form on a fetched person and submitting sends that
   * person, id included, unless its name or email is empty or its age is the
   * number 0, which `!currentPerson.age` treats as missing.
   */
  lemma SubmitUnchangedEditForm(s: AppState, p: Person)
    ensures var r := HandleSubmit(OpenEditModal(s, p));
      && (r.request == Some(UpdateRequest(DraftOf(p))) <==> p.name != "" && p.email != "" && p.age != 0)
      && (r.request.None? <==> !(p.name != "" && p.email != "" && p.age != 0))
  {
  }

  /**
   * A row's delete button followed by the prompt's Delete button deletes
   * that row's id; Cancel instead returns to the state before, minus the
   * pending id.
   */
  lemma DeleteConfirmFlow(s: AppState, id: int)
    requires id != 0
    ensures DeletePromptShown(RequestDelete(s, id))
    ensures ConfirmDelete(RequestDelete(s, id)) == DeleteRequest(id)
    ensures CancelDelete(RequestDelete(s, id)) == s.(deleteConfirm := None)
  {
  }

  /**
   * A successful fetch shows the whole fetched list even when a search term
   * is set, so the shown list no longer follows the term: searching "ann"
   * and then re-fetching a list holding only Bob shows Bob.
   */
  lemma FetchIgnoresSearchTerm()
    ensures var bob := Person(2, "Bob", "bob@y.org", 40);
      var s := HandleSearch(InitialState, "ann");
      && ViewConsistent(s)
      && !ViewConsistent(FetchPersons(s, true, [bob]))
  {
    var bob := Person(2, "Bob", "bob@y.org", 40);
    var s := HandleSearch(InitialState, "ann");
    var t := FetchPersons(s, true, [bob]);
    assert Lower("ann") == "ann";
    assert !Matches(bob, "ann") by {
      ContainsChar(Lower(bob.name), 'a');
      ContainsChar(DecimalText(2), 'a');
      assert Lower(bob.name) == "bob";
      assert DecimalText(2) == "2";
      NoFirstCharNoMatch(Lower(bob.name), "ann");
      NoFirstCharNoMatch(DecimalText(2), "ann");
      assert Lower(bob.email) == "bob@y.org";
      ContainsChar(Lower(bob.email), 'a');
      NoFirstCharNoMatch(Lower(bob.email), "ann");
    }
    assert FilterPersons([bob], "ann") == [];
  }
}
