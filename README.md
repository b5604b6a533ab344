# Person management: a Dafny model

This project models the two pieces of logic in a small person-directory
application:

- **The backend resource** (`PersonResource`, a JAX-RS class serving
  `/persons`). It holds a list of persons and an id counter. `GET` returns the
  list. `POST` stores a person under the next id. `PUT /{id}` overwrites name,
  email and age of the first person with that id, or answers 404. `DELETE /{id}`
  removes every person with that id and answers 204.
- **The frontend component** (`App`, React). It keeps the fetched list, the
  list the search box shows, a loading flag, an error banner, the search
  term, the add/edit form (shown or not, its mode, its draft) and the id
  waiting for delete confirmation. Its handlers replace that state.

Files and modules:

| file | module | what it holds |
|---|---|---|
| `wrappers.dfy` | `Wrappers` | `Option` |
| `seqs.dfy` | `Seqs` | order-preserving `Filter` and the subsequence relation |
| `strings.dfy` | `Strings` | lower-casing, substring search, decimal text of an integer |
| `api.dfy` | `Api` | `Person`, `Response`, the class `PersonResource` |
| `java_int.dfy` | `JavaInt` | the id counter as a 32-bit Java `int` (see Findings) |
| `search.dfy` | `Search` | the search filter |
| `app.dfy` | `App` | the component state and its handlers |

The backend is a class. Its fields `persons: seq<Person>` and `idCounter`
are updated in place by one method per endpoint, and `Valid()` is the object
invariant. The invariant says ids are distinct and every stored id was
issued. A ghost field `issued` records every id ever handed out, and these
are exactly the ids below the counter. So `AddPerson` can state that a new id
was never issued before, even if earlier persons were deleted.

The frontend state is a datatype `AppState`. Each handler is a function from
the state before to the state after. This is how React's `useState` works:
each setter replaces a value and mutates nothing. So composed handlers can be
stated as lemmas, for example opening the add form and submitting it at once.
A network outcome is a boolean parameter. After a successful add, update or
delete, the component fetches the list again. That is a second request, so
its outcome (`fetchOk`) and its data are separate parameters.

Where the design description and the code disagree, the model follows the
code:

- A successful fetch sets both the fetched list and the shown list to the
  fetched data (`App.jsx:26-27`). It does not apply the current search term
  again. After an add, update or delete, the shown list therefore ignores a
  term still in the search box. `App.FetchIgnoresSearchTerm` shows this.
- Submit validation tests JavaScript truthiness, not only emptiness
  (`App.jsx:121`). A person fetched with age `0` has the number `0` as the
  draft's age, and `!0` is true. So submitting the edit form unchanged for
  that person fails validation (`App.SubmitUnchangedEditForm`).
- The delete prompt is rendered only when `deleteConfirm` is truthy
  (`App.jsx:330`). A person with id `0` could not be deleted through it
  (`App.DeletePromptShown`). The backend issues ids from 1 upwards, so id 0 is
  issued only after the counter wraps past 2147483647 (see Findings).

## Model

| member | source | states |
|---|---|---|
| `Seqs.Filter` | person-management-backend/src/main/java/com/example/api/PersonResource.java:46 | the kept elements form a subsequence of the input (same relative order); each kept element passes the test; every element that passes is kept as many times as it occurs in the input, and no other element is kept |
| `Seqs.FilterKeepsAll` | person-management-frontend/src/App.jsx:90-97 | filtering with a test that every element passes returns the input unchanged |
| `Strings.Lower` | person-management-frontend/src/App.jsx:94-95 | `toLowerCase` keeps the length and lowers each character in place |
| `Strings.LowerChar` | person-management-frontend/src/App.jsx:94-95 | a lowered character is never an upper-case letter; other characters are left alone |
| `Strings.Contains` | person-management-frontend/src/App.jsx:94-96 | `includes`, a left-to-right scan, holds exactly when the term occurs at some index of the string (both directions) |
| `Strings.ContainsChar` | person-management-frontend/src/App.jsx:94-96 | a one-character term is included exactly when that character is in the string |
| `Strings.Digits` | person-management-frontend/src/App.jsx:96 | the decimal digits of a natural number are a non-empty string of digits with no leading zero |
| `Strings.DecimalText` | person-management-frontend/src/App.jsx:96 | `id.toString()` is non-empty and starts with `-` exactly for negative ids |
| `Strings.DigitsRoundTrip` | person-management-frontend/src/App.jsx:96 | reading back the digits of `n` gives `n` |
| `Strings.DecimalTextRoundTrip` | person-management-frontend/src/App.jsx:96 | reading back `id.toString()` gives the id, so distinct ids have distinct texts |
| `Api.FindIndex` | person-management-backend/src/main/java/com/example/api/PersonResource.java:32-33 | the index the scan stops at holds the id and no earlier entry does; there is none exactly when no entry has the id |
| `Api.Overwrite` | person-management-backend/src/main/java/com/example/api/PersonResource.java:34-36 | the updated person keeps its id and takes name, email and age from the request body |
| `Api.WithoutId` | person-management-backend/src/main/java/com/example/api/PersonResource.java:46 | `removeIf` keeps the entries whose id differs, in their original order, each as many times as it occurs, and nothing with the deleted id |
| `Api.DeleteAbsentIdKeepsList` | person-management-backend/src/main/java/com/example/api/PersonResource.java:46 | deleting an id that no entry has leaves the list unchanged |
| `Api.WithoutIdKeepsIdsDistinct` | person-management-backend/src/main/java/com/example/api/PersonResource.java:46 | deleting keeps the stored ids pairwise distinct |
| `Api.DeletePresentIdRemovesOne` | person-management-backend/src/main/java/com/example/api/PersonResource.java:46 | with distinct ids, deleting a present id removes exactly one entry |
| `Api.PersonResource.constructor` | person-management-backend/src/main/java/com/example/api/PersonResource.java:14-15 | the list starts empty and the counter at 1, with nothing issued; the invariant holds |
| `Api.PersonResource.GetAll` | person-management-backend/src/main/java/com/example/api/PersonResource.java:18-20 | returns the current list and changes nothing |
| `Api.PersonResource.AddPerson` | person-management-backend/src/main/java/com/example/api/PersonResource.java:23-27 | the stored person is the request's with its id replaced by the counter; it is appended, earlier entries are unchanged; the counter grows by exactly one; the new id was never issued before; the answer is 201 with the stored person; the invariant is kept |
| `Api.PersonResource.UpdatePerson` | person-management-backend/src/main/java/com/example/api/PersonResource.java:31-41 | on a present id, only the first entry with it changes: name, email and age are overwritten, the id is kept, the answer is 200 with that entry; on an absent id the list is unchanged and the answer is 404; the counter never changes; the invariant is kept |
| `Api.PersonResource.DeletePerson` | person-management-backend/src/main/java/com/example/api/PersonResource.java:45-48 | the list becomes the entries whose id differs, in order; the counter and the issued ids are unchanged, so a deleted id is never issued again; the answer is 204 whether or not the id was present |
| `JavaInt.Wrap` | person-management-backend/src/main/java/com/example/api/PersonResource.java:15 | the 32-bit value is congruent to its argument modulo 2^32 |
| `JavaInt.Increment` | person-management-backend/src/main/java/com/example/api/PersonResource.java:24 | `idCounter++` on a Java `int` adds one, except at 2147483647, where it wraps to -2147483648 |
| `JavaInt.CounterAfter` | person-management-backend/src/main/java/com/example/api/PersonResource.java:24 | as long as no wrap happens, n additions raise the counter by exactly n |
| `JavaInt.CounterAfterIsWrap` | person-management-backend/src/main/java/com/example/api/PersonResource.java:24 | after n additions the 32-bit counter equals the start plus n, wrapped |
| `JavaInt.IdReissuedAfterWrap` | person-management-backend/src/main/java/com/example/api/PersonResource.java:24 | as written, the counter is back at 1 after 2^32 additions, so addition number 2^32 + 1 issues the first id again |
| `Search.Matches` | person-management-frontend/src/App.jsx:94-96 | a person matches exactly when the lower-cased term occurs in the lower-cased name or email, or the term as typed occurs in the id's decimal text; everyone matches the empty term |
| `Search.FilterPersons` | person-management-frontend/src/App.jsx:93-97 | the filtered list is a subsequence of the persons; every kept person matches the name, email or id test; every matching person is kept as many times as it occurs, and no other person is kept |
| `Search.EmptyTermKeepsAll` | person-management-frontend/src/App.jsx:90-97 | every person matches the empty term, so filtering by it returns the full list |
| `Search.VisibleList` | person-management-frontend/src/App.jsx:90-98 | the empty-term shortcut and the filter agree for every term |
| `Search.AnnFoundByName` | person-management-frontend/src/App.jsx:93-97 | for Ann (id 1, ann@x.com), "ANN" keeps her: the name test ignores case |
| `Search.AnnFoundByEmail` | person-management-frontend/src/App.jsx:93-97 | for Ann, "x.com" keeps her through the email test |
| `Search.AnnNotFoundByTwo` | person-management-frontend/src/App.jsx:93-97 | for Ann, "2" keeps nobody: it is in neither her name, her email nor her id's text |
| `App.Truthy` | person-management-frontend/src/App.jsx:121 | a form value is falsy exactly when it is the empty text or the number 0 |
| `App.DraftOf` | person-management-frontend/src/App.jsx:109-113 | the edit draft carries the person's id, name, email and age |
| `App.StripId` | person-management-frontend/src/App.jsx:126-129 | the add body is the draft without its id: putting the id back gives the draft |
| `App.BeginFetch` | person-management-frontend/src/App.jsx:19-21 | a fetch turns loading on and clears the error; nothing else changes |
| `App.FinishFetch` | person-management-frontend/src/App.jsx:22-33 | loading ends either way; success replaces both lists with the data; failure keeps both lists and sets the load error naming the endpoint; search term, form and delete prompt are unchanged |
| `App.FetchPersons` | person-management-frontend/src/App.jsx:19-34 | after a whole fetch loading is off; success shows the data in both lists with no error; failure keeps both lists and shows the load error |
| `App.HandleSearch` | person-management-frontend/src/App.jsx:88-100 | records the term; the shown list is the filter of the fetched list by it, so the view is consistent; nothing else changes |
| `App.ResetForm` | person-management-frontend/src/App.jsx:115-117 | the draft becomes all-empty; nothing else changes |
| `App.OpenAddModal` | person-management-frontend/src/App.jsx:103-107 | add mode, the form shown, an all-empty draft; nothing else changes |
| `App.OpenEditModal` | person-management-frontend/src/App.jsx:109-113 | edit mode, the form shown, the draft exactly the selected person; nothing else changes |
| `App.CloseModal` | person-management-frontend/src/App.jsx:266 | the form is hidden and its draft kept; nothing else changes |
| `App.ChangeName` | person-management-frontend/src/App.jsx:279 | the draft's name becomes the typed text; nothing else changes |
| `App.ChangeEmail` | person-management-frontend/src/App.jsx:290 | the draft's email becomes the typed text; nothing else changes |
| `App.ChangeAge` | person-management-frontend/src/App.jsx:303 | the draft's age becomes the typed text; nothing else changes |
| `App.DraftFilled` | person-management-frontend/src/App.jsx:121 | validation passes exactly when name and email are non-empty and age is neither empty text nor the number 0 |
| `App.HandleSubmit` | person-management-frontend/src/App.jsx:119-134 | no request is sent exactly when name, email or age is falsy, and then only the validation error is set; otherwise the state is unchanged; add mode posts the draft without its id, and edit mode puts the whole draft with its id |
| `App.RequestDelete` | person-management-frontend/src/App.jsx:242 | the row's id becomes the pending delete; nothing else changes |
| `App.CancelDelete` | person-management-frontend/src/App.jsx:343 | the pending delete is cleared with no request; nothing else changes |
| `App.DeletePromptShown` | person-management-frontend/src/App.jsx:330 | the prompt is shown exactly when an id is pending and that id is not 0 |
| `App.ConfirmDelete` | person-management-frontend/src/App.jsx:349 | the delete request carries the pending id |
| `App.AddPersonDone` | person-management-frontend/src/App.jsx:37-52 | success re-fetches: both lists hold the fetched data with no error, or, if that fetch failed, keep their contents under the load error; loading ends; the form closes and the draft is reset, mode, search term and pending delete kept; failure sets "Error adding person" and leaves form, draft and pending delete as they were |
| `App.UpdatePersonDone` | person-management-frontend/src/App.jsx:55-70 | success re-fetches: both lists hold the fetched data with no error, or, if that fetch failed, keep their contents under the load error; loading ends; the form closes and the draft is reset, mode, search term and pending delete kept; failure sets "Error updating person" and leaves form, draft and pending delete as they were |
| `App.DeletePersonDone` | person-management-frontend/src/App.jsx:73-85 | success re-fetches: both lists hold the fetched data with no error, or, if that fetch failed, keep their contents under the load error; loading ends; the pending delete is cleared, form, draft, mode and search term kept; failure sets "Error deleting person" and leaves form, draft and pending delete as they were |
| `App.SubmitEmptyAddFormFails` | person-management-frontend/src/App.jsx:103-123 | submitting right after opening the add form sends nothing and shows the validation error |
| `App.SubmitTypedNewPerson` | person-management-frontend/src/App.jsx:103-129 | opening the add form, typing a non-empty name, email and age, then submitting posts exactly those values and no id |
| `App.SubmitUnchangedEditForm` | person-management-frontend/src/App.jsx:109-133 | submitting the edit form unchanged puts the person with its id exactly when its name and email are non-empty and its age is not 0; otherwise nothing is sent |
| `App.DeleteConfirmFlow` | person-management-frontend/src/App.jsx:242-349 | for a non-zero id, the delete button shows the prompt; Delete sends that id; Cancel returns to the previous state minus the pending id |
| `App.FetchIgnoresSearchTerm` | person-management-frontend/src/App.jsx:26-27 | a successful fetch can make the shown list disagree with the search term: searching "ann" and then fetching a list holding only Bob shows Bob |

## Findings

| source | as written | input that shows it | evidently intended | confidence | as-written member | corrected member |
|---|---|---|---|---|---|---|
| person-management-backend/src/main/java/com/example/api/PersonResource.java:24 | `idCounter` is a Java `int`, so `idCounter++` wraps after 2147483647 | 2^32 + 1 POST requests starting from the initial counter 1, with the person holding id 1 never deleted: the last one is given id 1 again | ids are unique and never reused | low: needs 2^32 + 1 additions in one server run; not executed | `JavaInt.IdReissuedAfterWrap` | `Api.PersonResource.AddPerson` |

`Api.PersonResource` uses an unbounded counter. With it, `AddPerson` proves
that a new id was never issued before, and `Valid()` keeps ids distinct.

## Left out

- HTTP, `fetch`, status codes and JSON (de)serialisation are not modelled. Each request's outcome is a boolean parameter, and the fetched list is a parameter.
- The conversion of the form's text age into the server's integer age happens in JSON deserialisation. It is not modelled, so no lemma joins a frontend request to the backend's stored person.
- `useEffect`'s initial load, the loading indicator's rendering and the interleaving of overlapping asynchronous requests are not modelled. Each handler is applied to the state current when its response arrives.
- JSX rendering, styling, icons and `console.error` are not modelled.
- The browser's `min`/`max` limits on the age input are widget behaviour and are not modelled.
- Thread safety of the static list shared by concurrent requests is not modelled; the resource is one sequential object.
- Aliasing in the backend is not modelled. `getAll` returns the live list, `addPerson` stores the request's own object, and `updatePerson` calls setters on the stored object. The model uses values, so the returned list and entities are copies.
- The `Person` class is not part of this model. It is assumed to be a record with an integer id, string name and email, and an integer age. Null names or emails, on which the search filter would throw, are not modelled.
- Search.FilterPersons: lower-casing covers ASCII letters only, not the whole Unicode case mapping of `toLowerCase`.
- App.HandleSubmit: JavaScript truthiness is modelled for strings and integers only, without `NaN`, `null` or `undefined`.
- Api.PersonResource.AddPerson: the counter is an unbounded integer, not the source's 32-bit `int`. The wrap-around is modelled separately in `JavaInt` (see Findings).
