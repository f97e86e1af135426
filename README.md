# Crud component state machine

A model of the `Crud` React component of the user-management front end
(`src/Crud.js`). The component keeps seven pieces of state — whether the
create/edit dialog is open (`showModal`), the draft `{name, age, email}`
(`newUser`), the ordered list of user records (`data`), edit mode
(`isEditing`), the id being edited (`editingUserId`), whether the token
dialog is open (`showTokenModal`) and the last issued token (`jwttoken`) —
and changes them in response to form edits, button clicks and the outcome
of calls to a remote API.

Each handler, together with the outcome of the call it makes, is one
atomic step. The outcome is a parameter: `ok` for "the call completed with
a success status", plus the returned user list or token.

- `options.dfy` — `Options.Option`, for `null` / `undefined`.
- `users.dfy` — records, the draft, the three form fields, and the list
  operations the handlers use: `FindById` (`data.find`) and `RemoveById`
  (`data.filter`), with their characterising lemmas.
- `crud_model.dfy` — `CrudModel.State`, a snapshot of the seven variables;
  one pure transition function per handler whose contract states what the
  handler promises; an `Event` type with `Step`/`Run` over event sequences and
  lemmas about whole runs.
- `crud.dfy` — `CrudComponent.Crud`, a class whose fields are the seven
  state variables and whose methods perform each handler's setter calls in
  order; every method's `ensures` ties the new state to the `CrudModel`
  transition of the old state. The object invariant `Valid()` is
  `CrudModel.Consistent`: edit mode is on exactly when an edited id is held.

Where the code and the design description of the component disagree, the
model follows the code:

- After a submit with all fields filled in, the dialog closes and the draft
  and edit mode are reset even when the create/update call failed; the
  description says the dialog stays open with the draft intact.
- The dialog's Close buttons only hide it; the draft, `isEditing` and
  `editingUserId` stay, so "+ Add User" afterwards reopens an edit dialog
  (`CrudModel.AddAfterClosedEditUpdates`). The description says Close
  discards the draft.
- Closing the token dialog keeps `jwttoken`; the description says the token
  is discarded.
- `handleEdit` on an id not in the list dereferences `undefined` and throws
  before any setter runs; the model returns "not found" and changes nothing.
  The description calls it a silent no-op, which agrees on the state.

## Model

| member | source | states |
|---|---|---|
| Users.WithField | src/Crud.js:38 | the named draft field takes the new value and the other two fields keep theirs |
| Users.CompleteIffNoEmptyField | src/Crud.js:43 | the submit guard holds exactly when none of name, age, email is the empty string |
| Users.FindById | src/Crud.js:94 | returns nothing exactly when no record has the id; otherwise a record of the list with that id that no earlier record's id equals (the first match) |
| Users.RemoveById | src/Crud.js:116 | a record is in the result exactly when it is in the list and its id differs; each kept record keeps its multiplicity, removed ids have none left; never longer than the input |
| Users.RemoveByIdAppend | src/Crud.js:116 | filtering a concatenation is the concatenation of the filtered parts, so kept records keep their relative order |
| Users.RemoveByIdSingle | src/Crud.js:116 | on a single record the filter keeps it exactly when its id differs from the target |
| Users.RemoveByIdAbsent | src/Crud.js:116 | when no record has the id the filtered list equals the original |
| Users.FindAfterRemove | src/Crud.js:94-116 | after filtering out an id, finding that id yields nothing |
| CrudModel.Load | src/Crud.js:15-29 | a successful list response replaces `data` wholesale; a failed one changes nothing; no other variable changes |
| CrudModel.InputChange | src/Crud.js:37-39 | exactly the named draft field takes the new value; the other draft fields and all other state are unchanged |
| CrudModel.Submit | src/Crud.js:42-90 | with an empty field: no request, no reload, state unchanged; otherwise Put(editingUserId, draft) when editing and Post(draft) when not, with the draft as before the reset; then draft empty, dialog closed, edit mode off, no edited id, whatever the outcome; `data` and the token state unchanged; reload exactly on a successful non-empty submit |
| CrudModel.Edit | src/Crud.js:93-103 | fails exactly when no record has the id; otherwise the draft is the name/age/email of the record `FindById` returns (the first with the id), the edited id is set, edit mode and the dialog are on, and `data` and the token state are unchanged |
| CrudModel.Delete | src/Crud.js:106-124 | on success `data` loses every record with the id and keeps the others; on failure nothing changes; no other variable changes |
| CrudModel.GenerateToken | src/Crud.js:125-145 | on success the token is stored and the token dialog shown; on failure nothing changes; no other variable changes |
| CrudModel.OpenAdd | src/Crud.js:170 | only `showModal` changes, to true |
| CrudModel.CloseModal | src/Crud.js:238 | only `showModal` changes, to false; draft, edit mode and edited id stay |
| CrudModel.CloseTokenModal | src/Crud.js:316 | only `showTokenModal` changes, to false; `jwttoken` stays |
| CrudModel.Step | src/Crud.js:9-11 | every handler keeps edit mode on exactly when an edited id is held |
| CrudModel.Run | src/Crud.js:9-11 | the edit-mode/edited-id correspondence holds after any sequence of events |
| CrudModel.DataOnlyChangedByLoadOrDelete | src/Crud.js:15-124 | in a run without a successful load or delete, `data` ends as it began: submits never merge locally |
| CrudModel.TokenOnlyChangedByIssue | src/Crud.js:125-145 | in a run without a successful token response, `jwttoken` is unchanged and a hidden token dialog stays hidden |
| CrudModel.AddAfterClosedEditUpdates | src/Crud.js:238 | edit, Close, "+ Add User", submit sends an update of the edited id, not a create |
| CrudComponent.Crud.constructor | src/Crud.js:6-12 | the seven variables start at the `useState` initial values |
| CrudComponent.Crud.FetchUsers | src/Crud.js:15-29 | the new state is `CrudModel.Load` of the old one |
| CrudComponent.Crud.HandleInputChange | src/Crud.js:37-39 | the new state is `CrudModel.InputChange` of the old one |
| CrudComponent.Crud.HandleAddUser | src/Crud.js:42-90 | the new state, the request and the reload flag are `CrudModel.Submit` of the old state |
| CrudComponent.Crud.HandleEdit | src/Crud.js:93-103 | reports whether the id was found; the new state is `CrudModel.Edit` of the old one when found, the old state otherwise |
| CrudComponent.Crud.HandleDelete | src/Crud.js:106-124 | the new state is `CrudModel.Delete` of the old one |
| CrudComponent.Crud.HandleGenerateToken | src/Crud.js:125-145 | the new state is `CrudModel.GenerateToken` of the old one |
| CrudComponent.Crud.CopyToClipboard | src/Crud.js:148-154 | the text copied is the held token, and no state changes |
| CrudComponent.Crud.OpenAddModal | src/Crud.js:170 | the new state is `CrudModel.OpenAdd` of the old one |
| CrudComponent.Crud.CloseModal | src/Crud.js:282 | the new state is `CrudModel.CloseModal` of the old one |
| CrudComponent.Crud.CloseTokenModal | src/Crud.js:316 | the new state is `CrudModel.CloseTokenModal` of the old one |
| CrudComponent.UpdateFailureStillCloses | src/Crud.js:84-88 | editing a record and submitting it when the update fails sends Put(id, the record's fields), then closes the dialog, resets the draft and edit mode, and leaves `data` as it was |

## Left out

- The JSX rendering, layout and the table display (src/Crud.js:155-337): they only read state.
- `fetch`, the API URLs, `response.json()` and `response.text()`: network I/O. Each call's outcome is a parameter; a thrown exception and a non-success status are both `ok == false`, as the code treats them alike.
- The delete and token requests themselves: they are fixed by the id alone, so `HandleDelete` takes the id and `HandleGenerateToken` takes only the outcome; only the submit's request, which depends on state, is returned.
- `toast.*` and `console.error` notifications, and the DOM and clipboard calls in `copyToClipboard`: foreign side effects; `CopyToClipboard` returns the text it would write.
- The `useEffect` mount hook: it is one `FetchUsers` step on the initial state.
- Async interleaving: the un-awaited `fetchUsers()` after a successful submit is the separate `FetchUsers` step the returned reload flag asks for, and the stale `data` and `newUser` closures of the handlers are not modelled; every handler runs atomically on the current state.
- JavaScript truthiness of non-strings: fields are strings and the submit guard is "non-empty string", so a numeric age `0` coming back from the server is not modelled. A record's extra JSON fields and a missing `token` field in the token response are not modelled either.
- Ids are integers compared for equality, standing for whatever the server sends.
