# UserList: a verified model of the user list component's state machine

The repository is a browser page listing user records (`id`, `name`, `email`, `dob`,
`password`) kept on a REST server. Its one component, `UserList`, holds eight pieces of state:
the local list `users`, the flags `showAddModal` and `showEditModal`, the record being edited
`currentUser` (initially `null`), and the four form strings `userName`, `userEmail`, `userDob`
and `userPassword`. Its handlers open and close the create and edit modals, fill and clear the
form, and, when a server call succeeds, bring the local list in line with it: a delete filters
the list by id, a create appends the record the server returned, an edit merges the submitted
fields into every record with the edited id. A failed call is logged and changes nothing.

The model has four modules:

- `Users` (`users.dfy`): the record, the form body, and the pure list transformations:
  `WithoutId` (the delete filter), `ApplyEdit` (the edit map with its object spread) and
  `PasswordToSend` (the edit's password fallback), with lemmas about them.
- `Api` (`api.dfy`): the outcome of a server call (`Reply<T>` with the response body, `Ack`
  without one) and the shape of an update request. Each call's outcome is an input to the
  handler that makes it.
- `UserListState` (`user_list_state.dfy`): the component's state as a value and one function
  per handler, each stating what the handler does; the interactions a page visitor can perform
  (`Event`, `Enabled`), runs of them (`Run`, `Admissible`), and the invariant `Consistent` that
  every run `Enabled` admits keeps. From it follows the main result: in any state such a run
  reaches, submitting the edit form sends the stored password of the record being edited, because the
  edit form has no password input and opening it clears `userPassword`.
- `UserListComponent` (`user_list.dfy`): the class `UserList` with the eight fields; each
  handler is a method that updates the fields step by step as the source's setters do, and
  each method's postcondition equates the new state (`View()`) with the matching
  `UserListState` function applied to the old state.

`Enabled` restricts which controls a visitor can use, following what the rendered markup offers
to pointer input: each open modal sits on a full-screen backdrop over the rest of the page, so
the model lets the Add button and the rows' Edit and Delete buttons be used only while both
modals are closed, and lets only the controls of the topmost modal be used while one is open.
The edit modal has name, email and date inputs but no password input; a row button acts on a
record in the list. The backdrops are plain elements, not a focus trap, so keyboard navigation
can still reach the controls underneath; the model does not cover that (see "## Left out").

A modal's Cancel button only closes that modal and keeps what was typed; the typed values are
discarded only when a modal is next opened, by `resetForm` (Add) or by the copy from the chosen
record (Edit). An edit merges the fields into every record with the edited id, not a single one.

## Model

| member | source | states |
|---|---|---|
| Users.WithoutId | src/UserList.js:46 | a record is in the result exactly when it is in the list and its id differs from the deleted id; the list does not grow |
| Users.WithoutIdDistributes | src/UserList.js:46 | filtering a concatenation is the concatenation of the filtered parts, so the kept records keep their order |
| Users.WithoutIdAbsent | src/UserList.js:46 | a list with no record of that id comes back unchanged |
| Users.WithoutIdIdempotent | src/UserList.js:46 | deleting an id twice equals deleting it once |
| Users.ApplyEdit | src/UserList.js:80-82 | same length; records with another id are unchanged; each record with the edited id becomes that id with the submitted name, email, dob and password |
| Users.WithoutIdAfterApplyEdit | src/UserList.js:80-82 | deleting an id after editing it gives the same list as deleting it without the edit |
| Users.Merge | src/UserList.js:81 | the merged record keeps the record's id and takes the submitted name, email, dob and password |
| Users.PasswordToSend | src/UserList.js:75 | a non-empty typed password is the one sent; a blank one falls back to the stored password; so the sent password is empty only when both are empty |
| UserListState.Initial | src/UserList.js:5-12 | the first render's state: an empty list, both modals closed, a cleared form and no current record |
| UserListState.ResetForm | src/UserList.js:20-26 | clears the four form strings and `currentUser`; the list and both modal flags are unchanged |
| UserListState.AddButtonClick | src/UserList.js:28-31 | a cleared form in an open add modal; list and edit flag unchanged |
| UserListState.Edit | src/UserList.js:33-40 | `currentUser` is the chosen record, the form holds its name, email and dob, the password field is blank, the edit modal is open; list and add flag unchanged |
| UserListState.Delete | src/UserList.js:42-50 | only the list can change; after a confirmed, acknowledged delete it is the filtered list; unconfirmed or failed, the whole state is unchanged |
| UserListState.CreateRequest | src/UserList.js:53-58 | the posted body is the four form strings as they stand |
| UserListState.Create | src/UserList.js:52-67 | on success the list gains exactly one element, at the end, the server's record, the add modal closes and the form is cleared; on failure the state is unchanged |
| UserListState.EditRequest | src/UserList.js:71-78 | an update is issued exactly when there is a current record; it targets that record's id and carries the form's name, email and dob and the password chosen by `PasswordToSend` |
| UserListState.SubmitEdit | src/UserList.js:69-87 | on success the list is the merged list for the edited id, the edit modal closes and the form is cleared; with no record to edit or a failed call the state is unchanged |
| UserListState.CancelAdd | src/UserList.js:194 | the add modal is closed and every other part of the state is unchanged |
| UserListState.CancelEdit | src/UserList.js:250 | the edit modal is closed and every other part of the state is unchanged |
| UserListState.Loaded | src/UserList.js:14-18 | only the list can change; a successful fetch replaces it with the fetched list, a failed one changes nothing |
| UserListState.Step | src/UserList.js:94-250 | the handler each control runs: Add (94), a row's Edit and Delete (121, 127), the add form's submit (150), the inputs' change handlers (157-243), the edit form's submit (215) and the Cancel buttons (194, 250) |
| UserListState.Enabled | src/UserList.js:93-265 | which controls the model lets a visitor use: the header and table only while no modal is open, a modal's own controls while it is on top, the password input only in the add form, row buttons only for listed records |
| UserListState.StepKeepsConsistent | src/UserList.js:146-250 | every interaction the page allows keeps at most one modal open and keeps an open edit modal with a record to edit and a blank password |
| UserListState.RunKeepsConsistent | src/UserList.js:146-250 | every allowed sequence of interactions keeps that invariant |
| UserListState.EditSubmitSendsStoredPassword | src/UserList.js:69-78 | in every state reached by a run `Enabled` admits, with the edit modal open, the submit issues an update for the edited record's id whose password is that record's stored password (the edit form has no password input, lines 217-246, and opening it clears the field, line 38) |
| UserListState.EditThenSubmitSendsRecord | src/UserList.js:33-78 | saving straight after opening the edit modal sends back the record's own id, name, email, dob and password |
| UserListComponent.UserList.constructor | src/UserList.js:5-12 | the fields start as the initial state: empty list, modals closed, no current record, blank form |
| UserListComponent.UserList.LoadUsers | src/UserList.js:14-18 | the new state is `Loaded` of the old one |
| UserListComponent.UserList.ResetForm | src/UserList.js:20-26 | the new state is `ResetForm` of the old one |
| UserListComponent.UserList.HandleAddButtonClick | src/UserList.js:28-31 | the new state is `AddButtonClick` of the old one |
| UserListComponent.UserList.HandleEdit | src/UserList.js:33-40 | the new state is `Edit` of the old one |
| UserListComponent.UserList.HandleDelete | src/UserList.js:42-50 | the delete call is issued exactly when confirmed; the new state is `Delete` of the old one |
| UserListComponent.UserList.HandleCreateUser | src/UserList.js:52-67 | the posted body is the form as it stood; the new state is `Create` of the old one |
| UserListComponent.UserList.HandleSubmitEdit | src/UserList.js:69-87 | the request issued is `EditRequest` of the old state (none without a current record); the new state is `SubmitEdit` of the old one |
| UserListComponent.UserList.CancelAdd | src/UserList.js:194 | the new state is `CancelAdd` of the old one |
| UserListComponent.UserList.CancelEdit | src/UserList.js:250 | the new state is `CancelEdit` of the old one |
| UserListComponent.UserList.SetUserName | src/UserList.js:157 | only `userName` changes, to the typed text |
| UserListComponent.UserList.SetUserEmail | src/UserList.js:167 | only `userEmail` changes, to the typed text |
| UserListComponent.UserList.SetUserDob | src/UserList.js:177 | only `userDob` changes, to the typed text |
| UserListComponent.UserList.SetUserPassword | src/UserList.js:187 | only `userPassword` changes, to the typed text |

## Left out

- The REST client in `src/api.js` (axios, a fixed base URL): each call is an outcome given to the handler (`Reply` or `Ack`); `getUser` is never called by the component.
- Rendering: the table, the "No data found" row, the 1-based row number and all styling; only which controls are reachable is kept, in `Enabled`.
- `window.confirm` becomes the boolean `confirmed`; `console.error` becomes doing nothing.
- Promise asynchrony, render timing and overlapping requests: each handler together with its server response is one atomic step, so the list a response is applied to is the list at that step, not a copy captured at an earlier render.
- `e.preventDefault()` on the form submits: browser event plumbing with no effect on the state.
- Records carry exactly the five fields: extra fields a server record may have (which the object spread would keep) and a record without a `password` (which would send `undefined`) are not modelled.
- Identifiers are integers compared for equality; `===` on mixed strings and numbers is not modelled.
- UserListState.EditSubmitSendsStoredPassword: keyboard access to controls under an open modal is not modelled, and the result depends on it. The backdrops are not a focus trap, so Tab can reach the Add button, a row's Edit button and the add form's password input while the edit modal is open; a visitor who opens the edit modal, then the add modal, then the edit modal again, and types in the add form's password input, gets that password sent by the edit submit.
- The initial fetch may complete at any point of a run in `Enabled`, although the effect runs once, on mount; this only widens the set of runs the invariant is proved for.
- The `TypeError` that `handleSubmitEdit` throws when `currentUser` is `null` is modelled as no request and no state change; how the browser reports the exception is not modelled.
