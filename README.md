# DailyParameters form logic in Dafny

This project models the logic inside the `DailyParameters` dashboard widget of
the aurora habit tracker. The widget loads a schema of habit parameters. Each
parameter has an id, a display name and a type: boolean, number or anything
else. The widget keeps one form entry per parameter, lets the user edit entry
values and pick a date, and posts the values for that date as strings. When
the server answers 400 (data for that date already exists), the widget asks
whether to overwrite.

Two modules:

- `Form` (`form.dfy`) holds the pure list transforms. `InitialEntries` builds
  the entries from a loaded schema. `UpdateEntries` is the `.map` of
  `handleInputChange`. `FindParameter` is the `.find` of `handleUpdate`.
  `Coerce` and `NormalizeEntries` turn the entries into the posted data. The
  lemmas about them are alongside.
- `Dashboard` (`dashboard.dfy`) holds the class `DailyParameters`. Its fields
  are the component's React state: `parameters`, `formData` and `modalOpen`.
  Further fields record what the collaborators observe: `refreshCount` counts
  calls of the context's refresh callback, `toasts` logs the notifications
  shown, and `posts` logs the write requests issued. Each handler of the
  component is a method of the class. `Valid()` states two invariants. First,
  the form holds exactly the ids of the last loaded schema, in the same order.
  Second, the refresh callback has run once per write answered with 200.

Requests are not executed. Each network call is replaced by the response it
resolves to, passed as an argument: a `GetResponse` for the schema load, a
status code for a write. JavaScript's `Number(v).toString()` is the
`numberToString` function given to the constructor. The model says nothing
about what that function returns.

Three behaviours of the component worth knowing:

- A 200 answer to a write does not close the overwrite dialog. The dialog is
  closed by the Confirm button itself, before the answer arrives.
- The Cancel toast uses the `default` variant with title "Ok!". There is no
  separate informational variant.
- The component compares a type only with "boolean" and "number". `PType.Text`
  stands for every other type string.

## Model

| member | source | states |
|---|---|---|
| Form.InitialEntries | app/components/Dashboard/DailyParameters.tsx:60-63 | one entry per parameter, same length, the same id at every position, and the value is `false` exactly for boolean parameters and `""` exactly for the others |
| Form.LoadedIds | app/components/Dashboard/DailyParameters.tsx:60-63 | the ids of the freshly built entries are the ids of the schema, in order |
| Form.UpdateEntries | app/components/Dashboard/DailyParameters.tsx:110-112 | length and ids are preserved, every entry with the given id takes the new value, and every other entry is unchanged |
| Form.UpdatePreservesIds | app/components/Dashboard/DailyParameters.tsx:110-112 | the id sequence of the entries is the same after an update |
| Form.UpdateAbsentIsNoOp | app/components/Dashboard/DailyParameters.tsx:110-112 | updating an id that no entry has leaves the entries equal to what they were |
| Form.UpdateLastWins | app/components/Dashboard/DailyParameters.tsx:107-114 | two updates of the same id in a row equal the second update alone |
| Form.UpdatesCommute | app/components/Dashboard/DailyParameters.tsx:107-114 | updates of two different ids give the same entries in either order |
| Form.FindParameter | app/components/Dashboard/DailyParameters.tsx:118 | None exactly when no parameter has the id; otherwise a parameter with that id, with no parameter of that id before it |
| Form.FindOwnParameter | app/components/Dashboard/DailyParameters.tsx:118 | when ids are unique, looking up the id of the k-th parameter returns the k-th parameter |
| Form.Coerce | app/components/Dashboard/DailyParameters.tsx:119-129 | for a boolean definition the output is "true" exactly when the value is the string "true" or the boolean true, and "false" otherwise; for a number definition it is the numeric conversion of the value; for another type, or no definition, it is the raw value's string form |
| Form.NormalizeEntries | app/components/Dashboard/DailyParameters.tsx:117-131 | total; one posted element per entry with the same id at every position; each value is the coercion by the definition found for that entry's id |
| Form.NormalizePreservesIds | app/components/Dashboard/DailyParameters.tsx:117-131 | the posted ids are the entry ids, in order |
| Form.NormalizeLoaded | app/components/Dashboard/DailyParameters.tsx:117-131 | with unique ids, a freshly loaded form posts "false" for boolean, "" for other types, and the numeric conversion of "" for number parameters |
| Form.DefinitionsFound | app/components/Dashboard/DailyParameters.tsx:118 | when the entries carry the schema's ids in order, every entry's lookup finds a definition, and with unique ids it finds the parameter at the same position |
| Form.NormalizeAfterUpdate | app/components/Dashboard/DailyParameters.tsx:107-131 | after an update, the posted data changes only at the entries of the updated id, where it becomes the coercion of the new value |
| Form.TextRoundTrip | app/components/Dashboard/DailyParameters.tsx:209-210 | the string typed into the input of a text parameter is posted verbatim |
| Form.BooleanRoundTrip | app/components/Dashboard/DailyParameters.tsx:193-194 | the yes/no select of a boolean parameter posts "true" exactly when "true" was chosen, and "false" otherwise |
| Form.Scenarios | app/components/Dashboard/DailyParameters.tsx:60-131 | a one-parameter boolean schema starts at `false`; a stored "true" posts "true"; a number parameter holding "7" posts the numeric conversion of "7"; an empty form posts an empty array |
| Dashboard.CountOk | app/components/Dashboard/DailyParameters.tsx:92-94 | the count is the number of occurrences of status 200 among the write responses |
| Dashboard.DailyParameters.constructor | app/components/Dashboard/DailyParameters.tsx:43-52 | empty schema and entries on the given day, dialog closed, nothing refreshed, toasted or posted |
| Dashboard.DailyParameters.FetchParameters | app/components/Dashboard/DailyParameters.tsx:54-69 | a non-200 load changes neither the schema nor the form; a 200 load stores the schema and rebuilds the entries from it, keeping the date; the id invariant holds afterwards |
| Dashboard.DailyParameters.HandleSubmit | app/components/Dashboard/DailyParameters.tsx:78-105 | the payload is appended to the posts; 400 opens the dialog with no refresh and no toast; 200 refreshes exactly once and shows the "Success" toast; any other status shows the destructive "Error" toast without refreshing |
| Dashboard.DailyParameters.MappedData | app/components/Dashboard/DailyParameters.tsx:117-131 | the posted ids are the form's ids, and each value is the coercion by the loaded definition; under the component invariant every lookup succeeds, so the no-definition branch is never taken, and with unique ids each entry is coerced by the parameter at its own position |
| Dashboard.DailyParameters.HandleUpdate | app/components/Dashboard/DailyParameters.tsx:116-140 | posts the current date and normalised data with the given overwrite flag, with the status outcomes of HandleSubmit |
| Dashboard.DailyParameters.OnUpdateClick | app/components/Dashboard/DailyParameters.tsx:227 | the Update button posts with overwrite false |
| Dashboard.DailyParameters.OnCancel | app/components/Dashboard/DailyParameters.tsx:242-249 | closes the dialog, shows the "Ok!" toast and posts nothing |
| Dashboard.DailyParameters.OnConfirm | app/components/Dashboard/DailyParameters.tsx:256-259 | posts the current date and data with overwrite true; the dialog is open afterwards exactly when the answer is 400 |
| Dashboard.DailyParameters.OnOpenChange | app/components/Dashboard/DailyParameters.tsx:229 | the dialog's own open/close notification sets the open flag and keeps the component invariant |
| Dashboard.DailyParameters.HandleInputChange | app/components/Dashboard/DailyParameters.tsx:107-114 | the date is kept and the entries become the update of the old entries; the id invariant holds afterwards |
| Dashboard.DailyParameters.OnSelectValueChange | app/components/Dashboard/DailyParameters.tsx:193-194 | the select stores the boolean "choice is \"true\"" |
| Dashboard.DailyParameters.OnInputChange | app/components/Dashboard/DailyParameters.tsx:209-210 | the input stores the typed string |
| Dashboard.DailyParameters.OnSelectDate | app/components/Dashboard/DailyParameters.tsx:170-173 | the entries are kept and the date becomes the picked date, or the current day when the selection is cleared |
| Dashboard.UpdateThenConfirm | app/components/Dashboard/DailyParameters.tsx:227-259 | after an Update answered with 400, Confirm posts the same date and data as the first request with overwrite changed to true; the dialog ends open exactly when the second answer is 400, a 200 refreshes once with the success toast, and any other status shows the error toast without refreshing |

## Left out

- Rendering: the JSX, layout, styling and the card, select, input, popover,
  calendar and dialog primitives are UI over libraries that are not part of
  this model. The display expressions `String(paramData?.value)` and
  `paramData?.value || ""` are left out too.
- `getData` and `postData` (`app/utils/sendRequest`) are not part of this model.
  Only the status and data that their responses resolve to are modelled.
- The `loading` flag and the effect that sets it. The fetch is not awaited
  there, so the flag is an asynchronous race and not sequential logic.
- `calendarOpen` is popover visibility only.
- Asynchrony: every request resolves before the next handler runs. Overlapping
  requests, which the component does not prevent, are not modelled.
- Number conversion: `Number(v).toString()` is the uninterpreted
  `numberToString` argument. Floating-point parsing and formatting, including
  non-numeric text becoming "NaN", are not modelled.
- Date formatting with `format(..., "PPP")`. The current day used to replace a
  cleared selection is passed as an argument and not read from the clock.
- The internals of the toast hook and of the context's `refreshParameters`.
  A toast is recorded by appending it to `toasts`. A refresh is recorded by
  incrementing `refreshCount`.
- The `Parameter` type (`app/types/Parameter`) is not part of this model. Its
  fields are taken to be id, name and a type string.
