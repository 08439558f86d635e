# Medminder medicines screen, modelled in Dafny

Medminder is a one-screen Android app that keeps an in-memory list of
medicines (id, name, dosage, schedule) and lets the user edit, delete and add
rows. This project models the screen's logic:

- `store.dfy`, module `Store`: the `Medicine` record, the three seed rows, and
  the three list transformations the screen's callbacks apply. Delete is a
  filter on the id, add appends a row numbered "current size + 1", and update
  rebuilds every row whose id matches the selected medicine. They are pure
  functions over `seq<Medicine>`, with lemmas about length, order, ids and
  how the operations interact.
- `screen.dfy`, module `Screen`: class `MedicinesScreen` with the screen's
  seven state variables as fields. There is one method per event: row edit,
  row delete, the three field edits, the form's add/update/cancel callbacks,
  the submit button's dispatch, the floating add button, and
  `ResetAddEditState`. Each method states the whole new state in terms of
  the old one and keeps the invariant `Valid()`: adding mode is never on, and
  every id is positive. Two client methods replay concrete sessions through
  these contracts.

Quirks of the code, reproduced as written:

- Adding mode is never entered. Nothing sets `isAddingMedicine` to true, so
  the floating button calls the add callback directly. It appends a row built
  from the current drafts, which are empty after any reset. The submit button
  therefore only ever updates (`SubmitClick`, `FormVisible`).
- Ids are not collision-safe. After a delete, "size + 1" can repeat an id
  already on the list (`AddCollidesAfterDelete`, `SeedDeleteThenAddCollides`,
  `DeleteThenAddScenario`). The model keeps this rule unchanged.
- `resetAddEditState` declares five mutable-state parameters, but every call
  passes none. The model gives it its evident effect: both modes off and all
  three drafts empty.

## Model

| member | source | states |
|---|---|---|
| Store.Delete | app/src/main/java/com/example/medminder/MainActivity.kt:68-70 | the result is no longer than the list, and a record is in it exactly when it was in the list and its id differs from the deleted one |
| Store.DeleteOne | app/src/main/java/com/example/medminder/MainActivity.kt:69 | on a single row, delete keeps it exactly when its id differs |
| Store.DeleteConcat | app/src/main/java/com/example/medminder/MainActivity.kt:69 | delete distributes over concatenation; with `DeleteOne` this means kept rows stay in their original relative order |
| Store.DeleteAbsent | app/src/main/java/com/example/medminder/MainActivity.kt:69 | deleting an id that no row carries leaves the list unchanged |
| Store.DeleteIdempotent | app/src/main/java/com/example/medminder/MainActivity.kt:69 | deleting the same id twice is the same as deleting it once |
| Store.DeleteKeepsUnique | app/src/main/java/com/example/medminder/MainActivity.kt:69 | if ids were unique before a delete, they are unique after it |
| Store.DeleteRemovesOne | app/src/main/java/com/example/medminder/MainActivity.kt:69 | with unique ids and the id present, delete removes exactly one row |
| Store.Add | app/src/main/java/com/example/medminder/MainActivity.kt:84-89 | the list grows by one, the old list is an unchanged prefix, and the last row is (old size + 1, draft name, draft dosage, draft schedule) |
| Store.AddKeepsUnique | app/src/main/java/com/example/medminder/MainActivity.kt:85 | while all ids are unique and at most the list size, add keeps them unique and within the new size |
| Store.AddCollidesAfterDelete | app/src/main/java/com/example/medminder/MainActivity.kt:69-85 | with unique ids and last id equal to the size, deleting any other present id and then adding yields two rows with the same id |
| Store.SeedDeleteThenAddCollides | app/src/main/java/com/example/medminder/MainActivity.kt:21-25 | from the seed, deleting id 2 and adding gives rows with ids 1, 3, 3, the last built from the given fields, so ids are no longer unique |
| Store.Update | app/src/main/java/com/example/medminder/MainActivity.kt:93-99 | the map, whose per-row step is `Edited` (the lambda at :94-98): length and every row's id and position are kept; rows with the selected id take the draft name, dosage and schedule; all other rows are unchanged |
| Store.UpdateAbsent | app/src/main/java/com/example/medminder/MainActivity.kt:93-99 | an update whose selected id no row carries is a no-op |
| Store.UpdatePlaceholderIsNoop | app/src/main/java/com/example/medminder/MainActivity.kt:52 | with positive ids, an update from the initial selection (id 0) changes nothing |
| Store.UpdateKeepsIds | app/src/main/java/com/example/medminder/MainActivity.kt:94-95 | update keeps ids unique, and keeps them positive |
| Store.UpdateIdempotent | app/src/main/java/com/example/medminder/MainActivity.kt:93-99 | submitting the same drafts twice gives the same list as once |
| Store.DeleteAfterUpdate | app/src/main/java/com/example/medminder/MainActivity.kt:68-99 | deleting the selected id after an update gives the same list as deleting it without the update |
| Screen.MedicinesScreen.FormVisible | app/src/main/java/com/example/medminder/MainActivity.kt:166 | under the invariant, the form is shown exactly in edit mode (adding mode never occurs) |
| Screen.MedicinesScreen.constructor | app/src/main/java/com/example/medminder/MainActivity.kt:49-55 | initial state: the seed list, both modes off, selection (0, "", "", ""), empty drafts, invariant holds |
| Screen.MedicinesScreen.OnRowEditClick | app/src/main/java/com/example/medminder/MainActivity.kt:61-67 | selects the row, copies its name, dosage and schedule into the drafts, sets edit mode; list and adding mode unchanged |
| Screen.MedicinesScreen.OnDeleteClick | app/src/main/java/com/example/medminder/MainActivity.kt:68-70 | the list becomes Delete of the old list by the row's id; every other field unchanged |
| Screen.MedicinesScreen.OnNameChange | app/src/main/java/com/example/medminder/MainActivity.kt:80 | only the name draft changes, to the typed text |
| Screen.MedicinesScreen.OnDosageChange | app/src/main/java/com/example/medminder/MainActivity.kt:81 | only the dosage draft changes, to the typed text |
| Screen.MedicinesScreen.OnScheduleChange | app/src/main/java/com/example/medminder/MainActivity.kt:82 | only the schedule draft changes, to the typed text |
| Screen.MedicinesScreen.ResetAddEditState | app/src/main/java/com/example/medminder/MainActivity.kt:254-266 | both modes off and all three drafts empty; list and selection unchanged |
| Screen.MedicinesScreen.OnAddClick | app/src/main/java/com/example/medminder/MainActivity.kt:83-91 | the list becomes Add of the old list and the old drafts, then the form state is reset |
| Screen.MedicinesScreen.OnEditClick | app/src/main/java/com/example/medminder/MainActivity.kt:92-101 | the list becomes Update of the old list by the selected medicine and the old drafts, then the form state is reset |
| Screen.MedicinesScreen.OnCancelClick | app/src/main/java/com/example/medminder/MainActivity.kt:102-104 | the list and selection are unchanged; modes off and drafts empty |
| Screen.MedicinesScreen.SubmitClick | app/src/main/java/com/example/medminder/MainActivity.kt:211-217 | adds in adding mode, else updates in edit mode, else changes nothing; under the invariant it never adds |
| Screen.MedicinesScreen.FloatingButtonClick | app/src/main/java/com/example/medminder/MainActivity.kt:241-242 | calls add directly: appends a row built from the current drafts and resets the form state |
| Screen.DeleteThenAddScenario | app/src/main/java/com/example/medminder/MainActivity.kt:21-25 | from the first screen, delete id 2 then press the floating button: rows 1, 3 and a blank row with id 3, so ids repeat |
| Screen.EditDosageScenario | app/src/main/java/com/example/medminder/MainActivity.kt:61-100 | from the first screen, edit row 3, set dosage 250mg, submit: only that row becomes (3, Ibuprofen, 250mg, Evening), and the form is closed |

## Left out

- All Compose rendering is left out: the list and list items, the text fields, buttons, icons, padding and typography. The only rendering decision kept is which branch is shown (`FormVisible`).
- `MainActivity.onCreate`, `setContent`, `Surface` and the theme are left out. They are Android lifecycle and framework calls.
- Compose's `remember`/`mutableStateOf` recomposition is left out. The seven variables are plain fields of one object, and each callback runs to completion on its own.
- The compile-level defects are not reproduced: the missing imports, and the call to `resetAddEditState` without its five parameters. The model gives reset its evident effect on the screen's own fields.
- Kotlin's 32-bit `Int` is modelled as an unbounded `int`. "size + 1" cannot wrap, because a list never reaches 2^31 - 1 rows in memory.
- `Screen.MedicinesScreen.OnNameChange`, `OnDosageChange` and `OnScheduleChange` have no precondition. The text fields that call them exist only while the form is shown, but the callbacks themselves do not check this.
