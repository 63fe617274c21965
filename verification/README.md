# Sticky-note board: a Dafny model of the canvas state machine

This project models the board logic of the sticky-note digitiser: the
`CanvasStage` component that keeps a list of sticky notes and a list of
directed connectors between them, and turns UI events into changes of that
scene.

- `seqs.dfy` (module `Seqs`) defines an order-preserving `Filter`, the shape of
  JavaScript's `Array.prototype.filter`. It also defines `IsSubsequence` and
  proves the facts about subsequences that the cascade deletes use.
- `scene.dfy` (module `Scene`) holds the records: `Note` (id, position, size,
  text, colour), `Connector` (id, source note id, target note id) and `Mode`
  (select or connect). It defines the component's list expressions as
  functions: moving a note, replacing its text, deleting notes and
  connectors, the cascade that detaches a deleted note's connectors, the
  first-match lookup `find` and the renderer's id map. The two appends by
  spread are written inline in `AddNote` and `NoteClick`. Lemmas relate these
  functions to one another.
- `canvas_stage.dfy` (module `Canvas`) holds the class `CanvasStage`. Its
  fields are the component's state cells: `notes`, `connectors`, `mode`,
  `selectedId`, `selectedConnId`, `pendingFrom`, `editingId` and
  `editingText`. Each UI handler is one method, and each method states the
  whole new state. The object invariant `Valid()` says that a note and a
  connector are never selected together, and that no connector is selected
  in connect mode.
- Module `Scenarios` (same file) runs handlers in sequence on a fresh board.
  Its methods show the two behaviours described under "Behaviour that may be
  unexpected", and the add–connect–delete example.

Values supplied by the environment are parameters:
- `crypto.randomUUID()` becomes a fresh id argument.
- The random note position becomes `x` and `y`, carried as opaque values.
- `randomColor()` becomes a colour argument, required to be one of the six
  palette swatches.
- Whether the mouse press hit the empty stage, whether a key event targets a
  form element, and whether the container element is mounted are boolean
  arguments.
- The persisted lists are `Option` arguments of the constructor. `None` means
  the storage slot is absent, holds the empty string (which is falsy) or does
  not parse. Only a slot that parses to a well-formed list is represented by
  `Some`; a slot that parses to something else (such as `null`) is taken by
  the code as the list without any check, and is outside the model.

Cells of type `string | null` are `Option<string>`. The handlers test them for
JavaScript truthiness, which `Canvas.Truthy` models: both `null` and the empty
string are false.

Coordinates and sizes are `real` values that the model carries but never
computes with.

### Behaviour that may be unexpected

The model follows the code in each case.

- Connectors can refer to deleted notes. One might expect both ends of every
  connector to name existing notes; the code does not keep this. Deleting the
  note that is the pending connect source does not clear `pendingFrom`, so the
  next note click appends a connector from a note that no longer exists. The
  renderer skips such connectors. `Scenarios.DanglingConnector` exhibits this.
  The model proves only that a cascade delete keeps all connectors drawable
  if they were drawable before (`Scene.CascadeKeepsConnectorsDrawn`).
- A pending source can exist outside connect mode. One might expect the
  pending source to be cleared whenever the board is in select mode, but
  `addNote` and
  `onConnectorClick` switch to select mode without clearing `pendingFrom`
  (`Scenarios.PendingOutlivesConnectMode`).
- Ids are not assumed to be unique. Notes loaded from storage may repeat ids.
  The model states uniqueness only as something each operation preserves.
  With repeated ids, `find` returns the first note with an id and the id map
  returns the last one; `Scene.LookupsAgree` shows the two agree when ids are
  distinct.
- The reset effect does not close the text editor: `editingId` and
  `editingText` are left as they were.

## Model

| member | source | states |
|---|---|---|
| Seqs.Filter | components/CanvasStage.tsx:218-219 | an element is in the result exactly when it is in the input and kept; the result is a subsequence of the input (original order) and no longer |
| Seqs.FilterMultiplicity | components/CanvasStage.tsx:218-219 | each kept element occurs in the result exactly as often as in the input; a dropped element does not occur |
| Seqs.SubsequenceMembers | components/CanvasStage.tsx:218-219 | every element of a subsequence occurs in the original list |
| Seqs.SubsequencePairwise | components/CanvasStage.tsx:218-219 | a relation holding between every earlier and later element of a list holds the same way in any subsequence of it |
| Seqs.FilterKeepAll | components/CanvasStage.tsx:218 | a filter that keeps every element returns its input unchanged |
| Scene.StarterNotes | components/CanvasStage.tsx:56-59 | the starter board has exactly two notes, ids n1 and n2, distinct, coloured from the palette |
| Scene.NewNote | components/CanvasStage.tsx:113-116 | a new note has the given id, position and colour (a palette swatch), width 200, height 120 and text "New note" |
| Scene.RemoveNote | components/CanvasStage.tsx:218 | deleting a note removes exactly the notes with that id; every other note stays, in its original order |
| Scene.RemoveConnector | components/CanvasStage.tsx:213 | deleting a connector removes exactly the connectors with that id; the rest stay in order |
| Scene.DetachNote | components/CanvasStage.tsx:219 | the cascade removes exactly the connectors whose source or target is the note; the rest stay in order |
| Scene.MoveNote | components/CanvasStage.tsx:153-155 | a drag changes only x and y, and only of notes with the dragged id; length, order and every other field are kept |
| Scene.SetNoteText | components/CanvasStage.tsx:172 | committing an edit changes only the text, and only of notes with the edited id; length, order and every other field are kept |
| Scene.FirstWithId | components/CanvasStage.tsx:158 | the first position at or after a start position holding a note with the id, or none if no such note exists |
| Scene.FindNote | components/CanvasStage.tsx:158 | `find` returns nothing exactly when no note has the id, and otherwise the first note with it |
| Scene.NoteMap | components/CanvasStage.tsx:109 | the id map has exactly the notes' ids as keys, and each key maps to a note of the list with that id |
| Scene.NoteMapLastWins | components/CanvasStage.tsx:109 | when ids repeat, the id map holds the last note with the id |
| Scene.Drawn | components/CanvasStage.tsx:326-328 | a connector is drawn exactly when both of its ends are the id of some note on the board |
| Scene.CascadeIsExact | components/CanvasStage.tsx:217-221 | after a note deletion and its cascade, the notes with the id and the connectors touching it occur zero times, and every other note and connector as often as before |
| Scene.RemoveConnectorIsExact | components/CanvasStage.tsx:211-216 | after a connector deletion, connectors with the id occur zero times and every other connector as often as before |
| Scene.CascadeKeepsConnectorsDrawn | components/CanvasStage.tsx:217-221 | if every connector named existing notes before a cascade delete, every surviving connector still does |
| Scene.RemoveNoteKeepsUniqueIds | components/CanvasStage.tsx:218 | deleting a note keeps distinct ids distinct |
| Scene.AppendFreshKeepsUniqueIds | components/CanvasStage.tsx:114-117 | appending a note with a fresh id keeps the ids distinct |
| Scene.RemoveAbsentNote | components/CanvasStage.tsx:218 | deleting an id no note has leaves the notes unchanged |
| Scene.RemovePresentNote | components/CanvasStage.tsx:218 | with distinct ids, deleting a present id removes exactly one note |
| Scene.SameIdsPointwise | components/CanvasStage.tsx:154 | two lists whose ids agree position by position have the same id set and the same uniqueness |
| Scene.MoveNoteKeepsIds | components/CanvasStage.tsx:154 | a drag keeps the set of ids and their distinctness |
| Scene.SetNoteTextKeepsIds | components/CanvasStage.tsx:172 | an edit commit keeps the set of ids and their distinctness |
| Scene.MoveNoteLastWins | components/CanvasStage.tsx:153-155 | two drags of the same note equal the second drag alone |
| Scene.LookupsAgree | components/CanvasStage.tsx:109 | with distinct ids, `find` and the renderer's id map return the same note |
| Scene.EditWithoutChangeIsIdentity | components/CanvasStage.tsx:170-175 | with distinct ids, opening the editor and committing the unchanged draft leaves the notes as they were |
| Canvas.Truthy | components/CanvasStage.tsx:132 | a nullable string cell is falsy exactly when it is `null` or the empty string (the same test at lines 171, 186, 212 and 217) |
| Canvas.IsDeleteKey | components/CanvasStage.tsx:211 | exactly the Delete and Backspace keys delete the selection; Escape and every other key do not |
| Canvas.CanvasStage.constructor | components/CanvasStage.tsx:51-81 | a stored list is used when present, otherwise the starter notes and no connectors; select mode, nothing selected, pending or edited |
| Canvas.CanvasStage.Reset | components/CanvasStage.tsx:90-107 | a counter below 1 changes nothing; otherwise exactly the starter notes, no connectors, select mode, no selection and no pending source; the editor is left as it was |
| Canvas.CanvasStage.AddNote | components/CanvasStage.tsx:112-120 | appends exactly one default note and keeps the existing notes; select mode; clears the connector selection; keeps the note selection and the pending source |
| Canvas.CanvasStage.StartConnect | components/CanvasStage.tsx:122-127 | connect mode with both selections and the pending source cleared; the scene is unchanged |
| Canvas.CanvasStage.NoteClick | components/CanvasStage.tsx:129-144 | clears the connector selection; select mode selects the note; a first connect click makes the note pending and selected; a second click on a different note appends exactly one connector from the pending note and returns to select mode with the clicked note selected; a click on the pending note changes nothing else |
| Canvas.CanvasStage.ConnectorClick | components/CanvasStage.tsx:146-151 | selects the connector, clears the note selection, sets select mode and keeps the pending source |
| Canvas.CanvasStage.DragEnd | components/CanvasStage.tsx:153-155 | the notes become the dragged list (only positions of notes with the id change); the rest of the state is kept |
| Canvas.CanvasStage.DblClick | components/CanvasStage.tsx:157-161 | opens the editor on a known note with its text as the draft; an unknown id (or no container) changes nothing |
| Canvas.CanvasStage.ChangeDraft | components/CanvasStage.tsx:371 | typing replaces only the draft text |
| Canvas.CanvasStage.SaveEdit | components/CanvasStage.tsx:170-175 | with no edited note, a no-op; otherwise the draft becomes the text of the edited note and the editor closes; nothing else changes |
| Canvas.CanvasStage.StageMouseDown | components/CanvasStage.tsx:264-274 | a press on the empty canvas clears both selections and, in connect mode, returns to select mode with no pending source; any other press changes nothing |
| Canvas.CanvasStage.KeyDown | components/CanvasStage.tsx:185-222 | nothing happens while editing or inside a form element; Escape gives select mode with no selection and no pending source; Delete/Backspace removes the selected connector only, or else the selected note with exactly its connectors, clearing that selection |
| Canvas.CanvasStage.PressEscape | components/CanvasStage.tsx:193-198 | select mode with no note or connector selected and no pending source; the scene and the editor are unchanged |
| Canvas.CanvasStage.PressDelete | components/CanvasStage.tsx:211-222 | a selected connector is deleted and the notes are untouched; otherwise a selected note is deleted with its cascade and the note selection cleared; with nothing selected nothing changes; mode and pending source are kept |
| Scenarios.DanglingConnector | components/CanvasStage.tsx:129-144 | deleting the pending note and then clicking another note yields a connector the renderer cannot draw |
| Scenarios.ConnectThenDeleteSource | components/CanvasStage.tsx:112-144 | from an empty board: add two notes, connect them, delete the first; one note and no connector remain |
| Scenarios.PendingOutlivesConnectMode | components/CanvasStage.tsx:112-120 | adding a note during connect mode leaves select mode with the source still pending, and a later note click creates no connector |

## Left out

- Persistence. The model leaves out the local-storage reads and writes, JSON
  encoding and the swallowed exceptions (components/CanvasStage.tsx:51-71 and
  97-100; app/page.tsx:17-34). These are browser calls. Loading is the
  constructor's `Option` arguments, and writing back has no effect on the
  board.
- Wheel zoom, panning and the view transform. This covers `onWheel`, the
  stage drag, `scale`, `stagePos` (also their reset at
  components/CanvasStage.tsx:101-102) and `isPanning`. This is floating-point
  screen geometry, not board logic.
- Canvas.CanvasStage.KeyDown: the Space branch (panning feedback) is not
  modelled. The Ctrl/Cmd+N and Ctrl/Cmd+L branches are not modelled either:
  they call `addNote` and `startConnect`, which are modelled on their own as
  `AddNote` and `StartConnect`. `Key` has no value for these keys, so the
  model treats them like any other key, which changes nothing.
- Canvas.CanvasStage.DblClick: the editor rectangle computed from the note
  and the view transform is not modelled. It is floating-point geometry that
  only positions the overlay.
- Arrow end points (`getCenter` and components/CanvasStage.tsx:329-332), the
  background fit-and-centre and all rendering. Only the rendering decision
  "both ends exist" (`Scene.Drawn`) is modelled.
- Scene.Drawn: the renderer's id map is a plain JavaScript object, so an id
  equal to an inherited `Object.prototype` member name (such as
  "constructor" or "toString") is found there even without a note. The model
  treats the id map as a map with only the notes' ids, so such ids are
  outside the model.
- Window size tracking, cursor feedback, the webcam capture, the file upload
  and the page chrome. These are device or UI concerns outside the board.
- React scheduling (effect dependency lists, batching of state updates,
  closures). Each handler is modelled as one atomic transition that reads the
  current state.
- Randomness. The model does not claim that a UUID is fresh. Uniqueness of
  ids is stated only on condition that the new id is not already in use.
