/**
 * The interaction controller of the sticky-note board: one object holding
 * the board's state cells (the scene lists, the mode, the two selections,
 * the pending connector source and the text-edit draft), with one method per
 * UI handler. Each handler runs as one atomic transition.
 *
 * The cells of type `string | null` are `Option<string>`. The handlers test
 * them for JavaScript truthiness, under which both `null` and the empty
 * string are false; `Truthy` models that test.
 */
module Canvas {
  import opened Scene

  /** The keys whose handling is modelled; every other key is `OtherKey`. */
  datatype Key = Escape | Delete | Backspace | OtherKey

  /** Delete and Backspace both delete the current selection. */
  function IsDeleteKey(key: Key): (b: bool)
    ensures b <==> key != Escape && key != OtherKey
  {
    key == Delete || key == Backspace
  }

  /**
   * JavaScript truthiness of a `string | null` value: the only falsy values
   * of that type are `null` and the empty string.
   */
  function Truthy(v: Option<string>): (b: bool)
    ensures !b <==> v == None || v == Some("")
  {
    v.Some? && v.value != ""
  }

  class CanvasStage {
    var notes: seq<Note>
    var connectors: seq<Connector>
    var mode: Mode
    /** The selected note, if any. */
    var selectedId: Option<string>
    /** The selected connector, if any. */
    var selectedConnId: Option<string>
    /** The note picked first in connect mode, awaiting a target. */
    var pendingFrom: Option<string>
    /** The note whose text is being edited, and the draft text. */
    var editingId: Option<string>
    var editingText: string

    /**
     * The board's invariant: a note and a connector are never selected at
     * the same time, and no connector is selected in connect mode. (A
     * pending source outside connect mode is possible, and so is a connector
     * whose ends no longer name notes.)
     */
    ghost predicate Valid()
      reads this
    {
      && !(selectedId.Some? && selectedConnId.Some?)
      && (mode == Connect ==> selectedConnId == None)
    }

    /**
     * Mounting the board. `storedNotes` and `storedConnectors` are the
     * persisted lists when the storage slot is present and parses; otherwise
     * the board starts with the two starter notes and no connectors.
     */
    constructor (storedNotes: Option<seq<Note>>, storedConnectors: Option<seq<Connector>>,
                 color1: string, color2: string)
      requires IsSwatch(color1) && IsSwatch(color2)
      ensures Valid()
      ensures notes == if storedNotes.Some? then storedNotes.value else StarterNotes(color1, color2)
      ensures connectors == if storedConnectors.Some? then storedConnectors.value else []
      ensures mode == Select && selectedId == None && selectedConnId == None && pendingFrom == None
      ensures editingId == None && editingText == ""
    {
      notes := if storedNotes.Some? then storedNotes.value else StarterNotes(color1, color2);
      connectors := if storedConnectors.Some? then storedConnectors.value else [];
      mode := Select;
      selectedId := None;
      selectedConnId := None;
      pendingFrom := None;
      editingId := None;
      editingText := "";
    }

    /**
     * The reset effect, run when the reset counter changes. A counter below 1
     * does nothing; otherwise the board returns to the starter notes with no
     * connectors, select mode, and no selection or pending source. The edit
     * draft is left as it was.
     */
    method Reset(resetCounter: int, color1: string, color2: string)
      requires Valid() && IsSwatch(color1) && IsSwatch(color2)
      modifies this
      ensures Valid()
      ensures resetCounter < 1 ==> unchanged(this)
      ensures resetCounter >= 1 ==>
        && notes == StarterNotes(color1, color2) && connectors == []
        && mode == Select && pendingFrom == None && selectedId == None && selectedConnId == None
        && editingId == old(editingId) && editingText == old(editingText)
    {
      if resetCounter < 1 {
        return;
      }
      notes := StarterNotes(color1, color2);
      connectors := [];
      mode := Select;
      pendingFrom := None;
      selectedId := None;
      selectedConnId := None;
    }

    /**
     * Adding a note with the fresh id `id`, a randomly drawn position
     * (carried as an opaque value) and a palette colour. The new note is appended;
     * the mode becomes select and the connector selection is cleared, while
     * the note selection and the pending source are kept.
     */
    method AddNote(id: string, x: real, y: real, color: string)
      requires Valid() && IsSwatch(color)
      modifies this
      ensures Valid()
      ensures notes == old(notes) + [NewNote(id, x, y, color)]
      ensures old(UniqueIds(notes)) && id !in old(IdSet(notes)) ==> UniqueIds(notes)
      ensures mode == Select && selectedConnId == None
      ensures connectors == old(connectors) && selectedId == old(selectedId) && pendingFrom == old(pendingFrom)
      ensures editingId == old(editingId) && editingText == old(editingText)
    {
      if UniqueIds(notes) && id !in IdSet(notes) {
        AppendFreshKeepsUniqueIds(notes, NewNote(id, x, y, color));
      }
      notes := notes + [NewNote(id, x, y, color)];
      mode := Select;
      selectedConnId := None;
    }

    /** Entering connect mode clears both selections and the pending source. */
    method StartConnect()
      requires Valid()
      modifies this
      ensures Valid()
      ensures mode == Connect && pendingFrom == None && selectedId == None && selectedConnId == None
      ensures notes == old(notes) && connectors == old(connectors)
      ensures editingId == old(editingId) && editingText == old(editingText)
    {
      mode := Connect;
      pendingFrom := None;
      selectedId := None;
      selectedConnId := None;
    }

    /**
     * Clicking the note `id`; `freshConnId` is the id a new connector would
     * get. The connector selection is always cleared. In select mode the
     * note becomes selected. In connect mode the first click makes the note
     * the pending source (and selects it); a click on a different note
     * appends one connector from the pending source to it and returns to
     * select mode with that note selected; a click on the pending note
     * itself changes nothing else.
     */
    method NoteClick(id: string, freshConnId: string)
      requires Valid()
      modifies this
      ensures Valid()
      ensures selectedConnId == None
      ensures notes == old(notes) && editingId == old(editingId) && editingText == old(editingText)
      ensures old(mode) == Select ==>
        && selectedId == Some(id)
        && mode == Select && pendingFrom == old(pendingFrom) && connectors == old(connectors)
      ensures old(mode) == Connect && !Truthy(old(pendingFrom)) ==>
        && pendingFrom == Some(id) && selectedId == Some(id)
        && mode == Connect && connectors == old(connectors)
      ensures old(mode) == Connect && Truthy(old(pendingFrom)) && old(pendingFrom).value != id ==>
        && connectors == old(connectors) + [Connector(freshConnId, old(pendingFrom).value, id)]
        && pendingFrom == None && mode == Select && selectedId == Some(id)
      ensures old(mode) == Connect && Truthy(old(pendingFrom)) && old(pendingFrom).value == id ==>
        && connectors == old(connectors)
        && pendingFrom == old(pendingFrom) && mode == Connect && selectedId == old(selectedId)
    {
      selectedConnId := None;
      if mode == Connect {
        if !Truthy(pendingFrom) {
          pendingFrom := Some(id);
          selectedId := Some(id);
        } else if pendingFrom.value != id {
          connectors := connectors + [Connector(freshConnId, pendingFrom.value, id)];
          pendingFrom := None;
          mode := Select;
          selectedId := Some(id);
        }
      } else {
        selectedId := Some(id);
      }
    }

    /**
     * Clicking the connector `id` selects it, clears the note selection and
     * sets select mode; the pending source is kept.
     */
    method ConnectorClick(id: string)
      requires Valid()
      modifies this
      ensures Valid()
      ensures selectedId == None && selectedConnId == Some(id) && mode == Select
      ensures pendingFrom == old(pendingFrom) && notes == old(notes) && connectors == old(connectors)
      ensures editingId == old(editingId) && editingText == old(editingText)
    {
      selectedId := None;
      selectedConnId := Some(id);
      mode := Select;
    }

    /** Dropping the note `id` at (x, y): only the position of notes with that id changes. */
    method DragEnd(id: string, x: real, y: real)
      requires Valid()
      modifies this
      ensures Valid()
      ensures notes == MoveNote(old(notes), id, x, y)
      ensures connectors == old(connectors) && mode == old(mode)
      ensures selectedId == old(selectedId) && selectedConnId == old(selectedConnId) && pendingFrom == old(pendingFrom)
      ensures editingId == old(editingId) && editingText == old(editingText)
    {
      notes := MoveNote(notes, id, x, y);
    }

    /**
     * Double-clicking the note `id` opens the editor on it with its current
     * text as the draft; `mounted` says whether the board's container element
     * exists. An unknown id, or an unmounted container, changes nothing.
     */
    method DblClick(id: string, mounted: bool)
      requires Valid()
      modifies this
      ensures Valid()
      ensures FindNote(old(notes), id).None? || !mounted ==> unchanged(this)
      ensures FindNote(old(notes), id).Some? && mounted ==>
        editingId == Some(id) && editingText == FindNote(old(notes), id).value.text
      ensures notes == old(notes) && connectors == old(connectors) && mode == old(mode)
      ensures selectedId == old(selectedId) && selectedConnId == old(selectedConnId) && pendingFrom == old(pendingFrom)
    {
      var n := FindNote(notes, id);
      if n.None? || !mounted {
        return;
      }
      editingId := Some(id);
      editingText := n.value.text;
    }

    /** Typing in the editor replaces the draft text. */
    method ChangeDraft(text: string)
      requires Valid()
      modifies this
      ensures Valid()
      ensures editingText == text
      ensures notes == old(notes) && connectors == old(connectors) && mode == old(mode)
      ensures selectedId == old(selectedId) && selectedConnId == old(selectedConnId) && pendingFrom == old(pendingFrom)
      ensures editingId == old(editingId)
    {
      editingText := text;
    }

    /**
     * Committing the editor: the draft becomes the text of the notes with the
     * edited id, and the editor closes. Without an edited note it does nothing.
     */
    method SaveEdit()
      requires Valid()
      modifies this
      ensures Valid()
      ensures !Truthy(old(editingId)) ==> unchanged(this)
      ensures Truthy(old(editingId)) ==>
        notes == SetNoteText(old(notes), old(editingId).value, old(editingText)) && editingId == None
      ensures connectors == old(connectors) && mode == old(mode) && editingText == old(editingText)
      ensures selectedId == old(selectedId) && selectedConnId == old(selectedConnId) && pendingFrom == old(pendingFrom)
    {
      if !Truthy(editingId) {
        return;
      }
      notes := SetNoteText(notes, editingId.value, editingText);
      editingId := None;
    }

    /**
     * A mouse press on the stage. Only a press on the empty canvas does
     * anything: it clears both selections and, in connect mode, cancels back
     * to select mode and forgets the pending source.
     */
    method StageMouseDown(onEmptyCanvas: bool)
      requires Valid()
      modifies this
      ensures Valid()
      ensures !onEmptyCanvas ==> unchanged(this)
      ensures onEmptyCanvas ==> selectedId == None && selectedConnId == None
      ensures onEmptyCanvas && old(mode) == Connect ==> mode == Select && pendingFrom == None
      ensures old(mode) == Select ==> mode == Select && pendingFrom == old(pendingFrom)
      ensures notes == old(notes) && connectors == old(connectors)
      ensures editingId == old(editingId) && editingText == old(editingText)
    {
      if onEmptyCanvas {
        selectedId := None;
        selectedConnId := None;
        if mode == Connect {
          mode := Select;
          pendingFrom := None;
        }
      }
    }

    /**
     * A key press. Nothing happens while a note is being edited or while the
     * key goes to a form element. Otherwise Escape returns to select mode
     * with no selection and no pending source; Delete or Backspace deletes
     * the selected connector if there is one and stops there, or else
     * deletes the selected note together with every connector touching it.
     */
    method KeyDown(key: Key, toFormElement: bool)
      requires Valid()
      modifies this
      ensures Valid()
      ensures Truthy(old(editingId)) || toFormElement || key == OtherKey ==> unchanged(this)
      ensures editingId == old(editingId) && editingText == old(editingText)
      ensures !Truthy(old(editingId)) && !toFormElement && key == Escape ==>
        && mode == Select && pendingFrom == None && selectedId == None && selectedConnId == None
        && notes == old(notes) && connectors == old(connectors)
      ensures !Truthy(old(editingId)) && !toFormElement && IsDeleteKey(key) ==>
        mode == old(mode) && pendingFrom == old(pendingFrom)
      ensures !Truthy(old(editingId)) && !toFormElement && IsDeleteKey(key) && Truthy(old(selectedConnId)) ==>
        && connectors == RemoveConnector(old(connectors), old(selectedConnId).value)
        && notes == old(notes) && selectedConnId == None && selectedId == old(selectedId)
      ensures (&& !Truthy(old(editingId)) && !toFormElement && IsDeleteKey(key)
               && !Truthy(old(selectedConnId)) && Truthy(old(selectedId))) ==>
        && notes == RemoveNote(old(notes), old(selectedId).value)
        && connectors == DetachNote(old(connectors), old(selectedId).value)
        && selectedId == None && selectedConnId == old(selectedConnId)
      ensures (&& !Truthy(old(editingId)) && !toFormElement && IsDeleteKey(key)
               && !Truthy(old(selectedConnId)) && !Truthy(old(selectedId))) ==> unchanged(this)
    {
      if Truthy(editingId) || toFormElement {
        return;
      }
      if key == Escape {
        PressEscape();
      } else if IsDeleteKey(key) {
        PressDelete();
      }
    }

    /** The Escape branch of a key press: select mode, nothing selected, nothing pending. */
    method PressEscape()
      requires Valid()
      modifies this
      ensures Valid()
      ensures mode == Select && pendingFrom == None && selectedId == None && selectedConnId == None
      ensures notes == old(notes) && connectors == old(connectors)
      ensures editingId == old(editingId) && editingText == old(editingText)
    {
      mode := Select;
      pendingFrom := None;
      selectedId := None;
      selectedConnId := None;
    }

    /**
     * The Delete/Backspace branch of a key press. A selected connector is
     * deleted and the handler stops there; otherwise a selected note is
     * deleted together with every connector touching it; with nothing
     * selected nothing happens. Mode and pending source are kept.
     */
    method PressDelete()
      requires Valid()
      modifies this
      ensures Valid()
      ensures mode == old(mode) && pendingFrom == old(pendingFrom)
      ensures editingId == old(editingId) && editingText == old(editingText)
      ensures Truthy(old(selectedConnId)) ==>
        && connectors == RemoveConnector(old(connectors), old(selectedConnId).value)
        && notes == old(notes) && selectedConnId == None && selectedId == old(selectedId)
      ensures !Truthy(old(selectedConnId)) && Truthy(old(selectedId)) ==>
        && notes == RemoveNote(old(notes), old(selectedId).value)
        && connectors == DetachNote(old(connectors), old(selectedId).value)
        && selectedId == None && selectedConnId == old(selectedConnId)
      ensures !Truthy(old(selectedConnId)) && !Truthy(old(selectedId)) ==> unchanged(this)
    {
      if Truthy(selectedConnId) {
        connectors := RemoveConnector(connectors, selectedConnId.value);
        selectedConnId := None;
        return;
      }
      if Truthy(selectedId) {
        var id := selectedId.value;
        notes := RemoveNote(notes, id);
        connectors := DetachNote(connectors, id);
        selectedId := None;
      }
    }
  }
}

/**
 * Scenarios that run the handlers in sequence on a fresh board and state what
 * the board looks like afterwards.
 */
module Scenarios {
  import opened Scene
  import opened Canvas

  /**
   * The pending source of connect mode survives the deletion of its note, so
   * the next note click appends a connector whose source no longer exists;
   * the renderer then skips that connector.
   */
  method DanglingConnector() returns (board: CanvasStage)
    ensures board.connectors == [Connector("c1", "n1", "n2")]
    ensures !Drawn(board.connectors[0], board.notes)
    ensures board.mode == Select && board.selectedId == Some("n2") && board.pendingFrom == None
  {
    board := new CanvasStage(None, None, Palette[0], Palette[1]);
    board.StartConnect();
    board.NoteClick("n1", "c0");
    board.KeyDown(Delete, false);
    assert forall n :: n in board.notes ==> n.id != "n1";
    board.NoteClick("n2", "c1");
    assert "n1" !in IdSet(board.notes);
  }

  /**
   * Starting from an empty board: add two notes, connect the first to the
   * second, select the first and delete it. One note and no connector remain.
   */
  method ConnectThenDeleteSource() returns (board: CanvasStage)
    ensures |board.notes| == 1 && board.notes[0].id == "b" && board.notes[0].text == "New note"
    ensures board.connectors == []
    ensures board.selectedId == None && board.mode == Select
  {
    board := new CanvasStage(Some([]), Some([]), Palette[0], Palette[0]);
    board.AddNote("a", 80.0, 80.0, Palette[1]);
    board.AddNote("b", 120.0, 200.0, Palette[2]);
    assert UniqueIds(board.notes);
    board.StartConnect();
    board.NoteClick("a", "c");
    board.NoteClick("b", "c");
    assert board.connectors == [Connector("c", "a", "b")];
    board.NoteClick("a", "c");
    ghost var before := board.notes;
    board.KeyDown(Delete, false);
    RemovePresentNote(before, "a");
    assert board.notes[0] in board.notes;
  }

  /**
   * Adding a note while a connect source is pending leaves select mode with
   * the source still pending; a note click then only selects, and no
   * connector is created.
   */
  method PendingOutlivesConnectMode() returns (board: CanvasStage)
    ensures board.mode == Select && board.pendingFrom == Some("n1")
    ensures board.selectedId == Some("n2") && board.connectors == []
  {
    board := new CanvasStage(None, None, Palette[0], Palette[1]);
    board.StartConnect();
    board.NoteClick("n1", "c0");
    board.AddNote("a", 100.0, 100.0, Palette[2]);
    board.NoteClick("n2", "c1");
  }
}
