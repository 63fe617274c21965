/**
 * The scene model of the sticky-note board: the note and connector records
 * and the list updates the board's handlers apply to them. The functions
 * here are the board's list expressions (`map` with a field replaced,
 * `filter`, `find`, `Object.fromEntries`); the two appends by spread are
 * written inline in the handlers that perform them. Coordinates and
 * sizes are carried as opaque reals and never computed with.
 */
module Scene {
  import opened Seqs

  datatype Option<T> = None | Some(value: T)

  /** A sticky note: identity, position, size, text and colour swatch. */
  datatype Note = Note(id: string, x: real, y: real, width: real, height: real, text: string, color: string)

  /** A directed edge between two notes, naming them by id. */
  datatype Connector = Connector(id: string, fromId: string, toId: string)

  /** The interaction mode of the board. */
  datatype Mode = Select | Connect

  /** The swatches `randomColor` picks from. */
  const Palette: seq<string> := ["#FEF3C7", "#E0F2FE", "#FCE7F3", "#DCFCE7", "#FFE4E6", "#EDE9FE"]

  predicate IsSwatch(c: string) {
    c in Palette
  }

  /** No two notes share an id. */
  predicate UniqueIds(notes: seq<Note>) {
    forall i, j :: 0 <= i < j < |notes| ==> notes[i].id != notes[j].id
  }

  /** Position `i` holds the first note whose id is `id`. */
  predicate IsFirstWithId(notes: seq<Note>, id: string, i: int) {
    0 <= i < |notes| && notes[i].id == id && forall j :: 0 <= j < i ==> notes[j].id != id
  }

  /** Position `i` holds the last note whose id is `id`. */
  predicate IsLastWithId(notes: seq<Note>, id: string, i: int) {
    0 <= i < |notes| && notes[i].id == id && forall j :: i < j < |notes| ==> notes[j].id != id
  }

  /** The ids of the notes, as a set. */
  function IdSet(notes: seq<Note>): set<string> {
    set n | n in notes :: n.id
  }

  /**
   * The two notes a fresh board starts with (and a reset restores); only
   * their colours are drawn at random.
   */
  function StarterNotes(color1: string, color2: string): (r: seq<Note>)
    requires IsSwatch(color1) && IsSwatch(color2)
    ensures |r| == 2 && UniqueIds(r) && IdSet(r) == {"n1", "n2"}
    ensures forall n :: n in r ==> IsSwatch(n.color)
  {
    [ Note("n1", 120.0, 120.0, 180.0, 120.0, "Double-click to edit", color1),
      Note("n2", 420.0, 260.0, 200.0, 120.0, "Drag me around", color2) ]
  }

  /** The note `addNote` creates: default size and text, given id, position and swatch. */
  function NewNote(id: string, x: real, y: real, color: string): (n: Note)
    requires IsSwatch(color)
    ensures n.id == id && n.x == x && n.y == y && n.color == color && IsSwatch(n.color)
    ensures n.width == 200.0 && n.height == 120.0 && n.text == "New note"
  {
    Note(id, x, y, 200.0, 120.0, "New note", color)
  }

  /**
   * Deleting a note: every note with that id goes, every other note stays,
   * in its original order (and as often as it occurred: `CascadeIsExact`).
   */
  function RemoveNote(notes: seq<Note>, id: string): (r: seq<Note>)
    ensures forall n :: n in r <==> n in notes && n.id != id
    ensures IsSubsequence(r, notes)
  {
    Filter(notes, (n: Note) => n.id != id)
  }

  /** Deleting a connector: the connectors with that id go, the rest stay in order. */
  function RemoveConnector(conns: seq<Connector>, id: string): (r: seq<Connector>)
    ensures forall c :: c in r <==> c in conns && c.id != id
    ensures IsSubsequence(r, conns)
  {
    Filter(conns, (c: Connector) => c.id != id)
  }

  /** A connector that starts or ends at the note `id`. */
  predicate Touches(c: Connector, id: string) {
    c.fromId == id || c.toId == id
  }

  /**
   * The cascade of a note deletion: exactly the connectors touching the note
   * go, every other connector stays, in its original order (and as often as
   * it occurred: `CascadeIsExact`).
   */
  function DetachNote(conns: seq<Connector>, id: string): (r: seq<Connector>)
    ensures forall c :: c in r <==> c in conns && !Touches(c, id)
    ensures IsSubsequence(r, conns)
  {
    Filter(conns, (c: Connector) => !Touches(c, id))
  }

  /**
   * Dragging: every note with the given id takes the new position; nothing
   * else about any note changes, and the list keeps its length and order.
   */
  function MoveNote(notes: seq<Note>, id: string, x: real, y: real): (r: seq<Note>)
    ensures |r| == |notes|
    ensures forall i :: 0 <= i < |notes| ==>
      && r[i].id == notes[i].id && r[i].width == notes[i].width && r[i].height == notes[i].height
      && r[i].text == notes[i].text && r[i].color == notes[i].color
    ensures forall i :: 0 <= i < |notes| ==>
      (r[i].x, r[i].y) == if notes[i].id == id then (x, y) else (notes[i].x, notes[i].y)
    decreases |notes|
  {
    if notes == [] then []
    else
      var n := notes[0];
      [if n.id == id then n.(x := x, y := y) else n] + MoveNote(notes[1..], id, x, y)
  }

  /**
   * Committing an edit: every note with the given id takes the new text;
   * nothing else about any note changes, and the list keeps its length and order.
   */
  function SetNoteText(notes: seq<Note>, id: string, text: string): (r: seq<Note>)
    ensures |r| == |notes|
    ensures forall i :: 0 <= i < |notes| ==>
      && r[i].id == notes[i].id && r[i].x == notes[i].x && r[i].y == notes[i].y
      && r[i].width == notes[i].width && r[i].height == notes[i].height && r[i].color == notes[i].color
    ensures forall i :: 0 <= i < |notes| ==>
      r[i].text == if notes[i].id == id then text else notes[i].text
    decreases |notes|
  {
    if notes == [] then []
    else
      var n := notes[0];
      [if n.id == id then n.(text := text) else n] + SetNoteText(notes[1..], id, text)
  }

  /** The first note at or after position `from` whose id is `id`. */
  function FirstWithId(notes: seq<Note>, id: string, from: nat): (r: Option<nat>)
    requires from <= |notes|
    ensures r.Some? ==> from <= r.value < |notes| && notes[r.value].id == id
    ensures r.Some? ==> forall j :: from <= j < r.value ==> notes[j].id != id
    ensures r.None? ==> forall j :: from <= j < |notes| ==> notes[j].id != id
    decreases |notes| - from
  {
    if from == |notes| then None
    else if notes[from].id == id then Some(from)
    else FirstWithId(notes, id, from + 1)
  }

  /**
   * `notes.find(n => n.id === id)`: the first note with that id, or nothing
   * when no note has it.
   */
  function FindNote(notes: seq<Note>, id: string): (r: Option<Note>)
    ensures r.None? <==> id !in IdSet(notes)
    ensures r.Some? ==> r.value.id == id && exists i :: IsFirstWithId(notes, id, i) && notes[i] == r.value
  {
    match FirstWithId(notes, id, 0)
    case None => None
    case Some(i) => Some(notes[i])
  }

  /**
   * `Object.fromEntries(notes.map(n => [n.id, n]))`: the lookup the renderer
   * uses. Its keys are exactly the notes' ids and every id maps to a note
   * with that id (when ids repeat, the last such note: `NoteMapLastWins`).
   */
  function NoteMap(notes: seq<Note>): (m: map<string, Note>)
    ensures m.Keys == IdSet(notes)
    ensures forall k :: k in m ==> m[k].id == k && m[k] in notes
    decreases |notes|
  {
    if notes == [] then map[]
    else
      var init := notes[..|notes| - 1];
      var last := notes[|notes| - 1];
      assert notes == init + [last];
      NoteMap(init)[last.id := last]
  }

  /** When ids repeat, the id map holds the last note with the id. */
  lemma {:induction false} NoteMapLastWins(notes: seq<Note>, k: string)
    requires k in NoteMap(notes)
    ensures exists i :: IsLastWithId(notes, k, i) && notes[i] == NoteMap(notes)[k]
    decreases |notes|
  {
    assert NoteMap(notes)[k] in notes;
    var init, last := notes[..|notes| - 1], notes[|notes| - 1];
    assert NoteMap(notes) == NoteMap(init)[last.id := last];
    if last.id == k {
      assert IsLastWithId(notes, k, |notes| - 1);
    } else {
      assert k in NoteMap(init) && NoteMap(notes)[k] == NoteMap(init)[k];
      NoteMapLastWins(init, k);
      var i :| IsLastWithId(init, k, i) && init[i] == NoteMap(init)[k];
      assert notes[i] == init[i];
      forall j | i < j < |notes| ensures notes[j].id != k {
        if j < |notes| - 1 {
          assert notes[j] == init[j];
        }
      }
      assert IsLastWithId(notes, k, i);
    }
  }

  /**
   * The renderer draws a connector only when both of its ends name a note.
   * The id map is a plain JavaScript object, so an id equal to an inherited
   * `Object.prototype` member name (such as "constructor") is found there
   * even without a note; such ids are outside this model.
   */
  function Drawn(c: Connector, notes: seq<Note>): (b: bool)
    ensures b <==> (exists f :: f in notes && f.id == c.fromId) && (exists t :: t in notes && t.id == c.toId)
  {
    c.fromId in NoteMap(notes) && c.toId in NoteMap(notes)
  }

  /** Every connector refers to notes that exist. */
  predicate AllDrawn(conns: seq<Connector>, notes: seq<Note>) {
    forall c :: c in conns ==> Drawn(c, notes)
  }

  // ---------------------------------------------------------------------
  // Properties relating the list operations
  // ---------------------------------------------------------------------

  /**
   * Deleting a note together with its cascade keeps every surviving
   * connector drawable: if all connectors referred to existing notes
   * before, they all still do afterwards.
   */
  lemma {:induction false} CascadeKeepsConnectorsDrawn(notes: seq<Note>, conns: seq<Connector>, id: string)
    requires AllDrawn(conns, notes)
    ensures AllDrawn(DetachNote(conns, id), RemoveNote(notes, id))
  {
    var ns, cs := RemoveNote(notes, id), DetachNote(conns, id);
    forall c | c in cs ensures Drawn(c, ns) {
      assert c in conns && Drawn(c, notes);
      assert c.fromId in IdSet(notes) && c.toId in IdSet(notes);
      var f :| f in notes && f.id == c.fromId;
      var t :| t in notes && t.id == c.toId;
      assert f in ns && t in ns;
      assert c.fromId in IdSet(ns) && c.toId in IdSet(ns);
    }
  }

  /**
   * Deleting a note and its cascade is exact: the notes with the id and the
   * connectors touching it are gone, and every other note and connector
   * occurs as often as before.
   */
  lemma CascadeIsExact(notes: seq<Note>, conns: seq<Connector>, id: string, n: Note, c: Connector)
    ensures multiset(RemoveNote(notes, id))[n] == if n.id == id then 0 else multiset(notes)[n]
    ensures multiset(DetachNote(conns, id))[c] == if Touches(c, id) then 0 else multiset(conns)[c]
  {
    FilterMultiplicity(notes, (m: Note) => m.id != id, n);
    FilterMultiplicity(conns, (d: Connector) => !Touches(d, id), c);
  }

  /**
   * Deleting a connector is exact: the connectors with the id are gone and
   * every other connector occurs as often as before.
   */
  lemma RemoveConnectorIsExact(conns: seq<Connector>, id: string, c: Connector)
    ensures multiset(RemoveConnector(conns, id))[c] == if c.id == id then 0 else multiset(conns)[c]
  {
    FilterMultiplicity(conns, (d: Connector) => d.id != id, c);
  }

  /** Deleting a note keeps the remaining ids distinct. */
  lemma RemoveNoteKeepsUniqueIds(notes: seq<Note>, id: string)
    requires UniqueIds(notes)
    ensures UniqueIds(RemoveNote(notes, id))
  {
    SubsequencePairwise(RemoveNote(notes, id), notes, (a: Note, b: Note) => a.id != b.id);
  }

  /** Appending a note whose id is fresh keeps the ids distinct. */
  lemma AppendFreshKeepsUniqueIds(notes: seq<Note>, n: Note)
    requires UniqueIds(notes) && n.id !in IdSet(notes)
    ensures UniqueIds(notes + [n])
  {
    forall i, j | 0 <= i < j < |notes + [n]| ensures (notes + [n])[i].id != (notes + [n])[j].id {
      if j == |notes| {
        assert notes[i] in notes;
      }
    }
  }

  /** Deleting a note whose id is absent changes nothing. */
  lemma RemoveAbsentNote(notes: seq<Note>, id: string)
    requires id !in IdSet(notes)
    ensures RemoveNote(notes, id) == notes
  {
    FilterKeepAll(notes, (n: Note) => n.id != id);
  }

  /** With distinct ids, deleting a present note shortens the list by exactly one. */
  lemma {:induction false} RemovePresentNote(notes: seq<Note>, id: string)
    requires UniqueIds(notes) && id in IdSet(notes)
    ensures |RemoveNote(notes, id)| == |notes| - 1
    decreases |notes|
  {
    var rest := notes[1..];
    assert UniqueIds(rest) by {
      forall i, j | 0 <= i < j < |rest| ensures rest[i].id != rest[j].id {
        assert rest[i] == notes[i + 1] && rest[j] == notes[j + 1];
      }
    }
    if notes[0].id == id {
      forall n | n in rest ensures n.id != id {
        var k :| 0 <= k < |rest| && rest[k] == n;
        assert notes[k + 1] == n;
      }
      RemoveAbsentNote(rest, id);
      assert RemoveNote(notes, id) == RemoveNote(rest, id);
    } else {
      var n :| n in notes && n.id == id;
      assert n in rest by { assert notes == [notes[0]] + rest; }
      RemovePresentNote(rest, id);
      assert RemoveNote(notes, id) == [notes[0]] + RemoveNote(rest, id);
    }
  }

  /** Two lists whose ids agree position by position have the same id set and the same uniqueness. */
  lemma SameIdsPointwise(a: seq<Note>, b: seq<Note>)
    requires |a| == |b| && forall i :: 0 <= i < |a| ==> a[i].id == b[i].id
    ensures IdSet(a) == IdSet(b) && (UniqueIds(a) <==> UniqueIds(b))
  {
    forall k | k in IdSet(a) ensures k in IdSet(b) {
      var n :| n in a && n.id == k;
      var i :| 0 <= i < |a| && a[i] == n;
      assert b[i] in b;
    }
    forall k | k in IdSet(b) ensures k in IdSet(a) {
      var n :| n in b && n.id == k;
      var i :| 0 <= i < |b| && b[i] == n;
      assert a[i] in a;
    }
  }

  /** A drag keeps the set of ids, and keeps them distinct if they were. */
  lemma MoveNoteKeepsIds(notes: seq<Note>, id: string, x: real, y: real)
    ensures IdSet(MoveNote(notes, id, x, y)) == IdSet(notes)
    ensures UniqueIds(notes) ==> UniqueIds(MoveNote(notes, id, x, y))
  {
    SameIdsPointwise(notes, MoveNote(notes, id, x, y));
  }

  /** An edit keeps the set of ids, and keeps them distinct if they were. */
  lemma SetNoteTextKeepsIds(notes: seq<Note>, id: string, text: string)
    ensures IdSet(SetNoteText(notes, id, text)) == IdSet(notes)
    ensures UniqueIds(notes) ==> UniqueIds(SetNoteText(notes, id, text))
  {
    SameIdsPointwise(notes, SetNoteText(notes, id, text));
  }

  /** A later drag overrides an earlier one: only the last position survives. */
  lemma {:induction false} MoveNoteLastWins(notes: seq<Note>, id: string, x1: real, y1: real, x2: real, y2: real)
    ensures MoveNote(MoveNote(notes, id, x1, y1), id, x2, y2) == MoveNote(notes, id, x2, y2)
  {
    var a, b := MoveNote(MoveNote(notes, id, x1, y1), id, x2, y2), MoveNote(notes, id, x2, y2);
    assert |a| == |b|;
    forall i | 0 <= i < |a| ensures a[i] == b[i] {
      assert a[i].id == notes[i].id;
    }
  }

  /**
   * With distinct ids, the two lookups of the board agree: the note `find`
   * returns (used to open the editor) is the note the renderer's id map
   * holds (used to draw arrows).
   */
  lemma LookupsAgree(notes: seq<Note>, id: string)
    requires UniqueIds(notes) && id in IdSet(notes)
    ensures FindNote(notes, id) == Some(NoteMap(notes)[id])
  {
    var m := NoteMap(notes);
    NoteMapLastWins(notes, id);
    var i :| IsLastWithId(notes, id, i) && notes[i] == m[id];
    var f := FindNote(notes, id);
    var k :| IsFirstWithId(notes, id, k) && notes[k] == f.value;
    assert !(i < k) && !(k < i);
  }

  /**
   * Opening the editor on a note and committing without typing leaves the
   * notes as they were, provided the ids are distinct.
   */
  lemma EditWithoutChangeIsIdentity(notes: seq<Note>, id: string)
    requires UniqueIds(notes) && FindNote(notes, id).Some?
    ensures SetNoteText(notes, id, FindNote(notes, id).value.text) == notes
  {
    var n := FindNote(notes, id).value;
    var k :| IsFirstWithId(notes, id, k) && notes[k] == n;
    var r := SetNoteText(notes, id, n.text);
    forall i | 0 <= i < |notes| ensures r[i] == notes[i] {
      assert r[i].text == notes[i].text by {
        if notes[i].id == id {
          assert !(i < k) && !(k < i);
        }
      }
    }
    assert |r| == |notes|;
  }
}
