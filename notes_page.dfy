/** The notebook's home page (ai-notebook/app/page.tsx): the note list with its selection,
    the todo-list callbacks it hands to the todo components, restoring data and the hasData
    test. Note (types/note.ts) is not part of this model; its fields are the ones createNote
    fills in. The AI title generation is an input: the title and summary it returned, or None. */
module NotesPage {
  import opened Wrappers
  import opened Text
  import opened TodoTypes
  import ProjectTypes
  import Seqs
  import TodoListPanel

  datatype Note = Note(id: string, title: string, content: string, summary: string, createdAt: string, updatedAt: string)

  /** Title of a note just created. */
  const NewNoteTitle: string := "新笔记"

  /** The notes and the selected note id (null when nothing is selected). */
  datatype Notebook = Notebook(notes: seq<Note>, selectedId: Option<string>)

  /** `notes.find(note => note.id === selectedId)` */
  function SelectedNote(b: Notebook): (r: Option<Note>)
    ensures r.None? <==> b.selectedId.None? || forall i :: 0 <= i < |b.notes| ==> b.notes[i].id != b.selectedId.value
    ensures r.Some? ==> r.value in b.notes && Some(r.value.id) == b.selectedId
  {
    var r := Seqs.Find((n: Note) => Some(n.id) == b.selectedId, b.notes);
    if r.Some? then Seqs.FindFound((n: Note) => Some(n.id) == b.selectedId, b.notes); r else r
  }

  /** Nothing is selected, or the selected id belongs to a note of the list. */
  predicate SelectionValid(b: Notebook) {
    b.selectedId.None? || exists i :: 0 <= i < |b.notes| && b.notes[i].id == b.selectedId.value
  }

  /** createNote: an empty note titled 新笔记 in front of the others, and selected. */
  function CreateNote(b: Notebook, id: string, now: string): (r: Notebook)
    ensures |r.notes| == |b.notes| + 1 && r.notes[1..] == b.notes
    ensures r.notes[0] == Note(id, NewNoteTitle, "", "", now, now)
    ensures r.selectedId == Some(id)
  {
    var n := Note(id, NewNoteTitle, "", "", now, now);
    assert ([n] + b.notes)[1..] == b.notes;
    Notebook([n] + b.notes, Some(id))
  }

  /** After createNote the page shows the new note, and the selection is valid. */
  lemma CreatedNoteIsShown(b: Notebook, id: string, now: string)
    ensures var r := CreateNote(b, id, now);
            SelectedNote(r) == Some(r.notes[0]) && SelectionValid(r)
  {
    var r := CreateNote(b, id, now);
    assert r.notes[0].id == id;
  }

  /** `notes.find(n => n.id === id)` */
  function FindNote(notes: seq<Note>, id: string): (r: Option<Note>)
    ensures r.None? <==> forall i :: 0 <= i < |notes| ==> notes[i].id != id
    ensures r.Some? ==> r.value in notes && r.value.id == id
  {
    var r := Seqs.Find((n: Note) => n.id == id, notes);
    if r.Some? then Seqs.FindFound((n: Note) => n.id == id, notes); r else r
  }

  /** shouldGenerateTitle: the note exists, the new content is longer than 50 characters,
      differs from the stored content and is not blank. */
  predicate ShouldGenerateTitle(notes: seq<Note>, id: string, content: string) {
    var note := FindNote(notes, id);
    note.Some? && |content| > 50 && content != note.value.content && Trim(content) != ""
  }

  /** The test in terms of the first note with the id: both directions of the condition. */
  lemma ShouldGenerateTitleIff(notes: seq<Note>, id: string, content: string)
    ensures ShouldGenerateTitle(notes, id, content) <==>
              (exists i :: 0 <= i < |notes| && notes[i].id == id) &&
              |content| > 50 && content != FindNote(notes, id).value.content && !AllWhitespace(content)
  {
    TrimEmptyIffBlank(content);
    if FindNote(notes, id).Some? {
      var i :| 0 <= i < |notes| && notes[i] == FindNote(notes, id).value;
    }
  }

  /** The first state update of updateNote: the matching notes get the content and a new stamp. */
  function WithContent(notes: seq<Note>, id: string, content: string, now: string): (r: seq<Note>)
    ensures |r| == |notes|
    ensures forall i :: 0 <= i < |notes| && notes[i].id == id ==>
              r[i] == notes[i].(content := content, updatedAt := now)
    ensures forall i :: 0 <= i < |notes| && notes[i].id != id ==> r[i] == notes[i]
  {
    Seqs.MapWhere(notes, (n: Note) => n.id == id, (n: Note) => n.(content := content, updatedAt := now))
  }

  /** The generated title and summary, as AI title generation returned them. */
  datatype Generated = Generated(title: string, summary: string)

  /** The second state update: the matching notes take the generated title and summary. */
  function WithGenerated(notes: seq<Note>, id: string, g: Generated): (r: seq<Note>)
    ensures |r| == |notes|
    ensures forall i :: 0 <= i < |notes| && notes[i].id == id ==>
              r[i] == notes[i].(title := g.title, summary := g.summary)
    ensures forall i :: 0 <= i < |notes| && notes[i].id != id ==> r[i] == notes[i]
  {
    Seqs.MapWhere(notes, (n: Note) => n.id == id, (n: Note) => n.(title := g.title, summary := g.summary))
  }

  /** updateNote(id, content) with nothing in between: the content update, then the generated
      title and summary when the test held and generation produced a result. */
  function UpdateNote(notes: seq<Note>, id: string, content: string, now: string, ai: Option<Generated>): (r: seq<Note>)
    ensures |r| == |notes|
    ensures forall i :: 0 <= i < |notes| && notes[i].id != id ==> r[i] == notes[i]
    ensures forall i :: 0 <= i < |notes| && notes[i].id == id ==>
              && r[i].content == content && r[i].updatedAt == now
              && r[i].id == notes[i].id && r[i].createdAt == notes[i].createdAt
              && (if ShouldGenerateTitle(notes, id, content) && ai.Some?
                  then r[i].title == ai.value.title && r[i].summary == ai.value.summary
                  else r[i].title == notes[i].title && r[i].summary == notes[i].summary)
  {
    var first := WithContent(notes, id, content, now);
    if ShouldGenerateTitle(notes, id, content) && ai.Some? then WithGenerated(first, id, ai.value) else first
  }

  /** Editing a note keeps the ids in order, so a valid selection stays valid. */
  lemma UpdateKeepsSelection(b: Notebook, id: string, content: string, now: string, ai: Option<Generated>)
    requires SelectionValid(b)
    ensures SelectionValid(Notebook(UpdateNote(b.notes, id, content, now, ai), b.selectedId))
  {
    var r := UpdateNote(b.notes, id, content, now, ai);
    if b.selectedId.Some? {
      var i :| 0 <= i < |b.notes| && b.notes[i].id == b.selectedId.value;
      assert r[i].id == b.notes[i].id;
    }
  }

  /** deleteNote(id): the note removed; when it was the selected one, the selection moves to
      the first remaining note, or to nothing when none remains. */
  function DeleteNote(b: Notebook, id: string): (r: Notebook)
    ensures forall n :: n in r.notes <==> n in b.notes && n.id != id
    ensures Seqs.IsSubseq(r.notes, b.notes)
    ensures b.selectedId != Some(id) ==> r.selectedId == b.selectedId
    ensures b.selectedId == Some(id) && r.notes != [] ==> r.selectedId == Some(r.notes[0].id)
    ensures b.selectedId == Some(id) && r.notes == [] ==> r.selectedId.None?
  {
    Seqs.FilterIsSubseq((n: Note) => n.id != id, b.notes);
    var remaining := Seqs.Filter((n: Note) => n.id != id, b.notes);
    var sel := if b.selectedId == Some(id) then (if |remaining| > 0 then Some(remaining[0].id) else None) else b.selectedId;
    Notebook(remaining, sel)
  }

  /** Deleting a note never leaves the selection on a note that is gone. */
  lemma DeleteKeepsSelectionValid(b: Notebook, id: string)
    requires SelectionValid(b)
    ensures SelectionValid(DeleteNote(b, id))
    ensures DeleteNote(b, id).selectedId != Some(id)
  {
    var r := DeleteNote(b, id);
    if r.selectedId.Some? {
      if b.selectedId == Some(id) {
        assert r.notes[0].id == r.selectedId.value;
      } else {
        var i :| 0 <= i < |b.notes| && b.notes[i].id == b.selectedId.value;
        assert b.notes[i] in r.notes;
        var j :| 0 <= j < |r.notes| && r.notes[j] == b.notes[i];
      }
    }
  }

  /** handleUpdateTodoList(updated): the list with the same id replaced, the others kept. */
  function UpdateTodoList(lists: seq<TodoList>, updated: TodoList): (r: seq<TodoList>)
    ensures |r| == |lists|
    ensures forall i :: 0 <= i < |lists| ==> r[i] == if lists[i].id == updated.id then updated else lists[i]
  {
    Seqs.MapWhere(lists, (l: TodoList) => l.id == updated.id, (l: TodoList) => updated)
  }

  /** handleCreateTodoList: a default list appended. */
  function CreateTodoListAt(lists: seq<TodoList>, id: string, now: string): (r: seq<TodoList>)
    ensures |r| == |lists| + 1 && r[..|lists|] == lists
    ensures r[|lists|] == CreateTodoList(None, id, now) && r[|lists|].title == DefaultListTitle
  {
    var l := CreateTodoList(None, id, now);
    assert (lists + [l])[..|lists|] == lists;
    lists + [l]
  }

  /** handleDeleteTodoList(id): the lists without that id, the others in order. */
  function DeleteTodoList(lists: seq<TodoList>, id: string): (r: seq<TodoList>)
    ensures forall l :: l in r <==> l in lists && l.id != id
    ensures Seqs.IsSubseq(r, lists)
  {
    Seqs.FilterIsSubseq((l: TodoList) => l.id != id, lists);
    Seqs.Filter((l: TodoList) => l.id != id, lists)
  }

  /** A list created and then deleted by its fresh id leaves the lists as they were. */
  lemma CreateThenDeleteRestores(lists: seq<TodoList>, id: string, now: string)
    requires forall i :: 0 <= i < |lists| ==> lists[i].id != id
    ensures DeleteTodoList(CreateTodoListAt(lists, id, now), id) == lists
  {
    var p := (l: TodoList) => l.id != id;
    var l := CreateTodoList(None, id, now);
    Seqs.FilterAppend(p, lists, [l]);
    Seqs.FilterKeepsAll(p, lists);
    assert Seqs.Filter(p, [l]) == [] by {
      assert [l][1..] == [];
    }
  }

  /** An item added in the per-note todo list, handed to handleUpdateTodoList, lands at the end
      of that list's items; every other list is untouched. */
  lemma AddedItemReachesItsList(lists: seq<TodoList>, k: nat, newItemText: string, noteId: string, id: string, now: string)
    requires k < |lists| && !AllWhitespace(newItemText)
    requires forall i :: 0 <= i < |lists| && i != k ==> lists[i].id != lists[k].id
    ensures var u := TodoListPanel.AddItem(Some(lists[k]), newItemText, noteId, id, now).update.value;
            var r := UpdateTodoList(lists, u);
            && |r| == |lists|
            && r[k].items == lists[k].items + [TodoItem(id, Trim(newItemText), false, now, now, Some(noteId))]
            && (forall i :: 0 <= i < |lists| && i != k ==> r[i] == lists[i])
  {
    var u := TodoListPanel.AddItem(Some(lists[k]), newItemText, noteId, id, now).update.value;
    assert u.items == u.items[..|lists[k].items|] + [u.items[|lists[k].items|]];
  }

  /** The mount effect: the page starts with no notes and nothing selected, takes the loaded
      notes and selects the first of them when there is one. */
  function InitialLoad(loadedNotes: seq<Note>): (b: Notebook)
    ensures b.notes == loadedNotes && SelectionValid(b)
    ensures b.selectedId.None? <==> loadedNotes == []
    ensures loadedNotes != [] ==> SelectedNote(b) == Some(loadedNotes[0])
  {
    var b := Notebook(loadedNotes, if |loadedNotes| > 0 then Some(loadedNotes[0].id) else None);
    assert loadedNotes != [] ==> b.notes[0].id == b.selectedId.value;
    b
  }

  /** The state handleDataRestored writes. */
  datatype Restored = Restored(book: Notebook, todoLists: seq<TodoList>)

  /** handleDataRestored(notes, todos): both lists replaced; the first restored note is
      selected when there is one, otherwise the selection is left as it was. */
  function DataRestored(b: Notebook, restoredNotes: seq<Note>, restoredTodos: seq<TodoList>): (r: Restored)
    ensures r.book.notes == restoredNotes && r.todoLists == restoredTodos
    ensures restoredNotes != [] ==> r.book.selectedId == Some(restoredNotes[0].id)
    ensures restoredNotes == [] ==> r.book.selectedId == b.selectedId
  {
    Restored(Notebook(restoredNotes, if |restoredNotes| > 0 then Some(restoredNotes[0].id) else b.selectedId),
             restoredTodos)
  }

  /** Restoring a non-empty set of notes shows the first of them. */
  lemma RestoredFirstNoteShown(b: Notebook, restoredNotes: seq<Note>, restoredTodos: seq<TodoList>)
    requires restoredNotes != []
    ensures var r := DataRestored(b, restoredNotes, restoredTodos).book;
            SelectionValid(r) && SelectedNote(r) == Some(restoredNotes[0])
  {
  }

  /** Restoring no notes keeps the previous selection, which then names no note: the page
      shows no note although an id is still selected. */
  lemma RestoringNoNotesKeepsStaleSelection(b: Notebook, restoredTodos: seq<TodoList>)
    requires b.selectedId.Some?
    ensures var r := DataRestored(b, [], restoredTodos).book;
            !SelectionValid(r) && SelectedNote(r).None? && r.selectedId == b.selectedId
  {
  }

  /** hasData: the page shows its data views when any notes, todo lists or projects exist. */
  function HasData(notes: seq<Note>, todoLists: seq<TodoList>, projects: seq<ProjectTypes.Project>): (r: bool)
    ensures r <==> |notes| > 0 || |todoLists| > 0 || |projects| > 0
    ensures !r ==> notes == [] && todoLists == [] && projects == []
  {
    |notes| > 0 || |todoLists| > 0 || |projects| > 0
  }
}
