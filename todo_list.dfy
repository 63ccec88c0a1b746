/** The per-note todo list (ai-notebook/components/todo-list.tsx). The component receives a
    list or null; each handler hands one updated list to onUpdateTodoList, or returns early,
    and is modelled as the list it hands over, None for the early return. */
module TodoListPanel {
  import opened Wrappers
  import opened Text
  import opened TodoTypes

  /** What handleAddItem does: the list handed over and the input text afterwards. */
  datatype AddOutcome = AddOutcome(update: Option<TodoList>, newItemText: string)

  /** handleAddItem: with a list and a non-blank input, one uncompleted item holding the
      trimmed text and tagged with the note's id is appended and the input is cleared;
      otherwise nothing happens. */
  function AddItem(todoList: Option<TodoList>, newItemText: string, noteId: string, id: string, now: string): (r: AddOutcome)
    ensures r.update.None? <==> todoList.None? || AllWhitespace(newItemText)
    ensures r.update.None? ==> r.newItemText == newItemText
    ensures r.update.Some? ==>
              var l := todoList.value;
              var u := r.update.value;
              && u.(items := l.items, updatedAt := l.updatedAt) == l
              && u.updatedAt == now
              && |u.items| == |l.items| + 1
              && u.items[..|l.items|] == l.items
              && u.items[|l.items|] == TodoItem(id, Trim(newItemText), false, now, now, Some(noteId))
              && r.newItemText == ""
  {
    TrimEmptyIffBlank(newItemText);
    if todoList.None? || Trim(newItemText) == "" then AddOutcome(None, newItemText)
    else
      var l := todoList.value;
      var item := TodoItem(id, Trim(newItemText), false, now, now, Some(noteId));
      assert (l.items + [item])[..|l.items|] == l.items;
      AddOutcome(Some(l.(items := l.items + [item], updatedAt := now)), "")
  }

  /** Adding an item raises the pending count by one and leaves the completed count. */
  lemma AddRaisesPendingCount(todoList: Option<TodoList>, newItemText: string, noteId: string, id: string, now: string)
    requires todoList.Some? && !AllWhitespace(newItemText)
    ensures var u := AddItem(todoList, newItemText, noteId, id, now).update.value;
            && |PendingItems(u.items)| == |PendingItems(todoList.value.items)| + 1
            && |CompletedItems(u.items)| == |CompletedItems(todoList.value.items)|
            && u.items[|u.items| - 1].text != ""
  {
    var l := todoList.value;
    var u := AddItem(todoList, newItemText, noteId, id, now).update.value;
    assert u.items == l.items + [u.items[|l.items|]];
    AppendedItemSection(l.items, u.items[|l.items|]);
    TrimEmptyIffBlank(newItemText);
  }

  /** handleToggleItem(itemId) */
  function ToggleItem(todoList: Option<TodoList>, itemId: string, now: string): (r: Option<TodoList>)
    ensures r.None? <==> todoList.None?
    ensures r.Some? ==> r.value == todoList.value.(items := ToggledItems(todoList.value.items, itemId, now), updatedAt := now)
  {
    match todoList
    case None => None
    case Some(l) => Some(l.(items := ToggledItems(l.items, itemId, now), updatedAt := now))
  }

  /** handleDeleteItem(itemId) */
  function DeleteItem(todoList: Option<TodoList>, itemId: string, now: string): (r: Option<TodoList>)
    ensures r.None? <==> todoList.None?
    ensures r.Some? ==> r.value == todoList.value.(items := WithoutItem(todoList.value.items, itemId), updatedAt := now)
  {
    match todoList
    case None => None
    case Some(l) => Some(l.(items := WithoutItem(l.items, itemId), updatedAt := now))
  }

  /** handleSaveEdit: without a list or without an item being edited (a null or empty id)
      nothing happens; otherwise that item gets the edited text and editing ends. */
  function SaveEdit(todoList: Option<TodoList>, editing: Editing, now: string): (r: SaveOutcome)
    ensures r.update.None? <==> todoList.None? || !Truthy(editing.target)
    ensures r.update.None? ==> r.editing == editing
    ensures r.update.Some? ==> r.editing == NotEditing
    ensures r.update.Some? ==>
              r.update.value == todoList.value.(items := EditedItems(todoList.value.items, editing.target.value, editing.text, now),
                                                updatedAt := now)
  {
    if todoList.None? || !Truthy(editing.target) then SaveOutcome(None, editing)
    else
      var l := todoList.value;
      SaveOutcome(Some(l.(items := EditedItems(l.items, editing.target.value, editing.text, now), updatedAt := now)), NotEditing)
  }

  /** The header counts: pending, completed and total. */
  datatype Counts = Counts(pending: nat, completed: nat, total: nat)

  /** pendingItems.length, completedItems.length and totalCount of the shown list. */
  function ListCounts(l: TodoList): (c: Counts)
    ensures c.pending + c.completed == c.total
    ensures c.total == |l.items|
    ensures c.completed == |CompletedItems(l.items)| && c.pending == |PendingItems(l.items)|
  {
    PendingCompletedPartition(l.items);
    Counts(|PendingItems(l.items)|, |CompletedItems(l.items)|, |l.items|)
  }

  /** Toggling the single item with a given id moves one item between the two counts and
      keeps the total. */
  lemma ToggleMovesCount(l: TodoList, k: nat, now: string)
    requires k < |l.items|
    requires forall i :: 0 <= i < |l.items| && i != k ==> l.items[i].id != l.items[k].id
    ensures var c := ListCounts(l);
            var c' := ListCounts(ToggleItem(Some(l), l.items[k].id, now).value);
            && c'.total == c.total
            && c'.completed == (if l.items[k].completed then c.completed - 1 else c.completed + 1)
  {
    ToggleMovesOneItem(l.items, l.items[k].id, k, now);
  }
}
