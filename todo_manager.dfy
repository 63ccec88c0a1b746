/** The multi-list todo manager (ai-notebook-github-upload/components/todo-manager.tsx).
    Every handler looks its list up by id and hands one updated list to onUpdateTodoList, or
    returns early; a handler is modelled as the list it hands over, None for the early return. */
module TodoManager {
  import opened Wrappers
  import opened Text
  import opened TodoTypes
  import Seqs

  /** `todoLists.find(list => list.id === listId)` */
  function FindList(lists: seq<TodoList>, listId: string): (r: Option<TodoList>)
    ensures r.None? <==> forall i :: 0 <= i < |lists| ==> lists[i].id != listId
    ensures r.Some? ==> r.value in lists && r.value.id == listId
    ensures r.Some? ==> exists i :: 0 <= i < |lists| && lists[i] == r.value && forall k :: 0 <= k < i ==> lists[k].id != listId
  {
    var r := Seqs.Find((l: TodoList) => l.id == listId, lists);
    if r.Some? then Seqs.FindFound((l: TodoList) => l.id == listId, lists); r else r
  }

  /** handleToggleItem(listId, itemId): the list with the matching items' completed flipped. */
  function ToggleItem(lists: seq<TodoList>, listId: string, itemId: string, now: string): (r: Option<TodoList>)
    ensures r.None? <==> forall i :: 0 <= i < |lists| ==> lists[i].id != listId
    ensures r.Some? ==> var l := FindList(lists, listId).value;
              r.value == l.(items := ToggledItems(l.items, itemId, now), updatedAt := now)
  {
    match FindList(lists, listId)
    case None => None
    case Some(l) => Some(l.(items := ToggledItems(l.items, itemId, now), updatedAt := now))
  }

  /** handleDeleteItem(listId, itemId): the list without the items with that id. */
  function DeleteItem(lists: seq<TodoList>, listId: string, itemId: string, now: string): (r: Option<TodoList>)
    ensures r.None? <==> forall i :: 0 <= i < |lists| ==> lists[i].id != listId
    ensures r.Some? ==> var l := FindList(lists, listId).value;
              r.value == l.(items := WithoutItem(l.items, itemId), updatedAt := now)
  {
    match FindList(lists, listId)
    case None => None
    case Some(l) => Some(l.(items := WithoutItem(l.items, itemId), updatedAt := now))
  }

  /** handleSaveEdit(listId, itemId): the matching items get the text being edited, and
      editing ends; nothing at all happens for an unknown list. */
  function SaveEdit(lists: seq<TodoList>, listId: string, itemId: string, editing: Editing, now: string): (r: SaveOutcome)
    ensures r.update.None? <==> forall i :: 0 <= i < |lists| ==> lists[i].id != listId
    ensures r.update.None? ==> r.editing == editing
    ensures r.update.Some? ==> r.editing == NotEditing
    ensures r.update.Some? ==> var l := FindList(lists, listId).value;
              r.update.value == l.(items := EditedItems(l.items, itemId, editing.text, now), updatedAt := now)
  {
    match FindList(lists, listId)
    case None => SaveOutcome(None, editing)
    case Some(l) => SaveOutcome(Some(l.(items := EditedItems(l.items, itemId, editing.text, now), updatedAt := now)), NotEditing)
  }

  /** What handleAddItem does: the list handed over and the per-list input texts afterwards. */
  datatype AddOutcome = AddOutcome(update: Option<TodoList>, newItemTexts: map<string, string>)

  /** `newItemTexts[listId]?.trim()` is truthy: there is an input for the list and it is not blank. */
  predicate HasText(newItemTexts: map<string, string>, listId: string) {
    listId in newItemTexts && Trim(newItemTexts[listId]) != ""
  }

  /** handleAddItem(listId): with a non-blank input and a known list, the list with one new
      item appended and that list's input cleared; otherwise nothing. */
  function AddItem(lists: seq<TodoList>, newItemTexts: map<string, string>, listId: string, id: string, now: string): (r: AddOutcome)
    ensures r.update.None? <==> !HasText(newItemTexts, listId) || forall i :: 0 <= i < |lists| ==> lists[i].id != listId
    ensures r.update.None? ==> r.newItemTexts == newItemTexts
    ensures r.update.Some? ==>
              var l := FindList(lists, listId).value;
              var u := r.update.value;
              && u.(items := l.items, updatedAt := l.updatedAt) == l
              && u.updatedAt == now
              && |u.items| == |l.items| + 1
              && u.items[..|l.items|] == l.items
              && u.items[|l.items|] == CreateTodoItem(Trim(newItemTexts[listId]), listId, id, now)
              && r.newItemTexts == newItemTexts[listId := ""]
  {
    if !HasText(newItemTexts, listId) then AddOutcome(None, newItemTexts)
    else
      match FindList(lists, listId)
      case None => AddOutcome(None, newItemTexts)
      case Some(l) =>
        var item := CreateTodoItem(Trim(newItemTexts[listId]), listId, id, now);
        assert (l.items + [item])[..|l.items|] == l.items;
        AddOutcome(Some(l.(items := l.items + [item], updatedAt := now)), newItemTexts[listId := ""])
  }

  /** An added item is non-blank, pending and shows last in the pending section. */
  lemma AddedItemIsLastPending(lists: seq<TodoList>, newItemTexts: map<string, string>, listId: string, id: string, now: string)
    requires AddItem(lists, newItemTexts, listId, id, now).update.Some?
    ensures var l := FindList(lists, listId).value;
            var u := AddItem(lists, newItemTexts, listId, id, now).update.value;
            && PendingItems(u.items) == PendingItems(l.items) + [u.items[|l.items|]]
            && CompletedItems(u.items) == CompletedItems(l.items)
            && u.items[|l.items|].text != ""
  {
    var l := FindList(lists, listId).value;
    var u := AddItem(lists, newItemTexts, listId, id, now).update.value;
    assert u.items == l.items + [u.items[|l.items|]];
    AppendedItemSection(l.items, u.items[|l.items|]);
  }

  /** handleSaveListTitle(listId): the list retitled with the title being edited, and editing
      ends; nothing at all happens for an unknown list. */
  function SaveListTitle(lists: seq<TodoList>, listId: string, editing: Editing, now: string): (r: SaveOutcome)
    ensures r.update.None? <==> forall i :: 0 <= i < |lists| ==> lists[i].id != listId
    ensures r.update.None? ==> r.editing == editing
    ensures r.update.Some? ==> r.editing == NotEditing
    ensures r.update.Some? ==> var l := FindList(lists, listId).value;
              && r.update.value.title == editing.text
              && r.update.value.items == l.items
              && r.update.value.updatedAt == now
              && r.update.value.(title := l.title, updatedAt := l.updatedAt) == l
  {
    match FindList(lists, listId)
    case None => SaveOutcome(None, editing)
    case Some(l) => SaveOutcome(Some(l.(title := editing.text, updatedAt := now)), NotEditing)
  }
}
