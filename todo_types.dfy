/** Todo lists and their items (ai-notebook/types/todo.ts), and the item-list updates that
    both todo components perform the same way: toggle, delete and edit by id, and the
    pending / completed split. */
module TodoTypes {
  import opened Wrappers
  import Seqs

  /** An item. `noteId` is the note tag that the per-note list attaches to new items; items
      made by createTodoItem carry none. */
  datatype TodoItem = TodoItem(id: string, text: string, completed: bool, createdAt: string, updatedAt: string,
                               noteId: Option<string>)

  datatype TodoList = TodoList(id: string, title: string, items: seq<TodoItem>, createdAt: string, updatedAt: string)

  /** Default title of createTodoList. */
  const DefaultListTitle: string := "待办事项"

  /** createTodoList(title): a fresh empty list; `title` None stands for the omitted argument. */
  function CreateTodoList(title: Option<string>, id: string, now: string): (l: TodoList)
    ensures l.id == id && l.items == [] && l.createdAt == now && l.updatedAt == now
    ensures l.title == if title.Some? then title.value else DefaultListTitle
  {
    TodoList(id, title.GetOr(DefaultListTitle), [], now, now)
  }

  /** createTodoItem(text, listId): a fresh uncompleted item; the list id is not recorded. */
  function CreateTodoItem(text: string, listId: string, id: string, now: string): (it: TodoItem)
    ensures it.id == id && it.text == text && !it.completed && it.noteId.None?
    ensures it.createdAt == now && it.updatedAt == now
  {
    TodoItem(id, text, false, now, now, None)
  }

  /** `items.map(item => item.id === itemId ? {...item, completed: !item.completed, updatedAt} : item)` */
  function ToggledItems(items: seq<TodoItem>, itemId: string, now: string): (r: seq<TodoItem>)
    ensures |r| == |items|
    ensures forall i :: 0 <= i < |items| && items[i].id == itemId ==>
              r[i].completed == !items[i].completed && r[i].updatedAt == now &&
              r[i].(completed := items[i].completed, updatedAt := items[i].updatedAt) == items[i]
    ensures forall i :: 0 <= i < |items| && items[i].id != itemId ==> r[i] == items[i]
  {
    Seqs.MapWhere(items, (it: TodoItem) => it.id == itemId, (it: TodoItem) => it.(completed := !it.completed, updatedAt := now))
  }

  /** Toggling the same item twice restores every item apart from its updatedAt stamp. */
  lemma ToggleTwiceRestores(items: seq<TodoItem>, itemId: string, now1: string, now2: string)
    ensures var r := ToggledItems(ToggledItems(items, itemId, now1), itemId, now2);
            |r| == |items| &&
            forall i :: 0 <= i < |items| ==> r[i].(updatedAt := items[i].updatedAt) == items[i]
  {
    var once := ToggledItems(items, itemId, now1);
    var r := ToggledItems(once, itemId, now2);
    forall i | 0 <= i < |items| ensures r[i].(updatedAt := items[i].updatedAt) == items[i] {
      assert once[i].id == items[i].id;
    }
  }

  /** `items.filter(item => item.id !== itemId)` */
  function WithoutItem(items: seq<TodoItem>, itemId: string): (r: seq<TodoItem>)
    ensures forall it :: it in r <==> it in items && it.id != itemId
    ensures Seqs.IsSubseq(r, items)
  {
    Seqs.FilterIsSubseq((it: TodoItem) => it.id != itemId, items);
    Seqs.Filter((it: TodoItem) => it.id != itemId, items)
  }

  /** Deleting an id a second time changes nothing. */
  lemma DeleteIdempotent(items: seq<TodoItem>, itemId: string)
    ensures WithoutItem(WithoutItem(items, itemId), itemId) == WithoutItem(items, itemId)
  {
    var p := (it: TodoItem) => it.id != itemId;
    Seqs.FilterKeepsAll(p, Seqs.Filter(p, items));
  }

  /** Deleting an id that no item has keeps the list as it is. */
  lemma DeleteAbsentNoop(items: seq<TodoItem>, itemId: string)
    requires forall i :: 0 <= i < |items| ==> items[i].id != itemId
    ensures WithoutItem(items, itemId) == items
  {
    Seqs.FilterKeepsAll((it: TodoItem) => it.id != itemId, items);
  }

  /** `items.map(item => item.id === itemId ? {...item, text, updatedAt} : item)` */
  function EditedItems(items: seq<TodoItem>, itemId: string, text: string, now: string): (r: seq<TodoItem>)
    ensures |r| == |items|
    ensures forall i :: 0 <= i < |items| && items[i].id == itemId ==>
              r[i].text == text && r[i].updatedAt == now &&
              r[i].(text := items[i].text, updatedAt := items[i].updatedAt) == items[i]
    ensures forall i :: 0 <= i < |items| && items[i].id != itemId ==> r[i] == items[i]
  {
    Seqs.MapWhere(items, (it: TodoItem) => it.id == itemId, (it: TodoItem) => it.(text := text, updatedAt := now))
  }

  /** Saving an edit twice is saving it once, up to the updatedAt stamps. */
  lemma EditTwiceIsEditOnce(items: seq<TodoItem>, itemId: string, text: string, now1: string, now2: string)
    ensures EditedItems(EditedItems(items, itemId, text, now1), itemId, text, now2) == EditedItems(items, itemId, text, now2)
  {
    var once := EditedItems(items, itemId, text, now1);
    var a := EditedItems(once, itemId, text, now2);
    var b := EditedItems(items, itemId, text, now2);
    forall i | 0 <= i < |items| ensures a[i] == b[i] {
      assert once[i].id == items[i].id;
    }
  }

  /** `items.filter(item => !item.completed)` */
  function PendingItems(items: seq<TodoItem>): (r: seq<TodoItem>)
    ensures forall it :: it in r <==> it in items && !it.completed
    ensures Seqs.IsSubseq(r, items)
  {
    Seqs.FilterIsSubseq((it: TodoItem) => !it.completed, items);
    Seqs.Filter((it: TodoItem) => !it.completed, items)
  }

  /** `items.filter(item => item.completed)` */
  function CompletedItems(items: seq<TodoItem>): (r: seq<TodoItem>)
    ensures forall it :: it in r <==> it in items && it.completed
    ensures Seqs.IsSubseq(r, items)
  {
    Seqs.FilterIsSubseq((it: TodoItem) => it.completed, items);
    Seqs.Filter((it: TodoItem) => it.completed, items)
  }

  /** The two sections hold every item exactly as often as the list does, so each item shows
      once, and the two counts add up to the total. */
  lemma PendingCompletedPartition(items: seq<TodoItem>)
    ensures multiset(PendingItems(items)) + multiset(CompletedItems(items)) == multiset(items)
    ensures |PendingItems(items)| + |CompletedItems(items)| == |items|
    ensures forall it :: !(it in PendingItems(items) && it in CompletedItems(items))
  {
    Seqs.FilterPartition((it: TodoItem) => !it.completed, (it: TodoItem) => it.completed, items);
  }

  /** An item added at the end lands at the end of the matching section. */
  lemma AppendedItemSection(items: seq<TodoItem>, it: TodoItem)
    ensures !it.completed ==> PendingItems(items + [it]) == PendingItems(items) + [it]
    ensures !it.completed ==> CompletedItems(items + [it]) == CompletedItems(items)
    ensures it.completed ==> CompletedItems(items + [it]) == CompletedItems(items) + [it]
  {
    var pending := (x: TodoItem) => !x.completed;
    var done := (x: TodoItem) => x.completed;
    Seqs.FilterAppend(pending, items, [it]);
    Seqs.FilterAppend(done, items, [it]);
    assert [it][1..] == [];
    assert Seqs.Filter(pending, [it]) == if it.completed then [] else [it];
    assert Seqs.Filter(done, [it]) == if it.completed then [it] else [];
  }

  /** Toggling the one item with `itemId` moves it between the sections: the completed count
      goes up by one when it was pending and down by one when it was completed. */
  lemma {:induction false} ToggleMovesOneItem(items: seq<TodoItem>, itemId: string, k: nat, now: string)
    requires k < |items| && items[k].id == itemId
    requires forall i :: 0 <= i < |items| && i != k ==> items[i].id != itemId
    ensures var r := ToggledItems(items, itemId, now);
            |CompletedItems(r)| == if items[k].completed then |CompletedItems(items)| - 1 else |CompletedItems(items)| + 1
  {
    var r := ToggledItems(items, itemId, now);
    var rest := ToggledItems(items[1..], itemId, now);
    assert r == [r[0]] + rest;
    assert items == [items[0]] + items[1..];
    if k == 0 {
      assert rest == items[1..];
    } else {
      assert r[0] == items[0];
      ToggleMovesOneItem(items[1..], itemId, k - 1, now);
    }
  }

  /** The in-progress edit of a component: the id being edited (null when none) and the
      text in the input. */
  datatype Editing = Editing(target: Option<string>, text: string)

  /** Nothing is being edited and the input is empty. */
  const NotEditing: Editing := Editing(None, "")

  /** What a save handler does: the list handed to onUpdateTodoList (None when it returns
      early) and the editing state afterwards. */
  datatype SaveOutcome = SaveOutcome(update: Option<TodoList>, editing: Editing)
}
