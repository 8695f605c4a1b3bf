/** `renderTasks` and `createTaskElement` without the DOM: the pending and completed
    lists, their counts, the empty-state placeholder and the "(Late)" marker. */
module Render {
  import opened Wrappers
  import opened Seqs
  import opened Clock
  import opened Tasks

  /** What one task card shows. */
  datatype Card = Card(id: int, text: string, priority: Priority, checked: bool, late: bool)

  /** What one render shows: two card lists, two counters, and whether the pending list
      holds the empty-state placeholder. */
  datatype View = View(todo: seq<Card>, done: seq<Card>, todoCount: nat, doneCount: nat, emptyState: bool)

  /** `createTaskElement`: a card is marked late only when its task is pending, has a
      creation time, and that time is overdue at `now`. */
  function CardOf(t: Task, now: Instant): (c: Card)
    ensures c.id == t.id && c.text == t.text && c.priority == t.priority && c.checked == t.isDone
    ensures c.late <==> !t.isDone && t.createdAt.Some? && Day(t.createdAt.value) < Day(now)
  {
    match t.createdAt
    case None => Card(t.id, t.text, t.priority, t.isDone, false)
    case Some(created) =>
      Card(t.id, t.text, t.priority, t.isDone, !t.isDone && IsOverdue(created, now))
  }

  /** The cards of `tasks`, one per task, in order. */
  function Cards(tasks: seq<Task>, now: Instant): (cs: seq<Card>)
    ensures |cs| == |tasks|
    ensures forall i :: 0 <= i < |tasks| ==> cs[i] == CardOf(tasks[i], now)
  {
    seq(|tasks|, i requires 0 <= i < |tasks| => CardOf(tasks[i], now))
  }

  /** The tasks not yet done, in collection order. */
  function Pending(tasks: seq<Task>): seq<Task> {
    Filter(tasks, (t: Task) => !t.isDone)
  }

  /** The completed tasks, in collection order. */
  function Completed(tasks: seq<Task>): seq<Task> {
    Filter(tasks, (t: Task) => t.isDone)
  }

  /** The cards of a concatenation are the concatenated cards. */
  lemma CardsAppend(a: seq<Task>, b: seq<Task>, now: Instant)
    ensures Cards(a + b, now) == Cards(a, now) + Cards(b, now)
  {
  }

  /** Appending a task to the collection appends it to exactly one of the two sublists. */
  lemma FilterSnoc(tasks: seq<Task>, t: Task)
    ensures Pending(tasks + [t]) == Pending(tasks) + (if t.isDone then [] else [t])
    ensures Completed(tasks + [t]) == Completed(tasks) + (if t.isDone then [t] else [])
  {
    FilterConcat(tasks, [t], (t: Task) => !t.isDone);
    FilterConcat(tasks, [t], (t: Task) => t.isDone);
    assert [t][1..] == [];
  }

  /** Appending a task to the collection appends its card to exactly one of the two lists. */
  lemma PartitionSnoc(tasks: seq<Task>, t: Task, now: Instant)
    ensures Cards(Pending(tasks + [t]), now)
      == Cards(Pending(tasks), now) + (if t.isDone then [] else [CardOf(t, now)])
    ensures Cards(Completed(tasks + [t]), now)
      == Cards(Completed(tasks), now) + (if t.isDone then [CardOf(t, now)] else [])
  {
    FilterSnoc(tasks, t);
    CardsAppend(Pending(tasks), [t], now);
    CardsAppend(Completed(tasks), [t], now);
    CardsAppend(Pending(tasks), [], now);
    CardsAppend(Completed(tasks), [], now);
    assert Cards([t], now) == [CardOf(t, now)];
    assert Pending(tasks) + [] == Pending(tasks);
    assert Completed(tasks) + [] == Completed(tasks);
  }

  /** The two lists share the collection out between them: their sizes add up to its size,
      and the pending list is empty exactly when every task is done. */
  lemma PartitionCovers(tasks: seq<Task>)
    ensures |Pending(tasks)| + |Completed(tasks)| == |tasks|
    ensures |Pending(tasks)| == 0 <==> forall i :: 0 <= i < |tasks| ==> tasks[i].isDone
    ensures forall i :: 0 <= i < |Completed(tasks)| ==> Completed(tasks)[i].isDone
    ensures forall i :: 0 <= i < |Pending(tasks)| ==> !Pending(tasks)[i].isDone
  {
    FilterSplitLength(tasks, (t: Task) => t.isDone, (t: Task) => !t.isDone);
    FilterKeepsAll(tasks, (t: Task) => t.isDone);
  }

  /** `renderTasks`: one pass over the collection, appending each card to the list its
      completion flag selects and counting both lists. */
  method RenderTasks(tasks: seq<Task>, now: Instant) returns (v: View)
    ensures v.todo == Cards(Pending(tasks), now) && v.done == Cards(Completed(tasks), now)
    ensures v.todoCount == |Pending(tasks)| && v.doneCount == |Completed(tasks)|
    ensures v.todoCount + v.doneCount == |tasks|
    ensures v.emptyState <==> v.todoCount == 0
    ensures v.emptyState <==> forall i :: 0 <= i < |tasks| ==> tasks[i].isDone
    ensures forall i :: 0 <= i < |v.done| ==> v.done[i].checked && !v.done[i].late
    ensures forall i :: 0 <= i < |v.todo| ==> !v.todo[i].checked
  {
    var todo, done := [], [];
    var todoCount, doneCount := 0, 0;
    for k := 0 to |tasks|
      invariant todo == Cards(Pending(tasks[..k]), now)
      invariant done == Cards(Completed(tasks[..k]), now)
      invariant todoCount == |todo| && doneCount == |done|
    {
      var t := tasks[k];
      assert tasks[..k + 1] == tasks[..k] + [t];
      PartitionSnoc(tasks[..k], t, now);
      if t.isDone {
        done := done + [CardOf(t, now)];
        doneCount := doneCount + 1;
      } else {
        todo := todo + [CardOf(t, now)];
        todoCount := todoCount + 1;
      }
    }
    assert tasks[..|tasks|] == tasks;
    PartitionCovers(tasks);
    v := View(todo, done, todoCount, doneCount, todoCount == 0);
  }

  /** A completed task is never shown late, however old it is; a pending one created on
      2023-01-01 (day 19358) is late on 2023-01-05. */
  lemma DoneNeverLate(t: Task, now: Instant)
    ensures t.isDone ==> !CardOf(t, now).late
    ensures !t.isDone && t.createdAt == Some(19358 * MsPerDay) ==> CardOf(t, 19362 * MsPerDay).late
  {
  }
}
