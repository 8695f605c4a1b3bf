/** The task collection and its four mutations: add, toggle, delete and delete-all. */
module Tasks {
  import opened Wrappers
  import opened Seqs
  import opened Text
  import opened Clock

  datatype Priority = Low | Medium | High

  /** One to-do item. `createdAt` is absent when a stored record lacks it. */
  datatype Task = Task(id: int, text: string, priority: Priority, isDone: bool, createdAt: Option<Instant>)

  const EmptyTaskAlert: string := "Please write something before adding!"

  /** Some task in `tasks` carries `id`. */
  predicate HasId(tasks: seq<Task>, id: int) {
    exists i :: 0 <= i < |tasks| && tasks[i].id == id
  }

  /** `i` is the first position whose task carries `id`. */
  predicate IsFirstMatch(tasks: seq<Task>, id: int, i: int) {
    && 0 <= i < |tasks|
    && tasks[i].id == id
    && forall j :: 0 <= j < i ==> tasks[j].id != id
  }

  /** No two tasks share an identifier. */
  predicate UniqueIds(tasks: seq<Task>) {
    forall i, j :: 0 <= i < j < |tasks| ==> tasks[i].id != tasks[j].id
  }

  /** `addTask`: trim the input, reject it when nothing is left, otherwise put a new pending
      task at the front. `id` and `createdAt` are the clock readings of the call. */
  function AddTask(tasks: seq<Task>, input: string, selected: Option<Priority>, id: int, createdAt: Instant)
    : (r: Result<seq<Task>, string>)
    ensures r.Failure? <==> AllWhitespace(input)
    ensures r.Failure? ==> r.error == EmptyTaskAlert
    ensures r.Success? ==>
      && |r.value| == |tasks| + 1
      && r.value[1..] == tasks
      && r.value[0].id == id
      && r.value[0].text == Trim(input) && r.value[0].text != []
      && r.value[0].priority == (if selected.Some? then selected.value else Low)
      && !r.value[0].isDone
      && r.value[0].createdAt == Some(createdAt)
  {
    var text := Trim(input);
    if text == [] then Failure(EmptyTaskAlert)
    else Success([Task(id, text, selected.GetOr(Low), false, Some(createdAt))] + tasks)
  }

  /** `findIndex`: the position of the first task carrying `id`, if any. */
  function FirstIndexOf(tasks: seq<Task>, id: int): (r: Option<nat>)
    ensures r.Some? ==> IsFirstMatch(tasks, id, r.value)
    ensures r.None? <==> !HasId(tasks, id)
    decreases |tasks|
  {
    if tasks == [] then None
    else if tasks[0].id == id then Some(0)
    else match FirstIndexOf(tasks[1..], id)
      case None => None
      case Some(i) => Some(i + 1)
  }

  /** The same task with its completion flag inverted. */
  function Flip(t: Task): Task {
    t.(isDone := !t.isDone)
  }

  /** `toggleTask`: flip `isDone` of the first task carrying `id`; no match changes nothing. */
  function ToggleTask(tasks: seq<Task>, id: int): (r: seq<Task>)
    ensures |r| == |tasks|
    ensures forall i :: 0 <= i < |tasks| ==>
      r[i] == (if IsFirstMatch(tasks, id, i) then tasks[i].(isDone := !tasks[i].isDone) else tasks[i])
    ensures !HasId(tasks, id) ==> r == tasks
  {
    match FirstIndexOf(tasks, id)
    case None => tasks
    case Some(i) => tasks[i := Flip(tasks[i])]
  }

  /** The tasks that do not carry `id`, in their original order. */
  function WithoutId(tasks: seq<Task>, id: int): seq<Task> {
    Filter(tasks, (t: Task) => t.id != id)
  }

  /** `deleteTask`: once confirmed, drop every task carrying `id`. */
  function DeleteTask(tasks: seq<Task>, id: int, confirmed: bool): (r: seq<Task>)
    ensures !confirmed ==> r == tasks
    ensures confirmed ==> !HasId(r, id)
    ensures confirmed ==> forall i :: 0 <= i < |tasks| && tasks[i].id != id ==> tasks[i] in r
    ensures forall i :: 0 <= i < |r| ==> r[i] in tasks
  {
    if confirmed then WithoutId(tasks, id) else tasks
  }

  /** `deleteAll`: an empty list is left alone; otherwise it is cleared once confirmed. */
  function DeleteAll(tasks: seq<Task>, confirmed: bool): (r: seq<Task>)
    ensures r == [] <==> tasks == [] || confirmed
    ensures r != [] ==> r == tasks
  {
    if |tasks| == 0 then tasks
    else if confirmed then []
    else tasks
  }

  /** Toggling the same id twice restores the collection. */
  lemma ToggleTwice(tasks: seq<Task>, id: int)
    ensures ToggleTask(ToggleTask(tasks, id), id) == tasks
  {
  }

  /** Toggling touches nothing but the completion flag: ids, text, priority and creation
      time stay put at every position. */
  lemma ToggleKeepsFields(tasks: seq<Task>, id: int)
    ensures var r := ToggleTask(tasks, id);
      forall i :: 0 <= i < |tasks| ==>
        && r[i].id == tasks[i].id && r[i].text == tasks[i].text
        && r[i].priority == tasks[i].priority && r[i].createdAt == tasks[i].createdAt
  {
  }

  /** When ids are unique, toggling flips exactly the tasks carrying `id`. */
  lemma ToggleWithUniqueIds(tasks: seq<Task>, id: int)
    requires UniqueIds(tasks)
    ensures var r := ToggleTask(tasks, id);
      forall i :: 0 <= i < |tasks| ==> (r[i].isDone != tasks[i].isDone <==> tasks[i].id == id)
  {
  }

  /** The result of a confirmed delete is exactly the order-preserving filter: appending to
      the collection appends to the result. */
  lemma DeleteKeepsOrder(a: seq<Task>, b: seq<Task>, id: int)
    ensures DeleteTask(a + b, id, true) == DeleteTask(a, id, true) + DeleteTask(b, id, true)
  {
    FilterConcat(a, b, (t: Task) => t.id != id);
  }

  /** A confirmed delete of a single task removes it exactly when it carries `id`; with
      `DeleteKeepsOrder` this pins the result down for every collection. */
  lemma DeleteSingle(t: Task, id: int)
    ensures DeleteTask([t], id, true) == if t.id == id then [] else [t]
  {
  }

  /** A confirmed delete changes nothing exactly when no task carries `id`. */
  lemma DeleteNoopIffAbsent(tasks: seq<Task>, id: int)
    ensures DeleteTask(tasks, id, true) == tasks <==> !HasId(tasks, id)
  {
    FilterKeepsAll(tasks, (t: Task) => t.id != id);
  }

  /** After a confirmed delete of `id`, deleting or toggling `id` again changes nothing. */
  lemma DeleteThenRepeat(tasks: seq<Task>, id: int, confirmed: bool)
    ensures var r := DeleteTask(tasks, id, true);
      DeleteTask(r, id, confirmed) == r && ToggleTask(r, id) == r
  {
    DeleteNoopIffAbsent(DeleteTask(tasks, id, true), id);
  }

  /** A task put in front of a list with unique ids keeps them unique when its id is new. */
  lemma ConsKeepsUniqueIds(t: Task, rest: seq<Task>)
    requires UniqueIds(rest)
    requires forall j :: 0 <= j < |rest| ==> rest[j].id != t.id
    ensures UniqueIds([t] + rest)
  {
  }

  /** Filtering keeps identifiers unique. */
  lemma {:induction false} FilterKeepsUniqueIds(tasks: seq<Task>, p: Task -> bool)
    requires UniqueIds(tasks)
    ensures UniqueIds(Filter(tasks, p))
    decreases |tasks|
  {
    if tasks != [] {
      var tail := tasks[1..];
      var rest := Filter(tail, p);
      assert UniqueIds(tail) by {
        forall i, j | 0 <= i < j < |tail|
          ensures tail[i].id != tail[j].id
        {
          assert tail[i] == tasks[i + 1] && tail[j] == tasks[j + 1];
        }
      }
      FilterKeepsUniqueIds(tail, p);
      if p(tasks[0]) {
        forall j | 0 <= j < |rest|
          ensures rest[j].id != tasks[0].id
        {
          assert rest[j] in tail;
          var k :| 0 <= k < |tail| && tail[k] == rest[j];
          assert tail[k] == tasks[k + 1];
        }
        ConsKeepsUniqueIds(tasks[0], rest);
        assert Filter(tasks, p) == [tasks[0]] + rest;
      } else {
        assert Filter(tasks, p) == [] + rest == rest;
      }
    }
  }

  /** Adding a task whose id is not in use keeps identifiers unique. */
  lemma AddKeepsUniqueIds(tasks: seq<Task>, input: string, selected: Option<Priority>,
                          id: int, createdAt: Instant)
    requires UniqueIds(tasks) && !HasId(tasks, id)
    ensures AddTask(tasks, input, selected, id, createdAt).Success? ==>
      UniqueIds(AddTask(tasks, input, selected, id, createdAt).value)
  {
  }

  /** Toggling, deleting and clearing keep identifiers unique. */
  lemma RemovalsKeepUniqueIds(tasks: seq<Task>, id: int, confirmed: bool)
    requires UniqueIds(tasks)
    ensures UniqueIds(ToggleTask(tasks, id))
    ensures UniqueIds(DeleteTask(tasks, id, confirmed))
    ensures UniqueIds(DeleteAll(tasks, confirmed))
  {
    FilterKeepsUniqueIds(tasks, (t: Task) => t.id != id);
  }

  /** The clock-derived id can collide. With two tasks sharing an id, toggling flips only
      the first while deleting removes both. */
  lemma CollidingIds(a: Task, b: Task, id: int)
    requires a.id == id && b.id == id
    ensures ToggleTask([a, b], id) == [Flip(a), b]
    ensures DeleteTask([a, b], id, true) == []
  {
    assert IsFirstMatch([a, b], id, 0);
    assert [a, b][1..] == [b] && [b][1..] == [];
    assert WithoutId([b], id) == [];
  }
}
