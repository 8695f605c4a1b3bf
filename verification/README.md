# To-do list: a Dafny model of the task-list state machine

This project models the logic of a single-page to-do list (`frontend/script.js`). The page
keeps a personal profile (name, job) and an ordered list of tasks. Each task has an id, a
text, a priority, a completion flag and a creation time. Users add, toggle and delete tasks,
clear the whole list, and edit the profile. After every change the page writes the whole
collection to local storage and redraws the pending and completed lists.

The DOM, `localStorage`, `Date`, `alert` and `confirm` are taken out. What remains is pure
functions over immutable values:

- `Wrappers`: `Option` and `Result`. A rejected operation returns `Failure` carrying the
  alert text the page would show.
- `Seqs`: order-preserving `Filter`, the model of `Array.prototype.filter`.
- `Text`: `String.prototype.trim` over the ECMAScript white-space and line-terminator
  characters, with proofs that its result is unique and idempotent.
- `Clock`: instants are local wall-clock milliseconds. `StartOfDay` is what
  `setHours(0, 0, 0, 0)` leaves. `IsOverdue` compares two such midnights, and a lemma
  shows this is a strict comparison of calendar days.
- `Tasks`: the task record and `AddTask`, `ToggleTask`, `DeleteTask`, `DeleteAll`.
- `Render`: `RenderTasks` does one pass over the collection, as `renderTasks` does. It
  produces the pending and completed card lists, the two counters and the empty-state flag.
  `CardOf` computes the "(Late)" marker.
- `Profiles`: `SaveProfile` and the "Guest"/"Dreamer" display fallbacks.
- `App`: start-up (`loadProfile`, `loadTasks`), the user events, and an abstract storage
  that reads back exactly what was written. It proves that a reload restores the task
  collection and the profile.

The clock readings (`Date.now()` for the id, `new Date()` for the creation time) become
parameters of `Submit`. A single current time for the whole render becomes a parameter of
`RenderTasks`. The `confirm` answers become boolean parameters, and the checked priority
radio button becomes an `Option<Priority>`.

Two behaviours of the code shape the model:
- Ids come from `Date.now()` and can collide. `findIndex` then toggles only the first task
  with the id, while `filter` deletes every one (script.js:119-134). `Tasks.CollidingIds`
  proves both for any two tasks that share an id. `Tasks.ToggleWithUniqueIds` shows that
  toggling flips exactly the tasks with the id when ids are unique.
- Stored records need not carry `createdAt`. `createTaskElement` checks for it before
  applying the overdue rule (script.js:199), so `createdAt` is an `Option`.

## Model

| member | source | states |
|---|---|---|
| Text.Trim | frontend/script.js:92 | the trimmed text has no white space at either end, is an infix of the input with only white space around it, and is empty exactly when the input is all white space |
| Text.TrimUnique | frontend/script.js:65-66 | any unpadded infix surrounded only by white space is the trimmed text, so `trim` has exactly one possible result |
| Text.TrimIdempotent | frontend/script.js:65-66 | trimming an already trimmed string changes nothing |
| Seqs.Filter | frontend/script.js:131 | the filter keeps only elements satisfying the predicate, and keeps every element of the input that satisfies it |
| Seqs.FilterConcat | frontend/script.js:131 | filtering distributes over concatenation, so relative order is kept |
| Seqs.FilterKeepsAll | frontend/script.js:131 | a filter returns its input unchanged exactly when every element satisfies the predicate |
| Seqs.FilterIdempotent | frontend/script.js:131 | filtering a second time with the same predicate changes nothing |
| Seqs.FilterSplitLength | frontend/script.js:166-176 | a predicate and its negation split a sequence into parts whose sizes add up to the whole |
| Clock.StartOfDay | frontend/script.js:149-151 | truncation gives the midnight at or before the instant, less than a day before it, on a day boundary |
| Clock.IsOverdue | frontend/script.js:145-155 | after cutting both instants back to midnight, a task is overdue exactly when its creation calendar day is strictly before today's |
| Clock.OverdueIsStrict | frontend/script.js:153-154 | the same calendar day is never overdue, and overdue implies creation strictly before now |
| Clock.OverdueAfterFullDay | frontend/script.js:145-155 | once a full day has passed since creation the task is overdue |
| Clock.NewYearScenario | frontend/script.js:145-155 | created 2023-01-01 10:00: not overdue at 23:59 that day, overdue at any time on 2023-01-02 |
| Tasks.AddTask | frontend/script.js:91-113 | rejects exactly the inputs that are all white space, with the alert text; otherwise grows the list by one, keeps the old list as the tail, and the new head has the trimmed non-empty text, the given id and time, priority defaulting to low, and is not done |
| Tasks.FirstIndexOf | frontend/script.js:120 | finds the first position carrying the id, and finds none exactly when no task carries it |
| Tasks.ToggleTask | frontend/script.js:119-127 | keeps the length; flips the completion flag of the first task carrying the id and leaves every other position unchanged; with no match the list is unchanged |
| Tasks.DeleteTask | frontend/script.js:129-134 | unconfirmed changes nothing; confirmed leaves no task with the id, keeps every other task, and adds nothing |
| Tasks.DeleteAll | frontend/script.js:136-143 | the result is empty exactly when the list was already empty or the user confirmed; otherwise the list is unchanged |
| Tasks.ToggleTwice | frontend/script.js:119-127 | toggling the same id twice restores the original list |
| Tasks.ToggleKeepsFields | frontend/script.js:122 | toggling changes no id, text, priority or creation time at any position |
| Tasks.ToggleWithUniqueIds | frontend/script.js:119-122 | with unique ids, toggling flips exactly the tasks carrying the id |
| Tasks.DeleteKeepsOrder | frontend/script.js:131 | deleting from a concatenation is the concatenation of the deletions, so relative order is kept |
| Tasks.DeleteSingle | frontend/script.js:131 | a single task is removed exactly when it carries the id |
| Tasks.DeleteNoopIffAbsent | frontend/script.js:129-134 | a confirmed delete leaves the list unchanged exactly when no task carries the id |
| Tasks.DeleteThenRepeat | frontend/script.js:119-134 | after a confirmed delete of an id, deleting or toggling that id again changes nothing |
| Tasks.FilterKeepsUniqueIds | frontend/script.js:131 | filtering a list with unique ids keeps them unique |
| Tasks.AddKeepsUniqueIds | frontend/script.js:104-112 | adding a task whose id is not in use keeps ids unique |
| Tasks.RemovalsKeepUniqueIds | frontend/script.js:119-143 | toggling, deleting and clearing keep ids unique |
| Tasks.CollidingIds | frontend/script.js:119-134 | with two tasks sharing an id, toggle flips only the first while delete removes both |
| Render.CardOf | frontend/script.js:193-201 | a card shows the task's id, text, priority and completion, and is late exactly when the task is pending, has a creation time, and that day is before today |
| Render.PartitionCovers | frontend/script.js:163-183 | the pending and completed sublists together cover the list, hold only pending and only done tasks respectively, and pending is empty exactly when every task is done |
| Render.RenderTasks | frontend/script.js:158-191 | the two card lists are the order-preserving pending and completed sublists, the counters are their sizes and add up to the list size, the placeholder shows exactly when nothing is pending, every completed card is checked and never late, and every pending card is unchecked |
| Render.DoneNeverLate | frontend/script.js:199-201 | a done task is never late; a pending task created 2023-01-01 is late on 2023-01-05 |
| Profiles.SaveProfile | frontend/script.js:64-76 | rejects exactly the names that are all white space, with the alert text; otherwise the stored profile is exactly the trimmed name and job, with a non-empty name |
| Profiles.OrFallback | frontend/script.js:60-61 | the shown text is never empty: the field when present, the fallback when the field is empty |
| Profiles.DisplayedProfile | frontend/script.js:59-62 | the header never shows an empty field; a non-empty field is shown as itself, and "Guest"/"Dreamer" appears exactly when the field is empty or literally that word |
| Profiles.DisplayAfterSave | frontend/script.js:64-72 | after a successful save the header shows the trimmed name itself, and the trimmed job, or "Dreamer" when the job input was blank |
| Profiles.ResaveUnchanged | frontend/script.js:247-251 | saving the form as the edit button fills it, from a saved profile, gives back the same profile |
| App.Commit | frontend/script.js:86-89 | the new collection replaces the in-memory one and is written to the tasks record; profile, form and profile record are untouched |
| App.Init | frontend/script.js:48-84 | start-up loads the stored profile and tasks, falling back to the blank profile with the form open and to an empty list |
| App.Step | frontend/script.js:243-251 | an alert leaves the state unchanged; the empty-task alert comes exactly from submitting white space, the name alert exactly from saving a blank name; a successful profile save stores the trimmed profile in memory and storage, closes the form and leaves the tasks alone; the edit button only opens the form; task events leave the profile and form alone |
| App.StepMatchesTaskOperations | frontend/script.js:86-143 | each task event changes the collection exactly as the corresponding task operation does, and profile events leave it alone |
| App.StepKeepsSynced | frontend/script.js:64-89 | start-up is in sync with storage, and every event keeps memory and storage in sync |
| App.RunKeepsSynced | frontend/script.js:86-89 | memory and storage stay in sync over any sequence of events |
| App.ReloadRestores | frontend/script.js:79-89 | after any sequence of events, reloading from storage restores the same collection and profile |
| App.StepKeepsUniqueIds | frontend/script.js:104-143 | ids stay unique when every added task gets an unused id |

## Left out

- DOM construction, `innerHTML` templating, modal styling and the event-listener wiring are
  not modelled. Only the logic they carry is kept: card fields, counters, the placeholder
  flag and the open/closed form.
- `escapeHtml` is left out. Its behaviour comes from the browser's text-node serialisation,
  which is not visible in the source. Card text is the task text as stored.
- Render.RenderTasks: uses one current time for the whole render. The code calls
  `new Date()` again for every task inside `isOverdue` (script.js:147), so a render that
  crosses midnight can judge tasks against different days. The model does not capture this.
- App.ReloadRestores: restores only the collection and the profile. Whether the profile form
  is open is not restored: start-up closes it whenever a profile is stored. The "(Late)"
  markers depend on a fresh clock reading.
- `loadDate` and the short creation-date label use locale formatting and are left out.
- `Date.now()`, `new Date()`, `toISOString` and parsing the stored ISO string are left out.
  Each becomes an integer instant parameter. The model has no time zone or daylight-saving
  shift: an instant is already local wall-clock time.
- `JSON.stringify`/`JSON.parse` are left out. The store reads back exactly what was
  written, so malformed stored data, and its unhandled parse failure, are outside the model.
- Clearing the task input field after a successful add is UI state and is not modelled.
- App.Step: models `confirm` as a boolean in the event. It does not record whether a
  confirmation dialog was shown. For delete-all on an empty list the answer is simply ignored.
- The priority is an enumeration. Radio values outside low/medium/high cannot be expressed.
