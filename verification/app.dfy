/** The page as a whole: in-memory state, the two persisted records, start-up, and the
    user events the page reacts to. Every mutation of the collection is followed by a
    save of the whole collection, as `saveTasks` does. */
module App {
  import opened Wrappers
  import opened Text
  import opened Clock
  import opened Tasks
  import opened Profiles

  /** The two local-storage records, each possibly never written. Serialisation is taken
      to be faithful: what is written is what is read back. */
  datatype Store = Store(tasks: Option<seq<Task>>, profile: Option<Profile>)

  /** In-memory state: the collection, the profile, whether the profile form is open, and
      the storage behind them. */
  datatype State = State(tasks: seq<Task>, profile: Profile, modalOpen: bool, store: Store)

  datatype Event =
    | Submit(input: string, selected: Option<Priority>, id: int, createdAt: Instant)
    | Toggle(id: int)
    | Delete(id: int, confirmed: bool)
    | DeleteAllTasks(confirmed: bool)
    | SaveProfileForm(nameInput: string, jobInput: string)
    | EditProfile

  /** The state after an event, and the alert the event raised, if any. */
  datatype Reply = Reply(state: State, alert: Option<string>)

  /** `init`: `loadProfile` then `loadTasks`. A missing profile leaves the blank one in
      memory and opens the form; missing tasks leave the collection empty. */
  function Init(store: Store): (st: State)
    ensures st.store == store
    ensures st.modalOpen <==> store.profile.None?
    ensures st.profile == store.profile.GetOr(InitialProfile)
    ensures st.tasks == store.tasks.GetOr([])
  {
    match store.profile
    case Some(p) => State(store.tasks.GetOr([]), p, false, store)
    case None => State(store.tasks.GetOr([]), InitialProfile, true, store)
  }

  /** `saveTasks`: the new collection replaces the in-memory one and is written out. */
  function Commit(st: State, tasks: seq<Task>): (r: State)
    ensures r.tasks == tasks && r.store.tasks == Some(tasks)
    ensures r.profile == st.profile && r.modalOpen == st.modalOpen && r.store.profile == st.store.profile
  {
    st.(tasks := tasks, store := st.store.(tasks := Some(tasks)))
  }

  /** Storage agrees with memory: each record either holds the in-memory value or was
      never written and memory still holds the start-up value. */
  predicate Synced(st: State) {
    && (st.store.tasks == Some(st.tasks) || (st.store.tasks.None? && st.tasks == []))
    && (st.store.profile == Some(st.profile) || (st.store.profile.None? && st.profile == InitialProfile))
  }

  /** One user event, dispatched as the page's listeners and inline handlers do. */
  function Step(st: State, ev: Event): (r: Reply)
    ensures r.alert.Some? ==> r.state == st
    ensures r.alert == Some(EmptyTaskAlert) <==> ev.Submit? && AllWhitespace(ev.input)
    ensures r.alert == Some(NameAlert) <==> ev.SaveProfileForm? && AllWhitespace(ev.nameInput)
    ensures !ev.SaveProfileForm? && !ev.EditProfile? ==>
      r.state.profile == st.profile && r.state.modalOpen == st.modalOpen
    ensures !ev.Submit? && !ev.SaveProfileForm? ==> r.alert.None?
    ensures ev.SaveProfileForm? && SaveProfile(ev.nameInput, ev.jobInput).Success? ==>
      && r.state.profile == SaveProfile(ev.nameInput, ev.jobInput).value
      && r.state.store.profile == Some(r.state.profile)
      && !r.state.modalOpen && r.state.tasks == st.tasks
    ensures ev.EditProfile? ==> r.state == st.(modalOpen := true)
  {
    match ev
    case Submit(input, selected, id, createdAt) =>
      (match AddTask(st.tasks, input, selected, id, createdAt)
       case Failure(msg) => Reply(st, Some(msg))
       case Success(tasks) => Reply(Commit(st, tasks), None))
    case Toggle(id) =>
      if HasId(st.tasks, id) then Reply(Commit(st, ToggleTask(st.tasks, id)), None)
      else Reply(st, None)
    case Delete(id, confirmed) =>
      if confirmed then Reply(Commit(st, DeleteTask(st.tasks, id, true)), None)
      else Reply(st, None)
    case DeleteAllTasks(confirmed) =>
      if st.tasks != [] && confirmed then Reply(Commit(st, DeleteAll(st.tasks, true)), None)
      else Reply(st, None)
    case SaveProfileForm(nameInput, jobInput) =>
      (match SaveProfile(nameInput, jobInput)
       case Failure(msg) => Reply(st, Some(msg))
       case Success(p) =>
         Reply(st.(profile := p, modalOpen := false, store := st.store.(profile := Some(p))), None))
    case EditProfile =>
      Reply(st.(modalOpen := true), None)
  }

  /** Each event changes the collection exactly as the corresponding task operation does. */
  lemma StepMatchesTaskOperations(st: State, ev: Event)
    ensures ev.Submit? ==>
      Step(st, ev).state.tasks ==
        AddTask(st.tasks, ev.input, ev.selected, ev.id, ev.createdAt).GetOr(st.tasks)
    ensures ev.Toggle? ==> Step(st, ev).state.tasks == ToggleTask(st.tasks, ev.id)
    ensures ev.Delete? ==> Step(st, ev).state.tasks == DeleteTask(st.tasks, ev.id, ev.confirmed)
    ensures ev.DeleteAllTasks? ==> Step(st, ev).state.tasks == DeleteAll(st.tasks, ev.confirmed)
    ensures ev.SaveProfileForm? || ev.EditProfile? ==> Step(st, ev).state.tasks == st.tasks
  {
  }

  /** Start-up from any storage is in sync, and every event keeps storage in sync. */
  lemma StepKeepsSynced(store: Store, st: State, ev: Event)
    ensures Synced(Init(store))
    ensures Synced(st) ==> Synced(Step(st, ev).state)
  {
  }

  /** Reloading the page after any sequence of events restores the collection and the
      profile the user last saw. */
  lemma {:induction false} ReloadRestores(store: Store, events: seq<Event>)
    ensures var st := Run(Init(store), events);
      Init(st.store).tasks == st.tasks && Init(st.store).profile == st.profile
  {
    RunKeepsSynced(Init(store), events);
  }

  /** The state after a sequence of events. */
  function Run(st: State, events: seq<Event>): State
    decreases |events|
  {
    if events == [] then st else Run(Step(st, events[0]).state, events[1..])
  }

  /** Synchronisation survives any sequence of events. */
  lemma {:induction false} RunKeepsSynced(st: State, events: seq<Event>)
    requires Synced(st)
    ensures Synced(Run(st, events))
    decreases |events|
  {
    if events != [] {
      StepKeepsSynced(st.store, st, events[0]);
      RunKeepsSynced(Step(st, events[0]).state, events[1..]);
    }
  }

  /** Identifiers stay unique as long as every added task gets an id not already in use. */
  lemma StepKeepsUniqueIds(st: State, ev: Event)
    requires UniqueIds(st.tasks)
    requires ev.Submit? ==> !HasId(st.tasks, ev.id)
    ensures UniqueIds(Step(st, ev).state.tasks)
  {
    match ev
    case Submit(input, selected, id, createdAt) =>
      AddKeepsUniqueIds(st.tasks, input, selected, id, createdAt);
    case Toggle(id) =>
      RemovalsKeepUniqueIds(st.tasks, id, false);
    case Delete(id, confirmed) =>
      RemovalsKeepUniqueIds(st.tasks, id, true);
    case DeleteAllTasks(confirmed) =>
    case SaveProfileForm(_, _) =>
    case EditProfile =>
  }
}
