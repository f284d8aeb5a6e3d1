/** The list screen's view state: a tagged-union reducer over the loaded tasks, the
    load status, the last load error and a dismissible notification, plus the
    optimistic completion toggle that drives it against the store. */
module TaskListScreen {
  import opened Wrappers
  import opened Seqs
  import opened Types
  import opened TaskApi

  datatype LoadStatus = Idle | Loading | Loaded | LoadFailed

  /** A notification always has type 'error'; only its message varies. */
  datatype Notification = Notification(message: string)

  datatype State = State(
    tasks: seq<Task>,
    status: LoadStatus,
    error: Option<Error>,
    notification: Option<Notification>)

  datatype Action =
    | FetchStart
    | FetchSuccess(payload: seq<Task>)
    | FetchError(failure: Error)
    | OptimisticUpdateTask(task: Task, isCompleted: bool)
    | RevertUpdateTask(originalTask: Task, cause: Error)
    | DismissNotification

  const InitialState: State := State([], Idle, None, None)

  /** The `map` callback of an optimistic update. */
  function SetCompletion(id: string, isCompleted: bool): Task -> Task
  {
    (t: Task) => if t.id == id then t.(isCompleted := isCompleted) else t
  }

  /** The `map` callback of a revert. */
  function RestoreTask(original: Task): Task -> Task
  {
    (t: Task) => if t.id == original.id then original else t
  }

  /** `taskListReducer`. Only a successful load changes which tasks are listed and in
      what order; only a revert or a dismissal changes the notification. */
  function Reduce(s: State, a: Action): (r: State)
    ensures !a.FetchSuccess? ==> |r.tasks| == |s.tasks|
    ensures !a.FetchSuccess? ==> forall i :: 0 <= i < |s.tasks| ==> r.tasks[i].id == s.tasks[i].id
    ensures a.FetchSuccess? ==> r.tasks == a.payload
    ensures r.notification != s.notification ==> a.RevertUpdateTask? || a.DismissNotification?
  {
    match a
    case FetchStart => s.(status := Loading, error := None)
    case FetchSuccess(payload) => s.(status := Loaded, tasks := payload)
    case FetchError(e) => s.(status := LoadFailed, error := Some(e))
    case OptimisticUpdateTask(task, b) => s.(tasks := Map(SetCompletion(task.id, b), s.tasks))
    case RevertUpdateTask(original, e) =>
      s.(tasks := Map(RestoreTask(original), s.tasks), notification := Some(Notification(e.message)))
    case DismissNotification => s.(notification := None)
  }

  predicate IsFetch(a: Action)
  {
    a.FetchStart? || a.FetchSuccess? || a.FetchError?
  }

  // ---- Properties of single transitions ----

  /** Starting a load sets loading and clears the error; the tasks and the
      notification stay. */
  lemma FetchStartKeepsData(s: State)
    ensures Reduce(s, FetchStart).status == Loading
    ensures Reduce(s, FetchStart).error == None
    ensures Reduce(s, FetchStart).tasks == s.tasks
    ensures Reduce(s, FetchStart).notification == s.notification
  {
  }

  /** A failed load records the error and keeps the tasks already shown. */
  lemma FetchErrorKeepsTasks(s: State, e: Error)
    ensures Reduce(s, FetchError(e)).status == LoadFailed
    ensures Reduce(s, FetchError(e)).error == Some(e)
    ensures Reduce(s, FetchError(e)).tasks == s.tasks
  {
  }

  /** Only the three fetch actions move the load status. */
  lemma OnlyFetchChangesStatus(s: State, a: Action)
    requires !IsFetch(a)
    ensures Reduce(s, a).status == s.status && Reduce(s, a).error == s.error
  {
  }

  /** Dismissing clears the notification and nothing else. */
  lemma DismissClearsOnlyNotification(s: State)
    ensures Reduce(s, DismissNotification) == s.(notification := None)
  {
  }

  /** An optimistic update keeps length and order, changes only `isCompleted`, and
      only of the tasks with the toggled id. */
  lemma OptimisticUpdateOnlyCompletion(s: State, task: Task, b: bool)
    ensures var r := Reduce(s, OptimisticUpdateTask(task, b));
      && |r.tasks| == |s.tasks|
      && r.status == s.status && r.error == s.error && r.notification == s.notification
      && (forall i :: 0 <= i < |s.tasks| && s.tasks[i].id == task.id ==>
            r.tasks[i] == s.tasks[i].(isCompleted := b))
      && (forall i :: 0 <= i < |s.tasks| && s.tasks[i].id != task.id ==> r.tasks[i] == s.tasks[i])
  {
  }

  /** A revert puts the snapshot in place of the tasks with its id, sets a notification
      with the error message, and never inserts a task: without a match, the tasks
      are unchanged. */
  lemma RevertNeverInserts(s: State, original: Task, e: Error)
    ensures var r := Reduce(s, RevertUpdateTask(original, e));
      && |r.tasks| == |s.tasks|
      && r.notification == Some(Notification(e.message))
      && r.status == s.status
      && (forall i :: 0 <= i < |s.tasks| ==> r.tasks[i].id == s.tasks[i].id)
      && (forall i :: 0 <= i < |s.tasks| && s.tasks[i].id == original.id ==> r.tasks[i] == original)
      && (forall i :: 0 <= i < |s.tasks| && s.tasks[i].id != original.id ==> r.tasks[i] == s.tasks[i])
      && ((forall i :: 0 <= i < |s.tasks| ==> s.tasks[i].id != original.id) ==> r.tasks == s.tasks)
  {
  }

  // ---- Properties of sequences of transitions ----

  /** Reverting with the pre-dispatch snapshot undoes an optimistic update, provided
      the snapshot is what the list holds under that id (as it is with unique ids). */
  lemma RevertUndoesOptimistic(s: State, task: Task, b: bool, e: Error)
    requires forall i :: 0 <= i < |s.tasks| && s.tasks[i].id == task.id ==> s.tasks[i] == task
    ensures Reduce(Reduce(s, OptimisticUpdateTask(task, b)), RevertUpdateTask(task, e)).tasks == s.tasks
  {
    var mid := Reduce(s, OptimisticUpdateTask(task, b));
    var r := Reduce(mid, RevertUpdateTask(task, e));
    assert |r.tasks| == |s.tasks|;
    forall i | 0 <= i < |s.tasks| ensures r.tasks[i] == s.tasks[i] {
      assert mid.tasks[i] == SetCompletion(task.id, b)(s.tasks[i]);
      assert r.tasks[i] == RestoreTask(task)(mid.tasks[i]);
    }
  }

  /** With unique ids, a task taken from the list is its own snapshot. */
  lemma UniqueSnapshot(s: State, k: int)
    requires UniqueIds(s.tasks) && 0 <= k < |s.tasks|
    ensures forall i :: 0 <= i < |s.tasks| && s.tasks[i].id == s.tasks[k].id ==> s.tasks[i] == s.tasks[k]
  {
  }

  /** Toggling to `!b` and back to `b` restores a list in which the task was `b`. */
  lemma ToggleTwiceRestores(s: State, task: Task, b: bool)
    requires forall i :: 0 <= i < |s.tasks| && s.tasks[i].id == task.id ==> s.tasks[i].isCompleted == b
    ensures Reduce(Reduce(s, OptimisticUpdateTask(task, !b)), OptimisticUpdateTask(task, b)) == s
  {
    var mid := Reduce(s, OptimisticUpdateTask(task, !b));
    var r := Reduce(mid, OptimisticUpdateTask(task, b));
    forall i | 0 <= i < |s.tasks| ensures r.tasks[i] == s.tasks[i] {
      assert mid.tasks[i] == SetCompletion(task.id, !b)(s.tasks[i]);
      assert r.tasks[i] == SetCompletion(task.id, b)(mid.tasks[i]);
    }
  }

  /** A successful load replaces the list wholesale: loading the same payload twice,
      even with both loads in flight at once, leaves exactly that payload. */
  lemma RepeatedLoadReplaces(s: State, payload: seq<Task>)
    ensures var once := Reduce(Reduce(s, FetchStart), FetchSuccess(payload));
      once.tasks == payload && once.status == Loaded
    ensures Reduce(Reduce(Reduce(Reduce(s, FetchStart), FetchSuccess(payload)), FetchStart), FetchSuccess(payload)).tasks == payload
    ensures Reduce(Reduce(Reduce(Reduce(s, FetchStart), FetchStart), FetchSuccess(payload)), FetchSuccess(payload)).tasks == payload
  {
  }

  /** The screen: its reducer state and the shared store it calls. Each dispatch and
      each completed request is one atomic step. */
  class Screen {
    var state: State
    const store: TaskStore

    constructor(store: TaskStore)
      ensures this.store == store && state == InitialState
    {
      this.store := store;
      state := InitialState;
    }

    /** `loadTasks`: FETCH_START, then FETCH_SUCCESS with the store's tasks or
        FETCH_ERROR with the network error. */
    method LoadTasks(ok: bool)
      modifies this
      ensures ok ==> state == Reduce(Reduce(old(state), FetchStart), FetchSuccess(store.tasks))
      ensures !ok ==> state == Reduce(Reduce(old(state), FetchStart), FetchError(Error(FetchFailedMessage)))
      ensures ok ==> state.tasks == store.tasks && state.status == Loaded
      ensures !ok ==> state.tasks == old(state.tasks) && state.status == LoadFailed
    {
      state := Reduce(state, FetchStart);
      var r := store.Fetch(ok);
      match r {
        case Success(ts) => state := Reduce(state, FetchSuccess(ts));
        case Failure(e) => state := Reduce(state, FetchError(e));
      }
    }

    /** The mount effect: load only while the status is still idle. */
    method OnStatusChange(ok: bool)
      modifies this
      ensures old(state.status) == Idle && ok ==>
                state == Reduce(Reduce(old(state), FetchStart), FetchSuccess(store.tasks))
      ensures old(state.status) == Idle && !ok ==>
                state == Reduce(Reduce(old(state), FetchStart), FetchError(Error(FetchFailedMessage)))
      ensures old(state.status) == Idle ==> state.status == (if ok then Loaded else LoadFailed)
      ensures old(state.status) != Idle ==> state == old(state)
    {
      if state.status == Idle {
        LoadTasks(ok);
      }
    }

    /** `handleToggleComplete`: snapshot, optimistic dispatch, `update` with only the
        id and the new flag, and a revert to the snapshot if the update fails. */
    method ToggleComplete(task: Task, isCompleted: bool, ok: bool)
      requires ok ==> FindIndex(HasId(task.id), store.tasks) >= 0
      modifies this, store
      ensures ok ==> state == Reduce(old(state), OptimisticUpdateTask(task, isCompleted))
      ensures ok ==> store.tasks == Updated(old(store.tasks), CompletionPatch(task.id, isCompleted))
      ensures !ok ==> state == Reduce(Reduce(old(state), OptimisticUpdateTask(task, isCompleted)),
                                      RevertUpdateTask(task, Error(UpdateFailedMessage)))
      ensures !ok ==> store.tasks == old(store.tasks)
      ensures !ok && (forall i :: 0 <= i < |old(state).tasks| && old(state).tasks[i].id == task.id ==> old(state).tasks[i] == task)
              ==> state.tasks == old(state.tasks) && state.notification == Some(Notification(UpdateFailedMessage))
    {
      var originalTask := task;
      state := Reduce(state, OptimisticUpdateTask(task, isCompleted));
      var r := store.Update(CompletionPatch(task.id, isCompleted), ok);
      if r.Failure? {
        state := Reduce(state, RevertUpdateTask(originalTask, r.error));
      }
      if forall i :: 0 <= i < |old(state).tasks| && old(state).tasks[i].id == task.id ==> old(state).tasks[i] == task {
        RevertUndoesOptimistic(old(state), task, isCompleted, Error(UpdateFailedMessage));
      }
    }
  }
}
