/** The application shell: it shows either the task list or the task form, and
    bumps a refresh counter after a save so that the list remounts and reloads. */
module App {
  import opened Wrappers
  import opened Seqs
  import opened Types
  import opened TaskApi
  import opened TaskFormReducer

  /** `View`: the list, or the form editing `task` (creating one when absent). */
  datatype View = List | Form(task: Option<Task>)

  /** `{ ...view.task, ...values }`: the edited task with the form's text. */
  function Edited(t: Task, values: FormValues): (r: Task)
    ensures r.id == t.id && r.title == values.title && r.description == values.description
    ensures r.(title := t.title, description := t.description) == t
  {
    t.(title := values.title, description := values.description)
  }

  /** Saving an edit stores the form's text under the same id and keeps the task's
      completion and priority as the form received them. */
  lemma SaveEditApplies(stored: Task, t: Task, values: FormValues)
    requires stored.id == t.id
    ensures var s := Merge(stored, FullPatch(Edited(t, values)));
            s.id == t.id && s.title == values.title && s.description == values.description &&
            s.isCompleted == t.isCompleted && s.priority == t.priority
  {
    MergeFull(stored, Edited(t, values));
  }

  class AppShell {
    var view: View
    var refreshKey: int
    const store: TaskStore

    constructor(store: TaskStore)
      ensures view == List && refreshKey == 0 && this.store == store
    {
      view := List;
      refreshKey := 0;
      this.store := store;
    }

    /** `handleShowForm`: open the form, for `task` or for a new one. */
    method HandleShowForm(task: Option<Task>)
      modifies this
      ensures view == Form(task) && refreshKey == old(refreshKey)
    {
      view := Form(task);
    }

    /** `handleCloseForm`: back to the list, nothing saved. */
    method HandleCloseForm()
      modifies this
      ensures view == List && refreshKey == old(refreshKey)
    {
      view := List;
    }

    /** `handleSubmitForm`: outside the form it does nothing. An edit is sent to
        `update`, a new task to `create`; once the request succeeds the list is shown
        again and the refresh key grows by one. A failed update is handed back to the
        form with nothing changed. `ok` is the outcome of `update`; `newId` the id
        `create` assigns. */
    method HandleSubmitForm(values: FormValues, ok: bool, newId: string) returns (thrown: Option<Error>)
      requires view.Form? && view.task.Some? && ok ==> FindIndex(HasId(view.task.value.id), store.tasks) >= 0
      modifies this, store
      ensures old(view).List? ==>
                view == old(view) && refreshKey == old(refreshKey) && store.tasks == old(store.tasks) && thrown.None?
      ensures old(view).Form? && old(view).task.Some? && !ok ==>
                view == old(view) && refreshKey == old(refreshKey) && store.tasks == old(store.tasks) &&
                thrown == Some(Error(UpdateFailedMessage))
      ensures old(view).Form? && old(view).task.Some? && ok ==>
                store.tasks == Updated(old(store.tasks), FullPatch(Edited(old(view).task.value, values))) &&
                view == List && refreshKey == old(refreshKey) + 1 && thrown.None?
      ensures old(view).Form? && old(view).task.None? ==>
                store.tasks == [NewTask(newId, values.title, values.description)] + old(store.tasks) &&
                view == List && refreshKey == old(refreshKey) + 1 && thrown.None?
    {
      if !view.Form? {
        return None;
      }
      if view.task.Some? {
        var r := store.Update(FullPatch(Edited(view.task.value, values)), ok);
        if r.Failure? {
          return Some(r.error);
        }
      } else {
        var _ := store.Create(values.title, values.description, newId);
      }
      view := List;
      refreshKey := refreshKey + 1;
      thrown := None;
    }
  }
}
