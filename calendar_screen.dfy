/** The calendar screen: the tasks due on the selected day, and the toggle and
    delete handlers that reread the store after changing it. */
module CalendarScreen {
  import opened Dates
  import opened Seqs
  import opened Types
  import opened TaskApi
  import Calendar

  /** `getTasksForSelectedDate`. */
  function TasksForSelectedDate(tasks: seq<Task>, selected: Moment): (r: seq<Task>)
    ensures forall i :: 0 <= i < |r| ==> r[i].dueDate.Some? && SameDay(r[i].dueDate.value, selected)
    ensures IsSubsequence(r, tasks)
  {
    Filter(DueOnDay(selected.date), tasks)
  }

  /** Every task due on the selected day is listed, whatever its time of day. */
  lemma SelectedDateKeepsDueTasks(tasks: seq<Task>, selected: Moment, i: int)
    requires 0 <= i < |tasks| && tasks[i].dueDate.Some? && SameDay(tasks[i].dueDate.value, selected)
    ensures tasks[i] in TasksForSelectedDate(tasks, selected)
  {
    FilterKeeps(DueOnDay(selected.date), tasks, i);
  }

  /** The list is non-empty exactly when the calendar marks the day as having tasks. */
  lemma SelectedDateAgreesWithCalendar(tasks: seq<Task>, selected: Moment)
    ensures TasksForSelectedDate(tasks, selected) != [] <==> Calendar.HasTasksOnDate(tasks, selected.date)
  {
    FilterEmptyIff(DueOnDay(selected.date), tasks);
  }

  class Screen {
    var tasks: seq<Task>
    var selectedDate: Moment
    const store: TaskStore

    constructor(store: TaskStore, now: Moment)
      ensures this.store == store && tasks == [] && selectedDate == now
    {
      this.store := store;
      selectedDate := now;
      tasks := [];
    }

    /** `loadTasks`, also run once on mount: replace the local list with a fresh read
        of the store. */
    method LoadTasks()
      modifies this`tasks
      ensures tasks == store.tasks
    {
      tasks := store.GetTasks();
    }

    /** `handleToggleTask`: flip the task in the store, then reload. */
    method HandleToggleTask(id: string)
      modifies this`tasks, store
      ensures FindIndex(HasId(id), old(store.tasks)) >= 0 ==>
                var k := FindIndex(HasId(id), old(store.tasks));
                store.tasks == old(store.tasks)[k := old(store.tasks)[k].(isCompleted := !old(store.tasks)[k].isCompleted)]
      ensures FindIndex(HasId(id), old(store.tasks)) == -1 ==> store.tasks == old(store.tasks)
      ensures tasks == store.tasks
    {
      var _ := store.ToggleTaskStatus(id);
      LoadTasks();
    }

    /** `handleDeleteTask`: delete from the store, then reload. */
    method HandleDeleteTask(id: string)
      modifies this`tasks, store
      ensures store.tasks == Without(old(store.tasks), id)
      ensures tasks == store.tasks
    {
      var _ := store.DeleteTask(id);
      LoadTasks();
    }
  }
}
