/** The task records the application passes around. */
module Types {
  import opened Wrappers
  import opened Dates

  datatype Priority = Low | Medium | High

  datatype User = User(id: string, name: string, avatarUrl: Option<string>)

  /** The task of the list screen, the form and the mock store. */
  datatype Task = Task(
    id: string,
    title: string,
    description: string,
    isCompleted: bool,
    dueDate: Option<Moment>,
    priority: Priority,
    assignee: Option<User>,
    subtaskCount: Option<int>)

  /** A `Partial<Task>` that carries the id: `None` marks a property that is absent. */
  datatype Patch = Patch(
    id: string,
    title: Option<string>,
    description: Option<string>,
    isCompleted: Option<bool>,
    dueDate: Option<Moment>,
    priority: Option<Priority>,
    assignee: Option<User>,
    subtaskCount: Option<int>)

  /** The patch `{ id, isCompleted }` sent when a task is ticked or unticked. */
  function CompletionPatch(id: string, isCompleted: bool): Patch
  {
    Patch(id, None, None, Some(isCompleted), None, None, None, None)
  }

  /** The patch made by spreading a whole task: every property it has. */
  function FullPatch(t: Task): Patch
  {
    Patch(t.id, Some(t.title), Some(t.description), Some(t.isCompleted), t.dueDate,
          Some(t.priority), t.assignee, t.subtaskCount)
  }

  /** `Object.assign(t, p)`: every property present in `p` overwrites the one in `t`. */
  function Merge(t: Task, p: Patch): (r: Task)
    ensures r.id == p.id
    ensures r.title == (if p.title.Some? then p.title.value else t.title)
    ensures r.description == (if p.description.Some? then p.description.value else t.description)
    ensures r.isCompleted == (if p.isCompleted.Some? then p.isCompleted.value else t.isCompleted)
    ensures r.dueDate == (if p.dueDate.Some? then p.dueDate else t.dueDate)
    ensures r.priority == (if p.priority.Some? then p.priority.value else t.priority)
    ensures r.assignee == (if p.assignee.Some? then p.assignee else t.assignee)
    ensures r.subtaskCount == (if p.subtaskCount.Some? then p.subtaskCount else t.subtaskCount)
  {
    Task(p.id,
         p.title.GetOr(t.title),
         p.description.GetOr(t.description),
         p.isCompleted.GetOr(t.isCompleted),
         if p.dueDate.Some? then p.dueDate else t.dueDate,
         p.priority.GetOr(t.priority),
         if p.assignee.Some? then p.assignee else t.assignee,
         if p.subtaskCount.Some? then p.subtaskCount else t.subtaskCount)
  }

  /** Assigning the same patch twice is assigning it once. */
  lemma MergeIdempotent(t: Task, p: Patch)
    ensures Merge(Merge(t, p), p) == Merge(t, p)
  {
  }

  /** Merging a task's completion patch changes its completion flag and nothing else. */
  lemma MergeCompletion(t: Task, b: bool)
    ensures Merge(t, CompletionPatch(t.id, b)) == t.(isCompleted := b)
  {
  }

  /** Merging a whole task over a task with the same id yields that task, except that
      optional properties it lacks are kept from the stored one. */
  lemma MergeFull(stored: Task, t: Task)
    requires stored.id == t.id
    ensures Merge(stored, FullPatch(t)) ==
            t.(dueDate := if t.dueDate.Some? then t.dueDate else stored.dueDate,
               assignee := if t.assignee.Some? then t.assignee else stored.assignee,
               subtaskCount := if t.subtaskCount.Some? then t.subtaskCount else stored.subtaskCount)
  {
  }

  /** The test `t => t.id === id` of `find` and `map` callbacks. */
  function HasId(id: string): Task -> bool
  {
    (t: Task) => t.id == id
  }

  /** The test `t => t.id !== id` of a delete filter. */
  function OtherId(id: string): Task -> bool
  {
    (t: Task) => t.id != id
  }

  /** Ids are unique within a task list. */
  ghost predicate UniqueIds(ts: seq<Task>)
  {
    forall i, j :: 0 <= i < j < |ts| ==> ts[i].id != ts[j].id
  }

  datatype Error = Error(message: string)

  /** A task with a due date on calendar day `day`; tasks without one never are. */
  predicate DueOn(t: Task, day: Date)
  {
    t.dueDate.Some? && t.dueDate.value.date == day
  }

  /** The test `task => sameDay(task.dueDate, day)` of the calendar's filters. */
  function DueOnDay(day: Date): Task -> bool
  {
    (t: Task) => DueOn(t, day)
  }

  /** The second task shape of the calendar, statistics and creation form, which
      track progress with a tri-state status and record a creation time. */
  datatype Status = Todo | InProgress | Completed

  datatype PlannerTask = PlannerTask(
    id: string,
    title: string,
    description: string,
    status: Status,
    priority: Priority,
    dueDate: Option<string>,
    createdAt: Moment)

  /** What the creation form hands over: a planner task without id and creation time. */
  datatype TaskDraft = TaskDraft(
    title: string,
    description: string,
    priority: Priority,
    status: Status,
    dueDate: Option<string>)
}
