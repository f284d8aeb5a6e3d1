/** The in-memory task store of `taskApi`: a module-level array that `update`
    changes in place and `create` prepends to. Network latency is left out and the
    random failure is an explicit `ok` flag. */
module TaskApi {
  import opened Wrappers
  import opened Dates
  import opened Seqs
  import opened Types

  const FetchFailedMessage: string := "Ошибка сети при загрузке"
  const UpdateFailedMessage: string := "Не удалось обновить задачу"

  /** The four tasks the store starts with; two are due at the moment of loading. */
  function SeedTasks(now: Moment): (r: seq<Task>)
    ensures |r| == 4 && UniqueIds(r)
    ensures forall i :: 0 <= i < |r| && r[i].dueDate.Some? ==> r[i].dueDate.value == now
  {
    [ Task("1", "Подготовить презентацию для хакатона", "", false, Some(now), High, None, None),
      Task("2", "Написать бэкенд на Java", "Использовать Spring Boot", false, None, High, None, None),
      Task("3", "Продумать UX сценарии", "", true, Some(now), Medium, None, None),
      Task("4", "Интеграция с Яндекс Календарем", "OAuth 2.0", false, None, Low, None, None) ]
  }

  /** The task `create` builds from the form values. */
  function NewTask(id: string, title: string, description: string): Task
  {
    Task(id, title, description, false, None, Medium, None, None)
  }

  /** The store after a successful `update`: the first task with the patch's id merged. */
  function Updated(ts: seq<Task>, p: Patch): (r: seq<Task>)
    requires FindIndex(HasId(p.id), ts) >= 0
    ensures |r| == |ts|
    ensures forall i :: 0 <= i < |ts| && i != FindIndex(HasId(p.id), ts) ==> r[i] == ts[i]
    ensures r[FindIndex(HasId(p.id), ts)] == Merge(ts[FindIndex(HasId(p.id), ts)], p)
  {
    var k := FindIndex(HasId(p.id), ts);
    ts[k := Merge(ts[k], p)]
  }

  /** The store after deleting `id`: every task with another id, in order. */
  function Without(ts: seq<Task>, id: string): (r: seq<Task>)
    ensures forall i :: 0 <= i < |r| ==> r[i].id != id
    ensures forall i :: 0 <= i < |ts| && ts[i].id != id ==> ts[i] in r
    ensures IsSubsequence(r, ts)
  {
    FilterKeepsAll(OtherId(id), ts);
    Filter(OtherId(id), ts)
  }

  /** With unique ids, deleting a stored id removes exactly one task and keeps the
      order of the rest. */
  lemma WithoutRemovesOne(ts: seq<Task>, id: string)
    requires UniqueIds(ts)
    requires FindIndex(HasId(id), ts) >= 0
    ensures |Without(ts, id)| == |ts| - 1
    ensures Without(ts, id) == ts[..FindIndex(HasId(id), ts)] + ts[FindIndex(HasId(id), ts) + 1..]
  {
    var k := FindIndex(HasId(id), ts);
    forall i | 0 <= i < |ts| && i != k ensures OtherId(id)(ts[i]) {
      assert ts[i].id != ts[k].id;
    }
    FilterDropsAt(OtherId(id), ts, k);
  }

  class TaskStore {
    /** `mockTasks`. */
    var tasks: seq<Task>

    constructor(now: Moment)
      ensures tasks == SeedTasks(now)
    {
      tasks := SeedTasks(now);
    }

    /** `fetch`: a copy of the whole store, or a network error. */
    method Fetch(ok: bool) returns (r: Result<seq<Task>, Error>)
      ensures ok ==> r == Success(tasks)
      ensures !ok ==> r == Failure(Error(FetchFailedMessage))
    {
      if ok {
        r := Success(tasks);
      } else {
        r := Failure(Error(FetchFailedMessage));
      }
    }

    /** `update`: merge the patch into the stored task with that id and return it.
        The success branch asserts that the id is stored. */
    method Update(p: Patch, ok: bool) returns (r: Result<Task, Error>)
      requires ok ==> FindIndex(HasId(p.id), tasks) >= 0
      modifies this
      ensures ok ==> tasks == Updated(old(tasks), p)
      ensures ok ==> r == Success(Merge(old(tasks)[FindIndex(HasId(p.id), old(tasks))], p))
      ensures !ok ==> tasks == old(tasks) && r == Failure(Error(UpdateFailedMessage))
    {
      if ok {
        var k := FindIndex(HasId(p.id), tasks);
        var merged := Merge(tasks[k], p);
        tasks := tasks[k := merged];
        r := Success(merged);
      } else {
        r := Failure(Error(UpdateFailedMessage));
      }
    }

    /** `create`: prepend a fresh, uncompleted, medium-priority task. It cannot fail;
        `id` stands for the clock reading the source uses as the id. */
    method Create(title: string, description: string, id: string) returns (t: Task)
      modifies this
      ensures t == NewTask(id, title, description)
      ensures tasks == [t] + old(tasks)
    {
      t := NewTask(id, title, description);
      tasks := [t] + tasks;
    }

    /** `getTasks`, as the calendar and statistics screens call it. */
    method GetTasks() returns (ts: seq<Task>)
      ensures ts == tasks
    {
      ts := tasks;
    }

    /** `toggleTaskStatus`: flip the completion of the task with that id, if any. */
    method ToggleTaskStatus(id: string) returns (r: Option<Task>)
      modifies this
      ensures FindIndex(HasId(id), old(tasks)) == -1 ==> r == None && tasks == old(tasks)
      ensures FindIndex(HasId(id), old(tasks)) >= 0 ==>
                var k := FindIndex(HasId(id), old(tasks));
                r == Some(old(tasks)[k].(isCompleted := !old(tasks)[k].isCompleted)) &&
                tasks == old(tasks)[k := r.value]
    {
      var k := FindIndex(HasId(id), tasks);
      if k == -1 {
        r := None;
      } else {
        var t := tasks[k].(isCompleted := !tasks[k].isCompleted);
        tasks := tasks[k := t];
        r := Some(t);
      }
    }

    /** `deleteTask`: drop every task with that id; report whether one was there. */
    method DeleteTask(id: string) returns (removed: bool)
      modifies this
      ensures tasks == Without(old(tasks), id)
      ensures removed <==> FindIndex(HasId(id), old(tasks)) >= 0
    {
      var before := tasks;
      tasks := Without(tasks, id);
      removed := FindIndex(HasId(id), before) >= 0;
    }
  }
}
