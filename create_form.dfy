/** The sheet that creates a planner task: its fields are reset each time it opens,
    and submitting hands over a trimmed draft, provided the title is not blank. */
module CreateForm {
  import opened Wrappers
  import opened Types
  import opened Text

  /** The draft `handleSubmit` passes to `onSubmit`, or `None` when the guard
      `!title.trim()` stops it. */
  function SubmitPayload(title: string, description: string, priority: Priority, dueDate: string): (r: Option<TaskDraft>)
    ensures r.None? <==> IsBlank(title)
    ensures r.Some? ==> r.value.title == Trim(title) && r.value.description == Trim(description)
    ensures r.Some? ==> r.value.title != [] && r.value.priority == priority && r.value.status == Todo
    ensures r.Some? ==> (r.value.dueDate.None? <==> dueDate == [])
    ensures r.Some? && dueDate != [] ==> r.value.dueDate == Some(dueDate)
  {
    if Trim(title) == [] then None
    else Some(TaskDraft(Trim(title), Trim(description), priority, Todo,
                        if dueDate == [] then None else Some(dueDate)))
  }

  /** A submitted draft passes the guard again unchanged: its text is already trimmed. */
  lemma PayloadIsStable(title: string, description: string, priority: Priority, dueDate: string)
    requires SubmitPayload(title, description, priority, dueDate).Some?
    ensures var d := SubmitPayload(title, description, priority, dueDate).value;
            SubmitPayload(d.title, d.description, d.priority, dueDate) == Some(d)
  {
    TrimIdempotent(title);
    TrimIdempotent(description);
  }

  class CreateTaskForm {
    var title: string
    var description: string
    var priority: Priority
    var dueDate: string
    var isClosing: bool

    /** The initial `useState` values. */
    constructor()
      ensures title == [] && description == [] && priority == Medium && dueDate == []
      ensures !isClosing
    {
      title, description, priority, dueDate := [], [], Medium, [];
      isClosing := false;
    }

    /** The sheet is drawn while open and during its closing animation. */
    predicate Shown(isOpen: bool)
      reads this
    {
      isOpen || isClosing
    }

    /** The submit button is disabled while the title is blank. */
    predicate SubmitDisabled()
      reads this
      ensures SubmitDisabled() <==> SubmitPayload(title, description, priority, dueDate).None?
    {
      Trim(title) == []
    }

    /** The reset effect that runs when `isOpen` changes: opening empties every field
        and sets the priority back to medium; closing leaves the fields alone. */
    method ResetOnOpen(isOpen: bool)
      modifies this
      ensures isOpen ==> title == [] && description == [] && priority == Medium && dueDate == [] && !isClosing
      ensures !isOpen ==> title == old(title) && description == old(description) &&
                          priority == old(priority) && dueDate == old(dueDate) && isClosing == old(isClosing)
    {
      if isOpen {
        isClosing := false;
        title := [];
        description := [];
        priority := Medium;
        dueDate := [];
      }
    }

    /** `handleClose` up to its timer: the closing animation starts. */
    method HandleClose()
      modifies this
      ensures isClosing && Shown(false)
      ensures title == old(title) && description == old(description) &&
              priority == old(priority) && dueDate == old(dueDate)
    {
      isClosing := true;
    }

    /** The timer of `handleClose`: the animation is over and `onClose` is due. */
    method FinishClose()
      modifies this
      ensures !isClosing && !Shown(false)
      ensures title == old(title) && description == old(description) &&
              priority == old(priority) && dueDate == old(dueDate)
    {
      isClosing := false;
    }

    /** `handleSubmit`: with a blank title nothing happens; otherwise the draft goes to
        `onSubmit` and the sheet starts closing. */
    method HandleSubmit() returns (submitted: Option<TaskDraft>)
      modifies this
      ensures submitted == SubmitPayload(old(title), old(description), old(priority), old(dueDate))
      ensures title == old(title) && description == old(description) &&
              priority == old(priority) && dueDate == old(dueDate)
      ensures isClosing == (submitted.Some? || old(isClosing))
    {
      submitted := SubmitPayload(title, description, priority, dueDate);
      if submitted.Some? {
        HandleClose();
      }
    }
  }
}
