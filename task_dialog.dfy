/**
 * The create/edit dialog (`src/components/task-dialog.tsx`): the values the
 * form is reset to when the dialog opens, the validation of the form by the
 * create schema, and the write `onSubmit` issues.
 *
 * Writes go to the signed-in user's own `users/<uid>/tasks` collection; they
 * are recorded, not performed. `throws` says that issuing the write raised
 * an error. Dates are integer timestamps (the ISO-string conversion is
 * identity here).
 */
module TaskDialog {
  import opened Wrappers
  import opened TaskTypes
  import TaskDashboard

  /**
   * The due-date field: null (`NoDate`), a picked day, or `undefined`
   * (`Cleared`), which is what the single-mode calendar hands to
   * `field.onChange` when the selected day is clicked again.
   */
  datatype DateInput = NoDate | Picked(time: int) | Cleared

  /** The due date a field value stands for; `undefined` stands for none. */
  function DueOf(d: DateInput): Option<int> {
    if d.Picked? then Some(d.time) else None
  }

  /**
   * The calendar's `onSelect` in single mode without `required`: clicking
   * the selected day deselects it, clicking any other day selects that day.
   * Once a day is picked the field never returns to null.
   */
  function SelectDay(current: DateInput, day: int): (next: DateInput)
    ensures next != NoDate
    ensures next == Cleared <==> current == Picked(day)
    ensures next.Picked? ==> next.time == day
  {
    if current == Picked(day) then Cleared else Picked(day)
  }

  /** The form's fields; the description is always a string in the form. */
  datatype FormValues = FormValues(title: string, description: string, status: Status, dueDate: DateInput)

  /** The form's `defaultValues`, also the reset for a new task. */
  const DefaultValues: FormValues := FormValues("", "", ToDo, NoDate)

  /** The values `form.reset` receives when the dialog is open. */
  function ResetValues(task: Option<Task>): (v: FormValues)
    ensures task.None? ==> v == DefaultValues
    ensures task.Some? ==> v.title == task.value.title && v.status == task.value.status
    ensures task.Some? ==> DueOf(v.dueDate) == task.value.dueDate && !v.dueDate.Cleared?
    ensures task.Some? ==> v.description == if task.value.description.Some? then task.value.description.value else ""
  {
    match task
    case None => DefaultValues
    case Some(t) =>
      FormValues(
        t.title,
        if t.description.Some? then t.description.value else "",
        t.status,
        if t.dueDate.Some? then Picked(t.dueDate.value) else NoDate)
  }

  /** The form state `useForm` keeps. */
  class TaskForm {
    var values: FormValues

    constructor()
      ensures values == DefaultValues
    {
      values := DefaultValues;
    }

    /** The effect that runs when `isOpen` or `task` changes: it resets the form only while open. */
    method Sync(isOpen: bool, task: Option<Task>)
      modifies this
      ensures values == if isOpen then ResetValues(task) else old(values)
    {
      if isOpen {
        values := ResetValues(task);
      }
    }
  }

  /** The form's values as the create-schema resolver receives them; an `undefined` date is no key at all. */
  function FormPayload(v: FormValues): Payload {
    var p := CreatePayload(CreateTask(v.title, Some(v.description), v.status, DueOf(v.dueDate)));
    if v.dueDate.Cleared? then p - {"dueDate"} else p
  }

  /** `collection(firestore, 'users', uid, 'tasks')` */
  function TasksPath(uid: string): seq<string> {
    ["users", uid, "tasks"]
  }

  /** `doc(firestore, 'users', uid, 'tasks', id)` */
  function TaskDocPath(uid: string, id: string): seq<string> {
    TasksPath(uid) + [id]
  }

  /** The fields written; `serverCreatedAt` is the `createdAt: serverTimestamp()` of a create. */
  datatype WriteFields = WriteFields(
    title: string,
    description: Option<string>,
    status: Status,
    dueDate: Option<int>,
    serverCreatedAt: bool)

  datatype Write = UpdateDoc(path: seq<string>, fields: WriteFields) | AddDoc(path: seq<string>, fields: WriteFields)

  datatype Notice = Notice(title: string, description: string, destructive: bool)

  /**
   * What a submit does: the write issued, the toast shown, and the
   * `refresh` argument `handleDialogClose` receives if the dialog is closed
   * (`onClose()` passes none, which is falsy).
   */
  datatype SubmitOutcome = SubmitOutcome(write: Option<Write>, notice: Option<Notice>, close: Option<bool>)

  /** `onSubmit`, for form data the create schema has accepted. */
  function OnSubmit(uid: Option<string>, task: Option<Task>, data: CreateTask, throws: bool): (o: SubmitOutcome)
    ensures uid.None? ==> o == SubmitOutcome(None, None, None)
    ensures uid.Some? ==> o.close == Some(false) && o.notice.Some?
    ensures o.write.Some? <==> uid.Some? && !throws
    ensures o.write.Some? ==> o.write.value.fields.title == data.title && o.write.value.fields.status == data.status
    ensures o.write.Some? ==> o.write.value.fields.dueDate == data.dueDate
    ensures o.write.Some? && task.Some? ==>
      o.write.value.UpdateDoc? && o.write.value.path == TaskDocPath(uid.value, task.value.id)
      && !o.write.value.fields.serverCreatedAt
    ensures o.write.Some? && task.None? ==>
      o.write.value.AddDoc? && o.write.value.path == TasksPath(uid.value) && o.write.value.fields.serverCreatedAt
    ensures o.notice.Some? ==> (o.notice.value.destructive <==> throws)
  {
    if uid.None? then SubmitOutcome(None, None, None)
    else if throws then
      var action := if task.Some? then "update" else "create";
      SubmitOutcome(None, Some(Notice("Error", "Could not " + action + " task.", true)), Some(false))
    else
      var due := if data.dueDate.Some? then data.dueDate else None;
      var write :=
        if task.Some? then
          UpdateDoc(TaskDocPath(uid.value, task.value.id), WriteFields(data.title, data.description, data.status, due, false))
        else
          AddDoc(TasksPath(uid.value), WriteFields(data.title, data.description, data.status, due, true));
      var done := if task.Some? then "updated" else "created";
      SubmitOutcome(Some(write), Some(Notice("Success!", "Task has been " + done + ".", false)), Some(false))
  }

  datatype SubmitResult = Rejected(issues: seq<Issue>) | Submitted(outcome: SubmitOutcome)

  /**
   * `form.handleSubmit(onSubmit)`: validate with the create schema, submit
   * only when valid. An empty title or a cleared due date blocks the submit.
   */
  function SubmitForm(v: FormValues, uid: Option<string>, task: Option<Task>, throws: bool): (r: SubmitResult)
    ensures r.Rejected? <==> |v.title| == 0 || v.dueDate.Cleared?
    ensures r.Rejected? && |v.title| == 0 ==> Issue("title", TooSmall(TitleRequired)) in r.issues
    ensures r.Rejected? && v.dueDate.Cleared? ==> Issue("dueDate", Required) in r.issues
    ensures r.Submitted? ==> r.outcome == OnSubmit(uid, task, CreateTask(v.title, Some(v.description), v.status, DueOf(v.dueDate)), throws)
  {
    FormPayloadParses(v);
    match ParseCreateTask(FormPayload(v))
    case Failure(e) => Rejected(e)
    case Success(data) => Submitted(OnSubmit(uid, task, data, throws))
  }

  // ---- properties -----------------------------------------------------------

  /** The issues of a rejected form: the title's first, then the due date's. */
  function FormIssues(v: FormValues): seq<Issue> {
    (if |v.title| == 0 then [Issue("title", TooSmall(TitleRequired))] else [])
    + (if v.dueDate.Cleared? then [Issue("dueDate", Required)] else [])
  }

  /**
   * The resolver accepts the form exactly when the title is not empty and
   * the due date is not cleared, and then yields the form's values;
   * otherwise it reports one issue per failing field.
   */
  lemma FormPayloadParses(v: FormValues)
    ensures ParseCreateTask(FormPayload(v)) ==
      if |v.title| >= 1 && !v.dueDate.Cleared? then
        Success(CreateTask(v.title, Some(v.description), v.status, DueOf(v.dueDate)))
      else Failure(FormIssues(v))
  {
    StatusLabelsRoundTrip(Label(v.status));
    var c := CreateTask(v.title, Some(v.description), v.status, DueOf(v.dueDate));
    var p := FormPayload(v);
    if |v.title| >= 1 && !v.dueDate.Cleared? {
      CreatePayloadRoundTrip(c);
    } else {
      var title, description, status, dueDate :=
        TitleField(p, "title"), OptionalStringField(p, "description"),
        DefaultedStatusField(p, "status"), NullableDateField(p, "dueDate");
      assert IssuesOf(title) == if |v.title| == 0 then [Issue("title", TooSmall(TitleRequired))] else [];
      assert description.Success? && status.Success?;
      assert IssuesOf(dueDate) == if v.dueDate.Cleared? then [Issue("dueDate", Required)] else [];
      assert IssuesOf(title) + IssuesOf(description) + IssuesOf(status) + IssuesOf(dueDate) == FormIssues(v);
    }
  }

  /** A valid form submits exactly what it holds; the description travels as given, even when empty. */
  lemma ValidFormWritesItsValues(v: FormValues, uid: string, task: Option<Task>)
    requires |v.title| >= 1 && !v.dueDate.Cleared?
    ensures SubmitForm(v, Some(uid), task, false).Submitted?
    ensures SubmitForm(v, Some(uid), task, false).outcome.write.Some?
    ensures SubmitForm(v, Some(uid), task, false).outcome.write.value.fields ==
      WriteFields(v.title, Some(v.description), v.status, DueOf(v.dueDate), task.None?)
  {
    FormPayloadParses(v);
  }

  /**
   * Clicking the picked day again clears the date, and then the form can
   * no longer be saved, whatever its title: the date is reported as required.
   */
  lemma DeselectedDateBlocksSave(v: FormValues, uid: Option<string>, task: Option<Task>, throws: bool)
    requires v.dueDate.Picked?
    ensures var cleared := v.(dueDate := SelectDay(v.dueDate, v.dueDate.time));
      SubmitForm(cleared, uid, task, throws).Rejected?
      && Issue("dueDate", Required) in SubmitForm(cleared, uid, task, throws).issues
  {
  }

  /** Saving a new task without typing a title is refused and writes nothing. */
  lemma NewTaskNeedsTitle(uid: Option<string>, throws: bool)
    ensures SubmitForm(ResetValues(None), uid, None, throws).Rejected?
  {
  }

  /**
   * Opening a task for editing and saving it untouched writes its own
   * title, status and due date back to its own document.
   */
  lemma EditUnchangedWritesBack(t: Task, uid: string)
    requires |t.title| >= 1
    ensures SubmitForm(ResetValues(Some(t)), Some(uid), Some(t), false) ==
      Submitted(SubmitOutcome(
        Some(UpdateDoc(TaskDocPath(uid, t.id), WriteFields(
          t.title,
          Some(if t.description.Some? then t.description.value else ""),
          t.status,
          t.dueDate,
          false))),
        Some(Notice("Success!", "Task has been updated.", false)),
        Some(false)))
  {
    var v := ResetValues(Some(t));
    FormPayloadParses(v);
    assert "Task has been " + "updated" + "." == "Task has been updated.";
  }

  /** Closing the dialog after a submit never makes the dashboard fetch again. */
  method SubmitAndClose(board: TaskDashboard.Dashboard, v: FormValues, uid: string, task: Option<Task>, throws: bool)
    returns (refetch: bool)
    modifies board
    ensures !refetch
    ensures |v.title| >= 1 && !v.dueDate.Cleared? ==> !board.isDialogOpen && board.editingTask == None
  {
    var result := SubmitForm(v, Some(uid), task, throws);
    refetch := false;
    if result.Submitted? {
      refetch := board.CloseDialog(result.outcome.close.value);
    }
  }
}
