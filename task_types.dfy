/**
 * The task record and its validators (`src/types/index.ts`): the status
 * enumeration, `TaskSchema`, and the derived `CreateTaskSchema` (the task
 * fields without `id`, `userId` and `createdAt`) and `UpdateTaskSchema`
 * (every create field optional).
 *
 * An untyped payload is a map from keys to values; a key that is not in the
 * map is `undefined`. Validation follows zod: each field is checked in the
 * order the schema declares it, every failing field contributes one issue,
 * keys the schema does not name are dropped.
 */
module TaskTypes {
  import opened Wrappers

  /** `taskStatus`. */
  datatype Status = ToDo | InProgress | Completed

  /** The statuses in the order the `taskStatus` array lists them. */
  const TaskStatuses: seq<Status> := [ToDo, InProgress, Completed]

  /** The text of a status as it travels in payloads and is displayed. */
  function Label(s: Status): string {
    match s
    case ToDo => "To Do"
    case InProgress => "In Progress"
    case Completed => "Completed"
  }

  /** `z.enum(taskStatus)` applied to a string: the status with that label, if any. */
  function ParseStatus(x: string): (r: Option<Status>)
    ensures r.Some? ==> Label(r.value) == x
    ensures r.None? ==> forall s :: Label(s) != x
  {
    if x == "To Do" then Some(ToDo)
    else if x == "In Progress" then Some(InProgress)
    else if x == "Completed" then Some(Completed)
    else None
  }

  /** A validated task (`Task`); due dates and creation times are timestamps. */
  datatype Task = Task(
    id: string,
    title: string,
    description: Option<string>,
    status: Status,
    dueDate: Option<int>,
    userId: string,
    createdAt: int)

  /** A validated create payload (`CreateTask`). */
  datatype CreateTask = CreateTask(
    title: string,
    description: Option<string>,
    status: Status,
    dueDate: Option<int>)

  /**
   * A validated partial update (`UpdateTask`): `None` is a field left out.
   * For `dueDate`, `Some(None)` is an explicit null.
   */
  datatype UpdateTask = UpdateTask(
    title: Option<string>,
    description: Option<string>,
    status: Option<Status>,
    dueDate: Option<Option<int>>)

  /** A value of an untyped payload: a string, a date, null, or anything else. */
  datatype Value = Str(text: string) | DateValue(time: int) | Null | Other

  type Payload = map<string, Value>

  datatype IssueCode = Required | InvalidType | TooSmall(message: string) | InvalidEnumValue

  /** One validation failure, at the key `path`. */
  datatype Issue = Issue(path: string, code: IssueCode)

  type Checked<T> = Result<T, seq<Issue>>

  const TitleRequired: string := "Title is required"

  function IssuesOf<T>(c: Checked<T>): seq<Issue> {
    if c.Failure? then c.error else []
  }

  /** A field check that fails reports exactly one issue, at its own key. */
  ghost predicate OneIssueAt<T>(c: Checked<T>, key: string) {
    c.Failure? ==> |c.error| == 1 && c.error[0].path == key
  }

  // ---- field checks ---------------------------------------------------------

  /** `z.string()` */
  function StringField(p: Payload, key: string): (r: Checked<string>)
    ensures OneIssueAt(r, key)
  {
    if key !in p then Failure([Issue(key, Required)])
    else if p[key].Str? then Success(p[key].text)
    else Failure([Issue(key, InvalidType)])
  }

  /** `z.string().min(1, 'Title is required')` */
  function TitleField(p: Payload, key: string): (r: Checked<string>)
    ensures OneIssueAt(r, key)
  {
    match StringField(p, key)
    case Failure(e) => Failure(e)
    case Success(t) => if |t| < 1 then Failure([Issue(key, TooSmall(TitleRequired))]) else Success(t)
  }

  /** `z.string().optional()`: `undefined` passes, `null` does not. */
  function OptionalStringField(p: Payload, key: string): (r: Checked<Option<string>>)
    ensures OneIssueAt(r, key)
  {
    if key !in p then Success(None)
    else if p[key].Str? then Success(Some(p[key].text))
    else Failure([Issue(key, InvalidType)])
  }

  /** `z.enum(taskStatus)` */
  function StatusField(p: Payload, key: string): (r: Checked<Status>)
    ensures OneIssueAt(r, key)
  {
    if key !in p then Failure([Issue(key, Required)])
    else match p[key]
      case Str(x) =>
        (match ParseStatus(x)
         case Some(s) => Success(s)
         case None => Failure([Issue(key, InvalidEnumValue)]))
      case _ => Failure([Issue(key, InvalidType)])
  }

  /** `z.enum(taskStatus).default('To Do')`: only `undefined` is replaced. */
  function DefaultedStatusField(p: Payload, key: string): (r: Checked<Status>)
    ensures OneIssueAt(r, key)
  {
    if key !in p then Success(ToDo) else StatusField(p, key)
  }

  /** `z.date().nullable()`: a date or null, but not `undefined`. */
  function NullableDateField(p: Payload, key: string): (r: Checked<Option<int>>)
    ensures OneIssueAt(r, key)
  {
    if key !in p then Failure([Issue(key, Required)])
    else match p[key]
      case Null => Success(None)
      case DateValue(t) => Success(Some(t))
      case _ => Failure([Issue(key, InvalidType)])
  }

  /** `z.date()` */
  function DateField(p: Payload, key: string): (r: Checked<int>)
    ensures OneIssueAt(r, key)
  {
    if key !in p then Failure([Issue(key, Required)])
    else if p[key].DateValue? then Success(p[key].time)
    else Failure([Issue(key, InvalidType)])
  }

  /**
   * `.optional()` around a check: when the key is absent the inner check
   * (and any default it carries) is not run.
   */
  function OptionalField<T>(p: Payload, key: string, inner: Checked<T>): (r: Checked<Option<T>>)
    requires OneIssueAt(inner, key)
    ensures OneIssueAt(r, key)
  {
    if key !in p then Success(None)
    else match inner
      case Success(v) => Success(Some(v))
      case Failure(e) => Failure(e)
  }

  // ---- schemas --------------------------------------------------------------

  /** `TaskSchema.parse` */
  function ParseTask(p: Payload): (r: Checked<Task>)
    ensures r.Success? ==> |r.value.title| >= 1
    ensures r.Success? ==>
      "id" in p && p["id"] == Str(r.value.id) && "userId" in p && p["userId"] == Str(r.value.userId)
      && "createdAt" in p && p["createdAt"] == DateValue(r.value.createdAt)
    ensures r.Failure? ==> r.error != []
  {
    var id := StringField(p, "id");
    var title := TitleField(p, "title");
    var description := OptionalStringField(p, "description");
    var status := DefaultedStatusField(p, "status");
    var dueDate := NullableDateField(p, "dueDate");
    var userId := StringField(p, "userId");
    var createdAt := DateField(p, "createdAt");
    if id.Success? && title.Success? && description.Success? && status.Success?
       && dueDate.Success? && userId.Success? && createdAt.Success?
    then
      Success(Task(id.value, title.value, description.value, status.value,
                   dueDate.value, userId.value, createdAt.value))
    else
      Failure(IssuesOf(id) + IssuesOf(title) + IssuesOf(description) + IssuesOf(status)
              + IssuesOf(dueDate) + IssuesOf(userId) + IssuesOf(createdAt))
  }

  /** `CreateTaskSchema.parse`: `TaskSchema` without `id`, `userId`, `createdAt`. */
  function ParseCreateTask(p: Payload): (r: Checked<CreateTask>)
    ensures r.Success? ==> |r.value.title| >= 1
    ensures r.Failure? ==> r.error != []
  {
    var title := TitleField(p, "title");
    var description := OptionalStringField(p, "description");
    var status := DefaultedStatusField(p, "status");
    var dueDate := NullableDateField(p, "dueDate");
    if title.Success? && description.Success? && status.Success? && dueDate.Success? then
      Success(CreateTask(title.value, description.value, status.value, dueDate.value))
    else
      Failure(IssuesOf(title) + IssuesOf(description) + IssuesOf(status) + IssuesOf(dueDate))
  }

  /** `UpdateTaskSchema.parse`: every create field optional, no default applied. */
  function ParseUpdateTask(p: Payload): (r: Checked<UpdateTask>)
    ensures r.Success? ==> (r.value.title.Some? <==> "title" in p)
    ensures r.Success? ==> (r.value.status.Some? <==> "status" in p)
    ensures r.Success? && r.value.title.Some? ==> |r.value.title.value| >= 1
    ensures r.Failure? ==> r.error != []
  {
    var title := OptionalField(p, "title", TitleField(p, "title"));
    var description := OptionalStringField(p, "description");
    var status := OptionalField(p, "status", StatusField(p, "status"));
    var dueDate := OptionalField(p, "dueDate", NullableDateField(p, "dueDate"));
    if title.Success? && description.Success? && status.Success? && dueDate.Success? then
      Success(UpdateTask(title.value, description.value, status.value, dueDate.value))
    else
      Failure(IssuesOf(title) + IssuesOf(description) + IssuesOf(status) + IssuesOf(dueDate))
  }

  /** The task without the fields the server assigns. */
  function WithoutServerFields(t: Task): CreateTask {
    CreateTask(t.title, t.description, t.status, t.dueDate)
  }

  /**
   * `c` as the dialog's form holds it: the due date as a `Date` object,
   * the description left out when absent.
   */
  function CreatePayload(c: CreateTask): Payload {
    var due := if c.dueDate.Some? then DateValue(c.dueDate.value) else Null;
    var fields := map["title" := Str(c.title), "status" := Str(Label(c.status)), "dueDate" := due];
    if c.description.Some? then fields["description" := Str(c.description.value)] else fields
  }

  const CreateKeys: set<string> := {"title", "description", "status", "dueDate"}

  /** A payload `JSON.parse` can produce: JSON has strings and null but no dates. */
  predicate JsonPayload(p: Payload) {
    forall k :: k in p ==> !p[k].DateValue?
  }

  // ---- properties -----------------------------------------------------------

  /** Labels and `ParseStatus` are inverse; exactly the three labels are accepted. */
  lemma StatusLabelsRoundTrip(x: string)
    ensures forall s :: ParseStatus(Label(s)) == Some(s)
    ensures ParseStatus(x).Some? <==> x in {"To Do", "In Progress", "Completed"}
    ensures forall s :: s in TaskStatuses
    ensures |TaskStatuses| == 3
  {
    forall s ensures s in TaskStatuses {
      match s
      case ToDo => assert TaskStatuses[0] == s;
      case InProgress => assert TaskStatuses[1] == s;
      case Completed => assert TaskStatuses[2] == s;
    }
    forall s ensures ParseStatus(Label(s)) == Some(s) {
      match s
      case ToDo =>
      case InProgress => assert Label(s) != "To Do";
      case Completed => assert Label(s) != "To Do" && Label(s) != "In Progress";
    }
  }

  /** An empty title is rejected with "Title is required"; any other string title passes. */
  lemma TitleRule(p: Payload)
    requires "title" in p && p["title"].Str?
    ensures |p["title"].text| == 0 ==>
      ParseCreateTask(p).Failure? && Issue("title", TooSmall(TitleRequired)) in ParseCreateTask(p).error
    ensures |p["title"].text| >= 1 ==>
      forall i :: 0 <= i < |IssuesOf(ParseCreateTask(p))| ==> IssuesOf(ParseCreateTask(p))[i].path != "title"
  {
  }

  /** An absent status becomes `To Do`; a string that is not a status label is rejected. */
  lemma StatusRule(p: Payload)
    ensures "status" !in p && ParseCreateTask(p).Success? ==> ParseCreateTask(p).value.status == ToDo
    ensures "status" in p && p["status"].Str? && ParseStatus(p["status"].text).None? ==>
      ParseCreateTask(p).Failure? && Issue("status", InvalidEnumValue) in ParseCreateTask(p).error
    ensures "status" in p && ParseCreateTask(p).Success? ==>
      p["status"] == Str(Label(ParseCreateTask(p).value.status))
  {
  }

  /** `description` may be absent; `dueDate` must be present, as a date or as null. */
  lemma OptionalFieldsRule(p: Payload)
    ensures "description" !in p ==>
      forall i :: 0 <= i < |IssuesOf(ParseCreateTask(p))| ==> IssuesOf(ParseCreateTask(p))[i].path != "description"
    ensures "dueDate" !in p ==>
      ParseCreateTask(p).Failure? && Issue("dueDate", Required) in ParseCreateTask(p).error
    ensures "dueDate" in p && p["dueDate"] == Null && ParseCreateTask(p).Success? ==>
      ParseCreateTask(p).value.dueDate == None
  {
  }

  /**
   * The create schema is the task schema without `id`, `userId` and
   * `createdAt`: the task's issues are the create issues with those three
   * fields' issues around them, and a valid task yields its create part.
   */
  lemma CreateIsTaskWithoutServerFields(p: Payload)
    ensures IssuesOf(ParseTask(p)) ==
      IssuesOf(StringField(p, "id")) + IssuesOf(ParseCreateTask(p))
      + IssuesOf(StringField(p, "userId")) + IssuesOf(DateField(p, "createdAt"))
    ensures ParseTask(p).Success? ==> ParseCreateTask(p) == Success(WithoutServerFields(ParseTask(p).value))
    ensures ParseTask(p).Success? <==>
      ParseCreateTask(p).Success? && StringField(p, "id").Success?
      && StringField(p, "userId").Success? && DateField(p, "createdAt").Success?
  {
    var id, userId, createdAt := StringField(p, "id"), StringField(p, "userId"), DateField(p, "createdAt");
    var title, description := TitleField(p, "title"), OptionalStringField(p, "description");
    var status, dueDate := DefaultedStatusField(p, "status"), NullableDateField(p, "dueDate");
    var createIssues := IssuesOf(title) + IssuesOf(description) + IssuesOf(status) + IssuesOf(dueDate);
    assert IssuesOf(ParseCreateTask(p)) == createIssues;
    assert IssuesOf(ParseTask(p)) ==
      IssuesOf(id) + IssuesOf(title) + IssuesOf(description) + IssuesOf(status)
      + IssuesOf(dueDate) + IssuesOf(userId) + IssuesOf(createdAt);
    assert IssuesOf(id) + IssuesOf(title) + IssuesOf(description) + IssuesOf(status)
      + IssuesOf(dueDate) + IssuesOf(userId) + IssuesOf(createdAt)
      == IssuesOf(id) + createIssues + IssuesOf(userId) + IssuesOf(createdAt);
  }

  /** The create schema looks only at its four keys; every other key is stripped. */
  lemma CreateIgnoresOtherKeys(p: Payload, q: Payload)
    requires forall k :: k in CreateKeys ==> (k in p <==> k in q)
    requires forall k :: k in CreateKeys && k in p ==> p[k] == q[k]
    ensures ParseCreateTask(p) == ParseCreateTask(q)
  {
    assert "title" in CreateKeys && "description" in CreateKeys;
    assert "status" in CreateKeys && "dueDate" in CreateKeys;
  }

  /** Validating the body a client builds for `c` gives `c` back. */
  lemma CreatePayloadRoundTrip(c: CreateTask)
    requires |c.title| >= 1
    ensures ParseCreateTask(CreatePayload(c)) == Success(c)
  {
    StatusLabelsRoundTrip(Label(c.status));
  }

  /** The empty payload is a valid update that changes nothing. */
  lemma EmptyUpdateIsValid()
    ensures ParseUpdateTask(map[]) == Success(UpdateTask(None, None, None, None))
  {
  }

  /**
   * Every valid create payload is a valid update payload with the same
   * fields, except that an absent status stays absent instead of
   * defaulting to `To Do`.
   */
  lemma CreatePayloadIsValidUpdate(p: Payload)
    requires ParseCreateTask(p).Success?
    ensures ParseUpdateTask(p) == Success(UpdateTask(
      Some(ParseCreateTask(p).value.title),
      ParseCreateTask(p).value.description,
      if "status" in p then Some(ParseCreateTask(p).value.status) else None,
      Some(ParseCreateTask(p).value.dueDate)))
  {
  }

  /**
   * `z.date()` accepts only a `Date` object, which a JSON body cannot hold:
   * a JSON body validates only with a null due date.
   */
  lemma JsonCreateIsUndated(p: Payload)
    requires JsonPayload(p)
    ensures ParseCreateTask(p).Success? ==> ParseCreateTask(p).value.dueDate.None?
    ensures "dueDate" in p && p["dueDate"] != Null ==> ParseCreateTask(p).Failure?
  {
    if "dueDate" in p {
      assert !p["dueDate"].DateValue?;
    }
  }

  /**
   * `CreateTaskSchema.partial()` for every payload: each create key may be
   * left out, a key that is present must pass its create rule (with no
   * default for `status`), and each present value is the payload's own.
   */
  lemma UpdateFieldsRule(p: Payload)
    ensures ParseUpdateTask(p).Success? <==>
      ("title" !in p || (p["title"].Str? && |p["title"].text| >= 1))
      && ("description" !in p || p["description"].Str?)
      && ("status" !in p || (p["status"].Str? && ParseStatus(p["status"].text).Some?))
      && ("dueDate" !in p || p["dueDate"] == Null || p["dueDate"].DateValue?)
    ensures ParseUpdateTask(p).Success? ==>
      var u := ParseUpdateTask(p).value;
      (u.title.Some? ==> p["title"] == Str(u.title.value))
      && (u.description.Some? <==> "description" in p)
      && (u.description.Some? ==> p["description"] == Str(u.description.value))
      && (u.status.Some? ==> p["status"] == Str(Label(u.status.value)))
      && (u.dueDate.Some? <==> "dueDate" in p)
      && (u.dueDate == Some(None) <==> "dueDate" in p && p["dueDate"] == Null)
      && (u.dueDate.Some? && u.dueDate.value.Some? ==> p["dueDate"] == DateValue(u.dueDate.value.value))
  {
    if "status" in p && p["status"].Str? {
      StatusLabelsRoundTrip(p["status"].text);
    }
  }

  /** The dashboard's status-only body `{ status }` is a valid update that sets the status and nothing else. */
  lemma StatusOnlyUpdate(s: Status)
    ensures ParseUpdateTask(map["status" := Str(Label(s))]) == Success(UpdateTask(None, None, Some(s), None))
  {
    StatusLabelsRoundTrip(Label(s));
  }
}
