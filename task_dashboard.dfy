/**
 * The view-state controller of the task dashboard
 * (`src/components/task-dashboard.tsx`): the list of tasks, the set of
 * active status filters, the sort direction and the dialog state, the
 * derived view (filter by status, then sort by due date with undated tasks
 * last), and the optimistic status change with its revert.
 *
 * Requests to the API are not sent: a status change returns the request it
 * would send, and its outcome is an input of the step that settles it.
 */
module TaskDashboard {
  import opened Wrappers
  import opened TaskTypes

  /** `new Set(taskStatus)` */
  const AllStatuses: set<Status> := {ToDo, InProgress, Completed}

  /**
   * The comparator handed to `sort`: positive when `a` should come after
   * `b`. It answers 1 whenever `a` has no due date, even when `b` has none
   * either, so it orders two undated tasks both ways.
   */
  function Compare(a: Task, b: Task, asc: bool): (r: int)
    ensures a.dueDate.None? ==> r == 1
    ensures a.dueDate.Some? && b.dueDate.None? ==> r == -1
    ensures a.dueDate.Some? && b.dueDate.Some? ==>
      (r < 0 <==> if asc then a.dueDate.value < b.dueDate.value else b.dueDate.value < a.dueDate.value)
      && (r == 0 <==> a.dueDate.value == b.dueDate.value)
  {
    if a.dueDate.None? then 1
    else if b.dueDate.None? then -1
    else if asc then a.dueDate.value - b.dueDate.value
    else b.dueDate.value - a.dueDate.value
  }

  /** `a` may stand before `b`: dated before undated, dated ones by time in the chosen direction. */
  predicate InOrder(a: Task, b: Task, asc: bool) {
    match (a.dueDate, b.dueDate)
    case (Some(x), Some(y)) => if asc then x <= y else y <= x
    case (Some(_), None) => true
    case (None, None) => true
    case (None, Some(_)) => false
  }

  predicate SortedByDueDate(s: seq<Task>, asc: bool) {
    forall i, j :: 0 <= i < j < |s| ==> InOrder(s[i], s[j], asc)
  }

  /** Where the comparator does not say "after", `a` may precede `b`, and the other way round. */
  lemma CompareDecidesOrder(a: Task, b: Task, asc: bool)
    ensures Compare(a, b, asc) <= 0 ==> InOrder(a, b, asc)
    ensures Compare(a, b, asc) > 0 ==> InOrder(b, a, asc)
  {
  }

  /** Two undated tasks each compare as "after" the other: their order is left to `sort`. */
  lemma UndatedCompareBothWays(a: Task, b: Task, asc: bool)
    requires a.dueDate.None? && b.dueDate.None?
    ensures Compare(a, b, asc) == 1 && Compare(b, a, asc) == 1
  {
  }

  lemma InOrderTransitive(a: Task, b: Task, c: Task, asc: bool)
    requires InOrder(a, b, asc) && InOrder(b, c, asc)
    ensures InOrder(a, c, asc)
  {
  }

  /** A sorted list stays sorted under a new head that may precede all of it. */
  lemma ConsSorted(x: Task, rest: seq<Task>, asc: bool)
    requires SortedByDueDate(rest, asc)
    requires forall y :: y in rest ==> InOrder(x, y, asc)
    ensures SortedByDueDate([x] + rest, asc)
  {
    var r := [x] + rest;
    forall i, j | 0 <= i < j < |r| ensures InOrder(r[i], r[j], asc) {
      if i == 0 {
        assert r[j] == rest[j - 1];
        assert rest[j - 1] in rest;
      } else {
        assert r[i] == rest[i - 1] && r[j] == rest[j - 1];
      }
    }
  }

  /** Inserts `t` before the first element the comparator does not put it after. */
  function Insert(t: Task, s: seq<Task>, asc: bool): (r: seq<Task>)
    requires SortedByDueDate(s, asc)
    ensures multiset(r) == multiset(s) + multiset{t}
    ensures SortedByDueDate(r, asc)
  {
    if s == [] then [t]
    else if Compare(t, s[0], asc) <= 0 then
      InsertAtHead(t, s, asc);
      [t] + s
    else
      var rest := Insert(t, s[1..], asc);
      InsertBehindHead(t, s, rest, asc);
      [s[0]] + rest
  }

  lemma InsertAtHead(t: Task, s: seq<Task>, asc: bool)
    requires SortedByDueDate(s, asc) && s != [] && Compare(t, s[0], asc) <= 0
    ensures SortedByDueDate([t] + s, asc)
  {
    CompareDecidesOrder(t, s[0], asc);
    forall y | y in s ensures InOrder(t, y, asc) {
      var j :| 0 <= j < |s| && s[j] == y;
      if j > 0 {
        InOrderTransitive(t, s[0], y, asc);
      }
    }
    ConsSorted(t, s, asc);
  }

  lemma InsertBehindHead(t: Task, s: seq<Task>, rest: seq<Task>, asc: bool)
    requires SortedByDueDate(s, asc) && s != [] && Compare(t, s[0], asc) > 0
    requires SortedByDueDate(rest, asc)
    requires multiset(rest) == multiset(s[1..]) + multiset{t}
    ensures SortedByDueDate([s[0]] + rest, asc)
    ensures multiset([s[0]] + rest) == multiset(s) + multiset{t}
  {
    CompareDecidesOrder(t, s[0], asc);
    assert s == [s[0]] + s[1..];
    forall y | y in rest ensures InOrder(s[0], y, asc) {
      assert y in multiset(rest);
      if y != t {
        assert y in s[1..];
        var j :| 0 <= j < |s[1..]| && s[1..][j] == y;
        assert s[j + 1] == y;
      }
    }
    ConsSorted(s[0], rest, asc);
  }

  /** `sort` with the comparator, as an insertion sort. */
  function SortByDueDate(s: seq<Task>, asc: bool): (r: seq<Task>)
    ensures multiset(r) == multiset(s)
    ensures SortedByDueDate(r, asc)
  {
    if s == [] then []
    else
      assert s == [s[0]] + s[1..];
      Insert(s[0], SortByDueDate(s[1..], asc), asc)
  }

  /** `filter((task) => statusFilters.has(task.status))` */
  function FilterByStatus(tasks: seq<Task>, filters: set<Status>): (r: seq<Task>)
    ensures forall t :: multiset(r)[t] == if t.status in filters then multiset(tasks)[t] else 0
  {
    if tasks == [] then []
    else
      assert tasks == [tasks[0]] + tasks[1..];
      (if tasks[0].status in filters then [tasks[0]] else []) + FilterByStatus(tasks[1..], filters)
  }

  /**
   * `filteredAndSortedTasks`: every task whose status is an active filter,
   * each as often as in the list and no other, dated tasks first, dated
   * tasks by time in the chosen direction.
   */
  function FilteredAndSorted(tasks: seq<Task>, filters: set<Status>, asc: bool): (view: seq<Task>)
    ensures forall t :: multiset(view)[t] == if t.status in filters then multiset(tasks)[t] else 0
    ensures forall i, j :: 0 <= i < j < |view| && view[i].dueDate.None? ==> view[j].dueDate.None?
    ensures forall i, j :: 0 <= i < j < |view| && view[i].dueDate.Some? && view[j].dueDate.Some? ==>
      if asc then view[i].dueDate.value <= view[j].dueDate.value
      else view[i].dueDate.value >= view[j].dueDate.value
  {
    SortByDueDate(FilterByStatus(tasks, filters), asc)
  }

  /**
   * The optimistic list of `handleUpdateTaskStatus`: every task whose id is
   * `id` takes `status`; nothing else changes.
   */
  function WithStatus(tasks: seq<Task>, id: string, status: Status): (r: seq<Task>)
    ensures |r| == |tasks|
    ensures forall i :: 0 <= i < |tasks| ==> r[i].(status := tasks[i].status) == tasks[i]
    ensures forall i :: 0 <= i < |tasks| ==>
      r[i].status == if tasks[i].id == id then status else tasks[i].status
  {
    seq(|tasks|, i requires 0 <= i < |tasks| =>
      if tasks[i].id == id then tasks[i].(status := status) else tasks[i])
  }

  /** Applying the same status change twice is applying it once. */
  lemma WithStatusIdempotent(tasks: seq<Task>, id: string, status: Status)
    ensures WithStatus(WithStatus(tasks, id, status), id, status) == WithStatus(tasks, id, status)
  {
  }

  /** A change to the status the task already has leaves the list as it is. */
  lemma WithCurrentStatusIsIdentity(tasks: seq<Task>, id: string, status: Status)
    requires forall t :: t in tasks && t.id == id ==> t.status == status
    ensures WithStatus(tasks, id, status) == tasks
  {
    var r := WithStatus(tasks, id, status);
    forall i | 0 <= i < |tasks| ensures r[i] == tasks[i] {
      assert tasks[i] in tasks;
    }
  }

  /**
   * After the optimistic change the view shows the task with its new
   * status, and hides it altogether when that status is filtered out.
   */
  lemma OptimisticChangeInView(tasks: seq<Task>, id: string, status: Status, filters: set<Status>, asc: bool)
    ensures forall t :: t in FilteredAndSorted(WithStatus(tasks, id, status), filters, asc) && t.id == id ==>
      t.status == status
    ensures status !in filters ==>
      forall t :: t in FilteredAndSorted(WithStatus(tasks, id, status), filters, asc) ==> t.id != id
  {
    var changed := WithStatus(tasks, id, status);
    var view := FilteredAndSorted(changed, filters, asc);
    forall t | t in view && t.id == id ensures t.status == status {
      assert multiset(view)[t] > 0;
      assert t in changed;
      var i :| 0 <= i < |changed| && changed[i] == t;
    }
  }

  /** A status change in flight: the request and the list to restore if it fails. */
  datatype PendingUpdate = PendingUpdate(taskId: string, status: Status, snapshot: seq<Task>)

  /** The dashboard's state and its handlers. */
  class Dashboard {
    var tasks: seq<Task>
    var statusFilters: set<Status>
    var sortAsc: bool
    var isDialogOpen: bool
    var editingTask: Option<Task>

    /** Nothing loaded, all three statuses shown, ascending order, dialog closed. */
    constructor()
      ensures tasks == [] && statusFilters == AllStatuses && sortAsc
      ensures !isDialogOpen && editingTask == None
    {
      tasks := [];
      statusFilters := AllStatuses;
      sortAsc := true;
      isDialogOpen := false;
      editingTask := None;
    }

    /**
     * The list `TaskList` renders: exactly the tasks whose status is an
     * active filter, sorted by due date in the current direction.
     */
    function Visible(): (view: seq<Task>)
      reads this
      ensures forall t :: t in view <==> t in tasks && t.status in statusFilters
      ensures SortedByDueDate(view, sortAsc)
    {
      var view := FilteredAndSorted(tasks, statusFilters, sortAsc);
      assert forall t :: t in view <==> multiset(view)[t] > 0;
      assert forall t :: t in tasks <==> multiset(tasks)[t] > 0;
      view
    }

    /** `setTasks(data)` after a successful fetch. */
    method ReceiveTasks(data: seq<Task>)
      modifies this
      ensures tasks == data
      ensures statusFilters == old(statusFilters) && sortAsc == old(sortAsc)
      ensures isDialogOpen == old(isDialogOpen) && editingTask == old(editingTask)
    {
      tasks := data;
    }

    /** `handleOpenDialog`: `None` opens the dialog for a new task. */
    method OpenDialog(task: Option<Task>)
      modifies this
      ensures isDialogOpen && editingTask == task
      ensures tasks == old(tasks) && statusFilters == old(statusFilters) && sortAsc == old(sortAsc)
    {
      editingTask := task;
      isDialogOpen := true;
    }

    /** `handleDialogClose`: closes the dialog; the answer says whether tasks are fetched again. */
    method CloseDialog(refresh: bool) returns (refetch: bool)
      modifies this
      ensures !isDialogOpen && editingTask == None
      ensures refetch == refresh
      ensures tasks == old(tasks) && statusFilters == old(statusFilters) && sortAsc == old(sortAsc)
    {
      isDialogOpen := false;
      editingTask := None;
      refetch := refresh;
    }

    /** The filter menu's checkbox for `status`: a copy of the set with it added or removed. */
    method SetStatusFilter(status: Status, checked: bool)
      modifies this
      ensures statusFilters == if checked then old(statusFilters) + {status} else old(statusFilters) - {status}
      ensures status in statusFilters <==> checked
      ensures forall s :: s != status ==> (s in statusFilters <==> s in old(statusFilters))
      ensures tasks == old(tasks) && sortAsc == old(sortAsc)
      ensures isDialogOpen == old(isDialogOpen) && editingTask == old(editingTask)
    {
      var next := statusFilters;
      if checked {
        next := next + {status};
      } else {
        next := next - {status};
      }
      statusFilters := next;
    }

    /** The "Sort by Due Date" button. */
    method ToggleSort()
      modifies this
      ensures sortAsc == !old(sortAsc)
      ensures tasks == old(tasks) && statusFilters == old(statusFilters)
      ensures isDialogOpen == old(isDialogOpen) && editingTask == old(editingTask)
    {
      sortAsc := !sortAsc;
    }

    /**
     * First half of `handleUpdateTaskStatus`: without an id token nothing
     * happens; otherwise the list takes the new status at once and the
     * pending update remembers the list as it was.
     */
    method BeginStatusUpdate(task: Task, newStatus: Status, idToken: Option<string>)
      returns (pending: Option<PendingUpdate>)
      modifies this
      ensures idToken.None? || idToken.value == "" ==> pending.None? && unchanged(this)
      ensures idToken.Some? && idToken.value != "" ==>
        pending == Some(PendingUpdate(task.id, newStatus, old(tasks)))
        && tasks == WithStatus(old(tasks), task.id, newStatus)
      ensures statusFilters == old(statusFilters) && sortAsc == old(sortAsc)
      ensures isDialogOpen == old(isDialogOpen) && editingTask == old(editingTask)
    {
      if idToken.None? || idToken.value == "" {
        return None;
      }
      pending := Some(PendingUpdate(task.id, newStatus, tasks));
      tasks := WithStatus(tasks, task.id, newStatus);
    }

    /** Second half: when the request failed, the list is put back as it was when the change began. */
    method SettleStatusUpdate(pending: PendingUpdate, ok: bool)
      modifies this
      ensures tasks == if ok then old(tasks) else pending.snapshot
      ensures statusFilters == old(statusFilters) && sortAsc == old(sortAsc)
      ensures isDialogOpen == old(isDialogOpen) && editingTask == old(editingTask)
    {
      if !ok {
        tasks := pending.snapshot;
      }
    }
  }

  /** A status change whose request fails leaves the dashboard's list as it was before the change. */
  method FailedStatusChangeRestores(d: Dashboard, task: Task, newStatus: Status, token: string)
    requires token != ""
    modifies d
    ensures d.tasks == old(d.tasks)
    ensures d.statusFilters == old(d.statusFilters) && d.sortAsc == old(d.sortAsc)
  {
    var pending := d.BeginStatusUpdate(task, newStatus, Some(token));
    assert d.tasks == WithStatus(old(d.tasks), task.id, newStatus);
    d.SettleStatusUpdate(pending.value, false);
  }
}
