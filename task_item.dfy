/**
 * One task card (`src/components/task-item.tsx`): the quick-complete
 * toggle, the status colours, the description fallback and the due-date
 * footer.
 */
module TaskItem {
  import opened Wrappers
  import opened TaskTypes

  const NoDescription: string := "No description provided."

  /** `handleQuickComplete`: the status sent for the card's check button. */
  function QuickCompleteStatus(s: Status): (r: Status)
    ensures r != InProgress
    ensures r == ToDo <==> s == Completed
  {
    if s == Completed then ToDo else Completed
  }

  /** Toggling twice restores `To Do` and `Completed`, but takes `In Progress` to `To Do`. */
  lemma QuickCompleteTwice(s: Status)
    ensures QuickCompleteStatus(QuickCompleteStatus(s)) == if s == InProgress then ToDo else s
  {
  }

  /** `statusColors` */
  function StatusColor(s: Status): (c: string)
    ensures c != ""
  {
    match s
    case ToDo => "bg-gray-500 hover:bg-gray-600"
    case InProgress => "bg-blue-500 hover:bg-blue-600"
    case Completed => "bg-primary hover:bg-primary/90"
  }

  /** Each status has a class of its own. */
  lemma StatusColorsDistinct(a: Status, b: Status)
    ensures a != b ==> StatusColor(a) != StatusColor(b)
  {
  }

  /** `task.description || 'No description provided.'` */
  function DescriptionText(d: Option<string>): (r: string)
    ensures r != ""
    ensures d.Some? && d.value != "" ==> r == d.value
    ensures d.None? || d.value == "" ==> r == NoDescription
  {
    if d.Some? && d.value != "" then d.value else NoDescription
  }

  /** What a card shows and offers. */
  datatype Card = Card(
    struckThrough: bool,
    description: string,
    badgeColor: Option<string>,
    footerDate: Option<int>,
    quickTarget: Status)

  /** The card of a task. */
  function CardOf(task: Task): (c: Card)
    ensures c.struckThrough <==> task.status == Completed
    ensures c.badgeColor.None? <==> c.struckThrough
    ensures c.badgeColor.Some? ==> c.badgeColor.value == StatusColor(task.status)
    ensures c.footerDate.Some? <==> task.dueDate.Some?
    ensures c.quickTarget == (if c.struckThrough then ToDo else Completed)
    ensures c.description != ""
  {
    var completed := task.status == Completed;
    Card(
      completed,
      DescriptionText(task.description),
      if completed then None else Some(StatusColor(task.status)),
      if task.dueDate.Some? then task.dueDate else None,
      QuickCompleteStatus(task.status))
  }
}
