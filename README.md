# TaskMaster Pro — a verified model of its task rules

TaskMaster Pro is a personal task manager. A signed-in user keeps tasks with a title,
an optional description, a status (`To Do`, `In Progress` or `Completed`) and an optional
due date. This project models in Dafny the parts of the application that are rules rather
than glue:

- **the task record and its validators** (`src/types/index.ts`): the status enumeration,
  `TaskSchema`, `CreateTaskSchema` and `UpdateTaskSchema`, as functions from an untyped
  payload to a validated record or a list of field issues (module `TaskTypes`);
- **the collection handlers of the task API** (`src/app/api/tasks/route.ts`): bearer-token
  extraction, the 401/201/500 decisions of `GET` and `POST`, the record `POST` stores and the
  way `GET` maps stored documents back to tasks (module `TasksRoute`);
- **the dashboard's view-state controller** (`src/components/task-dashboard.tsx`): a class
  `Dashboard` holding the task list, the active status filters, the sort direction and the
  dialog state; the derived view (filter by status, then sort by due date with undated tasks
  last); and the optimistic status change with its revert (module `TaskDashboard`);
- **the create/edit dialog** (`src/components/task-dialog.tsx`): the values the form is reset
  to, validation of the form by the create schema, and the write a submit issues (module
  `TaskDialog`);
- **the task card** (`src/components/task-item.tsx`): the quick-complete toggle, the status
  colours, the description fallback and the due-date footer (module `TaskItem`);
- **the header** (`src/components/header.tsx`): the avatar initials and the profile document
  reference (module `Header`).

Two helper modules serve them: `Wrappers` (Option and Result) and `Text`, which models the
JavaScript string operations involved: `startsWith`, `split` with a non-empty separator,
`join`, `substring(0, n)` and ASCII `toUpperCase`.

Abstractions used throughout:

- Due dates and creation times are integer timestamps. In validated and stored tasks, `null` and a
  missing due date are both `None`. The dialog's due-date field keeps null, a picked day and
  `undefined` apart (`DateInput`), because the schema treats them differently.
- An untyped payload is a `map<string, Value>`. A key that is not in the map is `undefined`.
- Calls into code outside the repository are parameters or inputs:
  - `verifyIdToken` is a `Verifier`, a function from a token to `Some(uid)`, or to `None` when verification throws;
  - the documents a `GET` query reads, or `None` when the query throws;
  - the id `addDoc` assigns, or `None` when it throws;
  - whether a dashboard `PUT` request succeeded;
  - whether a dialog write throws;
  - `Timestamp.now()`, as `now`.

What the code does at some edges, as the model states it:

- A `POST` whose body fails the create schema answers **500** `Failed to create task`. The
  schema error is caught by the handler's single `catch` (`PostInvalidBodyIs500`).
- A `POST` body comes from `request.json()`, and JSON has no date values. The create schema's
  `dueDate` accepts only a `Date` object or null. So every `POST` whose `dueDate` is not null
  answers 500, and every task the API creates is undated (`DatedJsonPostFails`, `HandlePost`).
  The branch that converts a due date to a `Timestamp` never runs. The dialog does not go
  through this route: it writes to the store directly, with the due date converted to an ISO
  string by `toISOString` (a timestamp in the model).
- The due-date calendar is in single mode without `required`, so clicking the selected day
  again hands `undefined` to the form. The create schema's `dueDate` rejects `undefined` as
  required. Once a day is picked, the form can therefore save only with some day picked, never
  with no due date (`SelectDay`, `DeselectedDateBlocksSave`).
- `UpdateTaskSchema` is `CreateTaskSchema.partial()`. zod's optional wrapper returns early on
  `undefined`, so an update without `status` leaves the status absent. It does not default it
  to `To Do` (`ParseUpdateTask`, `CreatePayloadIsValidUpdate`).
- The comparator returns 1 whenever its first argument is undated, even when the second is
  undated too, so it orders two undated tasks both ways (`UndatedCompareBothWays`). The
  ECMAScript standard leaves the result of `sort` implementation-defined for such a
  comparator. The model's properties of the view are the ones every sort respecting the
  comparator shares: dated tasks come first, dated tasks follow the chosen direction, and no
  task is added, dropped or duplicated.
- The initials are the first characters of the first two space-separated pieces that are not
  empty. When the first two pieces are non-empty, later pieces do not matter
  (`LaterPiecesIgnored`). A leading space makes the first piece empty, and then the third
  piece supplies the second initial (`EmptyPieceLetsThirdCount`).
- The dialog writes to the per-user collection `users/<uid>/tasks`. The API handlers read
  and write the flat `tasks` collection filtered by `userId`. Both are modelled as written.

## Model

| member | source | states |
|---|---|---|
| `Text.Split` | src/app/api/tasks/route.ts:12 | `split(sep)` yields at least one piece and no piece contains the separator |
| `Text.JoinSplit` | src/app/api/tasks/route.ts:12 | joining the pieces of a split with the same separator gives back the original string, so `Split` loses nothing |
| `Text.SplitFirstPiece` | src/app/api/tasks/route.ts:12 | the first piece is a prefix of the string, no occurrence of the separator starts inside it, and it ends where the first occurrence starts or is the whole string |
| `Text.SplitAtLeadingSeparator` | src/app/api/tasks/route.ts:9-12 | a string that starts with the separator splits into an empty first piece followed by the pieces of the rest |
| `Text.Prefix` | src/components/header.tsx:40 | `substring(0, n)` is a prefix of length `min(n, length)` |
| `Text.ToUpper` | src/components/header.tsx:40 | `toUpperCase` keeps the length, turns each ASCII lower-case letter into its capital (code point minus 32) and leaves every other character alone |
| `TaskTypes.ParseStatus` | src/types/index.ts:3 | a string parses to a status exactly when it is that status's label; any other string parses to nothing |
| `TaskTypes.StatusLabelsRoundTrip` | src/types/index.ts:3 | `ParseStatus` inverts `Label`; exactly "To Do", "In Progress" and "Completed" are accepted; `taskStatus` lists all three statuses |
| `TaskTypes.ParseTask` | src/types/index.ts:5-13 | a validated task has a non-empty title, and its `id`, `userId` and `createdAt` are the payload's own string, string and date values; a rejected payload has at least one issue |
| `TaskTypes.ParseCreateTask` | src/types/index.ts:15-19 | a validated create payload has a non-empty title; a rejected one has at least one issue |
| `TaskTypes.ParseUpdateTask` | src/types/index.ts:21 | an update carries a title or status exactly when the payload has that key, so no default is applied; a present title is non-empty |
| `TaskTypes.TitleRule` | src/types/index.ts:7 | an empty title is rejected with the issue "Title is required" at `title`; any title of length at least 1 raises no issue at `title` |
| `TaskTypes.StatusRule` | src/types/index.ts:9 | an absent status becomes `To Do`; a string that is not a label is rejected as an invalid enum value; an accepted status is the one the payload named |
| `TaskTypes.OptionalFieldsRule` | src/types/index.ts:8-10 | an absent description raises no issue; an absent `dueDate` is rejected as required; a null `dueDate` validates to no due date |
| `TaskTypes.CreateIsTaskWithoutServerFields` | src/types/index.ts:5-19 | the task schema's issues are the `id` issues, then the create schema's issues, then the `userId` and `createdAt` issues; a valid task yields its create part; a payload is a valid task exactly when it is a valid create payload with valid `id`, `userId` and `createdAt` |
| `TaskTypes.CreateIgnoresOtherKeys` | src/types/index.ts:15-19 | the create schema looks only at `title`, `description`, `status` and `dueDate`, so other keys such as `userId` are stripped |
| `TaskTypes.CreatePayloadRoundTrip` | src/types/index.ts:15-19 | validating a create record with a non-empty title, presented as the form holds it (the due date as a `Date`), gives that record back |
| `TaskTypes.JsonCreateIsUndated` | src/types/index.ts:10 | a JSON payload, which holds no date, validates only with a null due date; one whose `dueDate` is present and not null is rejected |
| `TaskTypes.UpdateFieldsRule` | src/types/index.ts:21 | for every payload: the update succeeds exactly when each create key that is present passes its create rule, with no key required; a field is set exactly when its key is present (title and status only if present), and each set value is the payload's own, an explicit null due date included |
| `TaskTypes.StatusOnlyUpdate` | src/types/index.ts:21 | a body holding only a status label, as the dashboard sends, is a valid update that sets that status and nothing else |
| `TaskTypes.EmptyUpdateIsValid` | src/types/index.ts:21 | the empty payload is a valid update that sets nothing |
| `TaskTypes.CreatePayloadIsValidUpdate` | src/types/index.ts:21 | every valid create payload is a valid update with the same fields, except that an absent status stays absent |
| `TasksRoute.BearerToken` | src/app/api/tasks/route.ts:8-12 | a token exists exactly when the header starts with "Bearer "; the token follows that prefix, contains no "Bearer ", and runs to the end of the header or to the next "Bearer " |
| `TasksRoute.BearerTokenExamples` | src/app/api/tasks/route.ts:9-12 | "Bearer abc" gives "abc"; "Bearer", which is what a header sent as "Bearer " arrives as once `Headers.get` trims it, gives none; "Bearer a Bearer b" gives "a ", cut at the second prefix; a lower-case or missing header gives none |
| `TasksRoute.VerifierNotConsultedWithoutBearer` | src/app/api/tasks/route.ts:9-11 | without a "Bearer " header there is no user, whatever the verifier would answer |
| `TasksRoute.VerifiedUserIsVerifierVerdict` | src/app/api/tasks/route.ts:12-19 | with a bearer header, the user is exactly the verifier's answer for the extracted token |
| `TasksRoute.VerifiedUser` | src/app/api/tasks/route.ts:7-20 | a uid comes only from a header starting with "Bearer ", and then it is exactly the verifier's answer for the extracted token |
| `TasksRoute.OwnedBy` | src/app/api/tasks/route.ts:30 | the query keeps exactly the documents whose `userId` is the caller's, each as often as in the store, and no other |
| `TasksRoute.OwnedByConcat` | src/app/api/tasks/route.ts:30-31 | the query keeps the store's order: querying a concatenation gives the results for each part, concatenated |
| `TasksRoute.DocToTask` | src/app/api/tasks/route.ts:32-40 | a listed task loses nothing of its document: its id is the document id and every other field is the stored one, so the document can be rebuilt from it |
| `TasksRoute.HandleGet` | src/app/api/tasks/route.ts:23-46 | the status is 200, 401 or 500; 401 `Unauthorized` exactly when there is no truthy uid, and then the store is not queried; 500 `Failed to fetch tasks` exactly when an authorised query fails |
| `TasksRoute.GetListsOnlyOwnTasks` | src/app/api/tasks/route.ts:30-41 | an authorised GET answers 200 with one task per owned document, in store order; each task is its document mapped field by field (the document id, then every stored field), belongs to the caller and comes from the store |
| `TasksRoute.NewTaskRecord` | src/app/api/tasks/route.ts:59-64 | the stored record holds the validated fields unchanged, plus the verified uid and `now` |
| `TasksRoute.HandlePost` | src/app/api/tasks/route.ts:49-73 | for a JSON body: the status is 201, 401 or 500; 401 exactly when there is no truthy uid, and then nothing is stored; a stored record always carries the verified uid and `now` and has no due date; 201 exactly when a record was built and `addDoc` gave an id; every 500 says `Failed to create task` |
| `TasksRoute.DatedJsonPostFails` | src/app/api/tasks/route.ts:56-63 | a JSON body whose `dueDate` is present and not null is answered 401 or 500 and nothing is stored, since `z.date()` rejects every JSON value |
| `TasksRoute.PostInvalidBodyIs500` | src/app/api/tasks/route.ts:55-72 | an authorised POST whose body fails the create schema answers 500, never 400, and stores nothing |
| `TasksRoute.PostCreatesFromValidatedFields` | src/app/api/tasks/route.ts:57-68 | a created task holds the validated fields (a null due date stays null), the verified uid, `now` and the new document id; a `userId`, or any other key outside the create schema, in the body changes nothing |
| `TasksRoute.PostThenGet` | src/app/api/tasks/route.ts:32-40 | after a successful POST, a GET over a store holding the new document anywhere among the others lists exactly the task the POST returned, right after the caller's documents that precede it |
| `TaskDashboard.Compare` | src/components/task-dashboard.tsx:129-135 | an undated first task compares as after (1); a dated task before an undated one compares as before (-1); two dated tasks compare as before exactly when the first is earlier (ascending) or later (descending), and as equal exactly when their times agree |
| `TaskDashboard.CompareDecidesOrder` | src/components/task-dashboard.tsx:129-135 | whenever the comparator does not place `a` after `b`, `a` may precede `b` in the view; otherwise `b` may precede `a` |
| `TaskDashboard.UndatedCompareBothWays` | src/components/task-dashboard.tsx:130 | two undated tasks each compare as after the other, so their relative order is not fixed |
| `TaskDashboard.Insert` | src/components/task-dashboard.tsx:129-135 | inserting into a sorted list adds exactly that task and keeps the list sorted by due date |
| `TaskDashboard.SortByDueDate` | src/components/task-dashboard.tsx:129-135 | the sorted list is a permutation of its input and is sorted by due date in the chosen direction, with undated tasks last |
| `TaskDashboard.FilterByStatus` | src/components/task-dashboard.tsx:127-128 | each task occurs in the result as often as in the list when its status is an active filter, and not at all otherwise |
| `TaskDashboard.FilteredAndSorted` | src/components/task-dashboard.tsx:126-136 | the view is a permutation of exactly the tasks whose status is active; every dated task precedes every undated one; dated tasks are non-decreasing by time when ascending and non-increasing otherwise |
| `TaskDashboard.WithStatus` | src/components/task-dashboard.tsx:99 | the optimistic list keeps its length and every id; an entry can differ only in its status, which becomes the new status exactly where the id matches |
| `TaskDashboard.WithStatusIdempotent` | src/components/task-dashboard.tsx:99 | applying the same status change twice gives the same list as applying it once |
| `TaskDashboard.WithCurrentStatusIsIdentity` | src/components/task-dashboard.tsx:99 | a change to the status the task already has leaves the list unchanged |
| `TaskDashboard.OptimisticChangeInView` | src/components/task-dashboard.tsx:99-100 | after the optimistic change, the view shows the task only with its new status, and not at all when that status is filtered out |
| `TaskDashboard.Dashboard.constructor` | src/components/task-dashboard.tsx:27-33 | the dashboard starts with no tasks, all three statuses active, ascending sort and the dialog closed with no task |
| `TaskDashboard.Dashboard.Visible` | src/components/task-dashboard.tsx:126-136 | the rendered list holds exactly the tasks whose status is an active filter, sorted by due date in the current direction with undated tasks last |
| `TaskDashboard.Dashboard.ReceiveTasks` | src/components/task-dashboard.tsx:44 | a successful fetch replaces the list and nothing else |
| `TaskDashboard.Dashboard.OpenDialog` | src/components/task-dashboard.tsx:65-68 | opening the dialog records the task being edited, or none, and leaves the list, filters and sort alone |
| `TaskDashboard.Dashboard.CloseDialog` | src/components/task-dashboard.tsx:70-76 | closing clears the edited task and closes the dialog; `fetchTasks` is called exactly when `refresh` is true |
| `TaskDashboard.Dashboard.SetStatusFilter` | src/components/task-dashboard.tsx:165-171 | checking adds exactly that status to the filters and unchecking removes it; every other status and all other state is untouched |
| `TaskDashboard.Dashboard.ToggleSort` | src/components/task-dashboard.tsx:180 | the sort direction flips and nothing else changes |
| `TaskDashboard.Dashboard.BeginStatusUpdate` | src/components/task-dashboard.tsx:97-100 | without a truthy id token nothing changes and no request is made; otherwise the list takes the new status for that id at once and the pending request remembers the previous list |
| `TaskDashboard.Dashboard.SettleStatusUpdate` | src/components/task-dashboard.tsx:112-123 | a failed request puts back the list held when the change began; a successful one keeps the optimistic list; nothing else changes |
| `TaskDashboard.FailedStatusChangeRestores` | src/components/task-dashboard.tsx:97-123 | a status change whose request fails leaves the task list exactly as it was before the call |
| `TaskDialog.ResetValues` | src/components/task-dialog.tsx:65-78 | with no task the form gets an empty title and description, `To Do` and no due date; with a task it gets the task's title, status and due date (a picked day, or null when undated, never `undefined`), and its description or "" when missing |
| `TaskDialog.TaskForm.constructor` | src/components/task-dialog.tsx:53-61 | the form starts from the default values |
| `TaskDialog.TaskForm.Sync` | src/components/task-dialog.tsx:63-81 | the form is reset only while the dialog is open; otherwise its values stay as they were |
| `TaskDialog.SelectDay` | src/components/task-dialog.tsx:213-216 | clicking the selected day clears the field to `undefined`, clicking any other day picks it, and the field never returns to null |
| `TaskDialog.FormPayloadParses` | src/components/task-dialog.tsx:53-54 | the create-schema resolver accepts the form exactly when its title is non-empty and its due date is not `undefined`, and then yields the form's values; otherwise it reports "Title is required" for an empty title, then "required" at `dueDate` for a cleared date |
| `TaskDialog.SubmitForm` | src/components/task-dialog.tsx:83-117 | a submit is rejected exactly when the title is empty or the due date is cleared, and the rejection names each failing field; an accepted form is handed to `onSubmit` with its own values |
| `TaskDialog.DeselectedDateBlocksSave` | src/components/task-dialog.tsx:213-216 | clicking the picked day again makes the form unsaveable whatever its title, with the due date reported as required |
| `TaskDialog.OnSubmit` | src/components/task-dialog.tsx:83-117 | with no user nothing happens; otherwise the dialog is closed with a falsy refresh and a notice is shown; a write is issued exactly when nothing throws; an edit updates `users/<uid>/tasks/<id>` and a create adds to `users/<uid>/tasks` with a server `createdAt`; both keep the data's title, status and due date, so null stays null |
| `TaskDialog.ValidFormWritesItsValues` | src/components/task-dialog.tsx:87-101 | a form with a non-empty title and a due date that is not cleared writes exactly its own values, including an empty description |
| `TaskDialog.NewTaskNeedsTitle` | src/components/task-dialog.tsx:72-78 | saving a freshly reset new-task form is rejected, so no write happens |
| `TaskDialog.EditUnchangedWritesBack` | src/components/task-dialog.tsx:65-108 | opening a task for editing and saving it untouched updates its own document with its own title, status and due date, then closes without refresh |
| `TaskDialog.SubmitAndClose` | src/components/task-dialog.tsx:108-115 | closing the dialog after a submit never makes the dashboard fetch again; a valid form closes the dialog |
| `TaskItem.QuickCompleteStatus` | src/components/task-item.tsx:49-53 | quick-complete never sends `In Progress`; it sends `To Do` exactly when the task is `Completed` |
| `TaskItem.QuickCompleteTwice` | src/components/task-item.tsx:52 | toggling twice keeps `To Do` and `Completed` but takes `In Progress` to `To Do` |
| `TaskItem.StatusColor` | src/components/task-item.tsx:37-41 | every status has a non-empty colour class |
| `TaskItem.StatusColorsDistinct` | src/components/task-item.tsx:37-41 | different statuses have different colour classes |
| `TaskItem.DescriptionText` | src/components/task-item.tsx:98 | a missing or empty description shows "No description provided."; any other description shows as it is |
| `TaskItem.CardOf` | src/components/task-item.tsx:49-106 | a card is struck through exactly when completed; a completed card has no status colour and any other card has its status's colour; the footer date shows exactly when there is a due date; the quick button offers `To Do` on a completed card and `Completed` otherwise |
| `Header.FirstChars` | src/components/header.tsx:40 | at most one character per piece; every character is the first character of some non-empty piece; when no piece is empty, the result is the pieces' first characters in order |
| `Header.Initials` | src/components/header.tsx:38-41 | the result has at most two characters; a missing or empty name gives "U" |
| `Header.FirstCharsOfSplit` | src/components/header.tsx:40 | the first characters of the space-separated pieces are exactly the name's word starts: the non-space characters at the start or right after a space |
| `Header.InitialsAreWordStarts` | src/components/header.tsx:38-41 | for a non-empty name, the initials are its first two word starts, upper-cased |
| `Header.SpacesOnlyGiveNoInitials` | src/components/header.tsx:39-40 | a non-empty name of spaces only gives the empty string, not "U" |
| `Header.LaterPiecesIgnored` | src/components/header.tsx:40 | when the first two pieces are non-empty, the initials are their first letters upper-cased, whatever follows |
| `Header.LeadingSpaceIgnored` | src/components/header.tsx:40 | a leading space does not change the initials |
| `Header.TwoWordsInitials` | src/components/header.tsx:40 | two non-empty words give their two first letters, upper-cased |
| `Header.EmptyPieceLetsThirdCount` | src/components/header.tsx:40 | with an empty first piece, the third piece supplies the second initial |
| `Header.ProfileRef` | src/components/header.tsx:26-29 | the profile reference exists exactly when there is both a store and a user, and then it is `users/<uid>` |

## Left out

- Network and store I/O are not modelled: `fetch`, `getDocs`, `addDoc`, `addDocumentNonBlocking`, `updateDocumentNonBlocking`. Their results are inputs of the model.
- `fetchTasks` is modelled only by its state update (`Dashboard.ReceiveTasks`). Its loading flag, error toast and redirect to `/login` are left out.
- `handleDeleteTask` is left out. It only sends a request and fetches again, and changes no local state.
- `verifyIdToken` is abstracted as the `Verifier` parameter.
- Firebase `Timestamp` and `serverTimestamp` conversions are left out.
- Date handling is not modelled: `Date` parsing, `toISOString`, date-fns `format`, and the calendar's "no past dates" predicate. They depend on clocks and time zones, and dates are integers here.
- Concurrency is left out. Each call is modelled on its own. `SettleStatusUpdate` restores the list captured when the change began, as the source's closure does, but overlapping updates are not analysed.
- `GET` maps documents as `{ id: doc.id, ...data }`. A stored `id` field would override the document id. No write path in the model stores one, because POST's schema strips unknown keys, so the stored record has no `id` field.
- A stored document without `createdAt` would make `GET` throw. The model's stored records always carry one.
- zod's issue messages are left out, apart from "Title is required". Issues carry a code and a path.
- zod's rejection of an invalid `Date` is left out.
- JSON serialisation of responses is left out.
- `SortByDueDate`: replaces the engine's `Array.prototype.sort` with an insertion sort driven by the same comparator. Stability of equal dated tasks is not proved.
- `SortByDueDate`: puts undated tasks in reverse input order (two undated tasks `[u1, u2]` come out as `[u2, u1]`). The engine's sort may order them differently, for example keep them in input order. The model's view properties say nothing about the order among undated tasks.
- `SortByDueDate`: flipping the direction does not in general reverse the dated tasks, because two tasks may share a due date. Only monotonicity in each direction is proved.
- `Text.ToUpper` models only ASCII letters. JavaScript's Unicode case mapping, which can change a string's length, is not modelled.
- `Header.Initials`: a Dafny `char` is a Unicode scalar value, while a JavaScript string is a sequence of UTF-16 code units. For a name with characters outside the Basic Multilingual Plane (an emoji, say), `n[0]` and `substring(0, 2)` in JavaScript take half a surrogate pair where the model takes the whole character.
- The `PUT` and `DELETE` handlers of `src/app/api/tasks/[id]/route.ts` are not part of this model.
- Sign-in and registration pages, Firebase configuration and the auth provider are not part of this model.
- `task-list.tsx`, `task-item-skeleton.tsx` and `page.tsx` are pure presentation and are not part of this model.
- Rendering, toasts other than the dialog's notices, routing, logout and avatar images are left out.
