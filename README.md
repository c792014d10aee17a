# Task manager: the list and task store

A model of the data layer of a multi-user to-do web application. Three tables
hold the state: `users` (email, password hash, name), `lists` (name, unique
shortlink `url`, nullable owner `user_id`) and `tasks` (text, `list_id`,
nullable owner, nullable due date, `complete`, `starred`). Each route handler
is a short sequence of row updates on these tables. The model keeps the
handlers' effect on the tables and drops the HTTP, ORM and template layers.

- `schema.dfy` (module `Schema`): the rows, the errors, and the `Outcome`/`Result` wrappers.
- `due_date.dfy` (module `DueDate`): the due-date reformat. Python's
  `str.split('-')` is modelled exactly (`Split`, with `Join` as its inverse),
  and the first three fields are written back in reverse order.
- `tables.dfy` (module `Tables`): each table is a map from primary key to row.
  The module has the functions that state each handler's effect, the predicate
  `Intact` (the referential integrity the handlers keep), and one lemma per
  handler connecting the two.
- `store.dfy` (module `App`): class `Store` holds the three tables as fields,
  with one method per handler. The home-page sweep, `save_list` and
  `delete_list` loop over rows and change them one at a time, as the handlers do.
  Every handler method except `NewTaskAsWritten` requires and keeps `Valid()`
  (that is, `Intact`) and states its whole new state. The two loop helpers
  `DeleteTasksOf` and `ClaimTasksOf` state only how `tasks` changes.

Conventions:
- A lookup that returns `None` in the handlers (then crashes on the next
  attribute access, before any write) becomes an error result that changes nothing.
- A `login_required` route reached without a session returns `Unauthenticated`.
- The logged-in user is the parameter `current: Option<Id>`.
- The database picks fresh primary keys, and `shortuuid` picks the shortlink.
  Both choices are parameters of the methods.

Where the code and the design description differ, the model follows the code:
- The due date is not parsed as a date. The fields are only swapped.
  The design reads this as turning day-month-year into year-month-day; the
  code fixes no direction, and the model promises only the reversal.
- An empty due date fails. It does not clear the date.
- `delete_list` checks only that someone is logged in. It does not check who owns the list.
- `new_task` stores the task before it looks up the list. This is logged under
  "## Findings", and the corrected method is used.

## Model

| member | source | states |
|---|---|---|
| `DueDate.Reformat` | main.py:242-247 | an empty input is `EmptyDate`; a non-empty input with fewer than three fields is `MalformedDate`; otherwise the result splits into the input's first three fields in reverse order (fields 2, 1, 0 joined by '-') |
| `DueDate.Split` | main.py:244 | `split('-')` yields at least one field, no field holds a dash, and joining the fields with '-' gives back the input |
| `DueDate.SplitJoin` | main.py:244 | splitting a '-'-join of dash-free fields gives back exactly those fields |
| `DueDate.SplitCountsDashes` | main.py:244-245 | the split has one more field than the input has dashes |
| `DueDate.ReformatSwapsFields` | main.py:242-245 | a three-field input `a-b-c` comes back with its fields in reverse order, `c-b-a` |
| `DueDate.ReformatDefinedIff` | main.py:242-247 | the reformat succeeds exactly when the input holds at least two dashes; the empty input fails with `EmptyDate` |
| `DueDate.ReformatTwice` | main.py:244-245 | on a three-field input the reformat succeeds and applying it twice gives back the input |
| `Tables.IsUnclaimed` | main.py:71 | the sweep's test `not list_.user_id`: the owner is null or the falsy id 0 |
| `Tables.UnclaimedMeansNoOwner` | main.py:71 | in intact tables a list fails the sweep's test exactly when it has no owner |
| `Tables.NewListRow` | main.py:150-154 | the inserted list row: name "New List", the given shortlink, no owner |
| `Tables.NewTaskRow` | main.py:212-227 | the inserted task row: the given text and list, owner the logged-in user or nobody, no due date, not complete, not starred |
| `Tables.Reassign` | main.py:166-167 | the given tasks get the user as owner; every other task is unchanged |
| `Tables.ToggleComplete` | main.py:257-260 | the `complete` flag flips and every other field of the task is unchanged |
| `Tables.ToggleStar` | main.py:270-273 | the `starred` flag flips and every other field of the task is unchanged |
| `Tables.SweepResult` | main.py:69-75 | the sweep removes exactly the unclaimed lists and exactly their tasks; no surviving list lacks an owner, claimed lists and their tasks are unchanged, integrity is kept |
| `Tables.SweepIdempotent` | main.py:69-75 | a second sweep right after the first removes nothing |
| `Tables.CreateListResult` | main.py:149-157 | inserting the new list under a fresh key with an unused shortlink keeps integrity, and the new list has no tasks |
| `Tables.SaveListResult` | main.py:165-169 | after saving, every task of the list has the list's owner, the list will survive the next sweep, and integrity is kept |
| `Tables.DeleteListResult` | main.py:199-204 | after deleting a list and its tasks no task refers to the list, and integrity is kept |
| `Tables.NewTaskResult` | main.py:211-229 | a new task on an existing list, owned by the logged-in user or by nobody, keeps integrity |
| `Tables.NewTaskOrphan` | main.py:219-233 | a task stored for a list that does not exist breaks integrity |
| `Tables.ToggleInvolutions` | main.py:257-260 | each toggle flips only its own flag, and toggling twice restores the task |
| `Tables.ToggleTwiceRestoresTable` | main.py:270-273 | completing or starring the same task twice gives back the whole tasks table |
| `Tables.TaskEditResult` | main.py:247-283 | changing a task's flags or due date, or deleting a task, keeps integrity |
| `Tables.RenameListResult` | main.py:188-191 | renaming a list keeps integrity |
| `Tables.RegisterResult` | main.py:86-96 | a user with a fresh rowid and an unused email keeps integrity, emails included |
| `App.Store.constructor` | main.py:61-62 | a new database has three empty tables, which are intact |
| `App.Store.DeleteTasksOf` | main.py:201-202 | deleting a list's tasks one at a time removes exactly the tasks of that list |
| `App.Store.ClaimTasksOf` | main.py:166-167 | setting the owner task by task hands exactly the list's tasks to the user and leaves every other task alone |
| `App.Store.Sweep` | main.py:65-77 | `home` leaves exactly the claimed lists and the tasks not on unclaimed lists; users are untouched |
| `App.Store.Register` | main.py:80-100 | an email already on file is refused with `DuplicateEmail` and nothing changes; otherwise exactly one user is added |
| `App.Store.CreateList` | main.py:147-159 | exactly one list is added, named "New List", with no owner and no tasks, under a shortlink no other list has; a used shortlink is refused |
| `App.Store.SaveList` | main.py:162-171 | without a session the result is `Unauthenticated`; with an unknown shortlink it is `ListNotFound`; otherwise the list and exactly its tasks get the user as owner and nothing else changes |
| `App.Store.UpdateList` | main.py:186-193 | the list with the shortlink gets the new name and nothing else changes; an unknown shortlink is `ListNotFound` |
| `App.Store.DeleteList` | main.py:196-206 | a logged-in caller deletes the list and exactly its tasks; no session is `Unauthenticated`, an unknown id `ListNotFound`, with nothing changed |
| `App.Store.NewTaskAsWritten` | main.py:209-233 | the task is stored whether or not its list exists; when it does not, the result is `ListNotFound` and the tables are no longer intact |
| `App.Store.NewTask` | main.py:209-233 | exactly one task is added, not complete, not starred, on the given list, owned by the current user exactly when someone is logged in; a missing list is refused before anything is stored |
| `App.Store.SetDueDate` | main.py:236-250 | the task's due date becomes the reformatted input and nothing else changes; an unknown task or an empty or malformed date changes nothing |
| `App.Store.CompleteTask` | main.py:253-263 | only the task's `complete` flag flips; an unknown task is `TaskNotFound` |
| `App.Store.StarTask` | main.py:266-276 | only the task's `starred` flag flips; an unknown task is `TaskNotFound` |
| `App.Store.DeleteTask` | main.py:279-285 | exactly that task is removed; an unknown task is `TaskNotFound` |
| `App.AbandonedListIsSwept` | main.py:69-75 | a list that is created, given a task by an anonymous or a logged-in visitor, and not saved is gone after the next home-page visit, along with the task and its shortlink |

## Findings

| source | as written | input that shows it | evidently intended | confidence | as-written member | corrected member |
|---|---|---|---|---|---|---|
| main.py:219-233 | `new_task` commits the new task and only then looks up its list, whose `url` it reads for the redirect | an unsaved list 7 is swept when another visitor loads the home page, then `POST /add-task/7` stores a task with `list_id` 7 and fails on `current_list.url`, leaving a task whose list does not exist | refuse the request before storing anything, so every task keeps a live list | medium, not executed | `App.Store.NewTaskAsWritten` (with `Tables.NewTaskOrphan`) | `App.Store.NewTask` |

## Left out

- HTTP routing, redirects, templates, flash messages, and the read-only views `show_list` and `my_lists`. These are view code.
- `login`, `logout` and `load_user`. Session handling is outside the model, so the logged-in user is the parameter `current`.
- `generate_password_hash` and `check_password_hash` are foreign cryptographic calls. `App.Store.Register` stores the hash its caller passes in.
- App.Store.Register stores `name` as given. The title-casing by `name.title()` at main.py:94 is not modelled, because Python's Unicode case mapping is outside the model.
- The random shortlink from `shortuuid` and the database's choice of a fresh primary key are parameters. The model still refuses a shortlink already in use.
- The debug print of the submitted form in `due_date` (main.py:238) is not modelled.
- Today's date in `show_list` depends on the wall clock.
- Loading the secret key and setting up Bootstrap and the database connection are configuration only.
- Iteration order: the loops take rows from a set, while the handlers visit them in query order. The final tables are the same either way.
- Commit granularity: `home` commits after each list, and no handler rolls back. Each model method is one atomic step.
- Concurrent requests, such as a sweep racing a `save_list`, are out of scope.
- The nullable `complete` and `starred` columns are modelled as booleans. Every task is created with both set to false.
- The model treats email uniqueness as an invariant kept by `register`. The database does not enforce it.
