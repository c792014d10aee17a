/** Rows of the three tables of the to-do application (users, lists, tasks)
    and the failures its handlers can meet. */
module Schema {

  datatype Option<+T> = None | Some(value: T)

  /** Why a handler did not change the tables. In the Flask application most of
      these are uncaught exceptions raised before the first write. */
  datatype Error =
    | DuplicateEmail   // register: the email is already on file
    | DuplicateUrl     // create_list: the unique constraint on lists.url
    | Unauthenticated  // a login_required route reached without a session
    | ListNotFound     // a list lookup returned None
    | TaskNotFound     // a task lookup returned None
    | EmptyDate        // due_date: empty form field, the formatted date is never bound
    | MalformedDate    // due_date: fewer than three '-'-separated fields

  /** Result of a handler that returns nothing but may fail. */
  datatype Outcome = Pass | Fail(error: Error)

  /** Result of a handler that produces a value (here: the id of the row it touched). */
  datatype Result<+T> = Ok(value: T) | Err(error: Error)

  /** Primary keys (SQLite integer rowids). */
  type Id = nat

  /** A row of `users`; `password` is the salted hash, opaque here. */
  datatype User = User(email: string, password: string, name: string)

  /** A row of `lists`; `owner` is the nullable `user_id`. */
  datatype TaskList = TaskList(name: string, url: string, owner: Option<Id>)

  /** A row of `tasks`; `owner` is the nullable `user_id`, `dueDate` the nullable `due_date`. */
  datatype Task = Task(
    text: string,
    listId: Id,
    owner: Option<Id>,
    dueDate: Option<string>,
    complete: bool,
    starred: bool)

  /** Name every freshly created list gets. */
  const DefaultListName: string := "New List"
}
