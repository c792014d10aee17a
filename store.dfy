/** The application's database and the route handlers that change it, one
    method per handler. A handler that fails changes nothing; `current` is the
    user the session resolves to, if any. */
module App {
  import opened Schema
  import opened Tables
  import DueDate

  class Store {
    var users: Users
    var lists: Lists
    var tasks: Tasks

    ghost predicate Valid()
      reads this
    {
      Intact(users, lists, tasks)
    }

    /** The session resolves to a live user or to nobody. */
    ghost predicate Session(current: Option<Id>)
      reads this
    {
      current.Some? ==> current.value in users
    }

    /** The tables as `create_all` leaves a new database. */
    constructor ()
      ensures Valid()
      ensures users == map[] && lists == map[] && tasks == map[]
    {
      users, lists, tasks := map[], map[], map[];
    }

    /** Deletes every task of list `listId`, one row at a time. */
    method DeleteTasksOf(listId: Id)
      modifies this
      ensures tasks == old(tasks) - TasksOf(old(tasks), {listId})
      ensures users == old(users) && lists == old(lists)
    {
      ghost var doomed := TasksOf(tasks, {listId});
      var pending := TasksOf(tasks, {listId});
      while pending != {}
        invariant pending <= doomed
        invariant tasks == old(tasks) - (doomed - pending)
        invariant users == old(users) && lists == old(lists)
        decreases pending
      {
        var t :| t in pending;
        tasks := tasks - {t};
        pending := pending - {t};
      }
    }

    /** Hands every task of list `listId` to `user`, one row at a time. */
    method ClaimTasksOf(listId: Id, user: Id)
      modifies this
      ensures tasks == Reassign(old(tasks), TasksOf(old(tasks), {listId}), user)
      ensures users == old(users) && lists == old(lists)
    {
      ghost var mine := TasksOf(tasks, {listId});
      var pending := TasksOf(tasks, {listId});
      while pending != {}
        invariant pending <= mine
        invariant tasks == Reassign(old(tasks), mine - pending, user)
        invariant users == old(users) && lists == old(lists)
        decreases pending
      {
        var t :| t in pending;
        ReassignStep(old(tasks), mine - pending, t, user);
        tasks := tasks[t := tasks[t].(owner := Some(user))];
        assert mine - (pending - {t}) == (mine - pending) + {t};
        pending := pending - {t};
      }
      assert mine - {} == mine;
    }

    /** `home`: deletes every unclaimed list together with its tasks. */
    method Sweep()
      requires Valid()
      modifies this
      ensures Valid()
      ensures lists == old(lists) - UnclaimedIds(old(lists))
      ensures tasks == old(tasks) - TasksOf(old(tasks), UnclaimedIds(old(lists)))
      ensures users == old(users)
    {
      ghost var unclaimed := UnclaimedIds(lists);
      var pending := lists.Keys;
      while pending != {}
        invariant pending <= old(lists).Keys
        invariant lists == old(lists) - (unclaimed - pending)
        invariant tasks == old(tasks) - TasksOf(old(tasks), unclaimed - pending)
        invariant users == old(users)
        decreases pending
      {
        var id :| id in pending;
        if IsUnclaimed(lists[id]) {
          TasksOfStep(old(tasks), unclaimed - pending, id);
          DeleteTasksOf(id);
          lists := lists - {id};
          assert unclaimed - (pending - {id}) == (unclaimed - pending) + {id};
        } else {
          assert unclaimed - (pending - {id}) == unclaimed - pending;
        }
        pending := pending - {id};
      }
      assert unclaimed - {} == unclaimed;
      SweepResult(old(users), old(lists), old(tasks));
    }

    /** `register`, as far as the tables go: refuses an email already on file,
        otherwise stores the user under the fresh rowid `id`. The password is
        stored as the hash the caller computed. */
    method Register(id: Id, name: string, email: string, password: string) returns (o: Outcome)
      requires Valid()
      requires id >= 1 && id !in users
      modifies this
      ensures Valid()
      ensures lists == old(lists) && tasks == old(tasks)
      ensures o == Pass <==> EmailFree(old(users), email)
      ensures o == Pass ==> users == old(users)[id := User(email, password, name)]
      ensures o != Pass ==> o == Fail(DuplicateEmail) && users == old(users)
    {
      if !EmailFree(users, email) {
        return Fail(DuplicateEmail);
      }
      RegisterResult(users, lists, tasks, id, User(email, password, name));
      users := users[id := User(email, password, name)];
      o := Pass;
    }

    /** `create_list`: stores an unclaimed list called "New List" under the fresh
        key `id` with the shortlink `url`; a shortlink already in use is refused. */
    method CreateList(id: Id, url: string) returns (o: Outcome)
      requires Valid()
      requires id !in lists
      modifies this
      ensures Valid()
      ensures users == old(users) && tasks == old(tasks)
      ensures o == Pass <==> UrlFree(old(lists), url)
      ensures o == Pass ==> lists == old(lists)[id := NewListRow(url)] && TasksOf(tasks, {id}) == {}
      ensures o != Pass ==> o == Fail(DuplicateUrl) && lists == old(lists)
    {
      if !UrlFree(lists, url) {
        return Fail(DuplicateUrl);
      }
      CreateListResult(users, lists, tasks, id, url);
      lists := lists[id := NewListRow(url)];
      o := Pass;
    }

    /** `save_list`: the current user claims the list with shortlink `url` and
        every task on it. Returns the list's key. */
    method SaveList(url: string, current: Option<Id>) returns (r: Result<Id>)
      requires Valid() && Session(current)
      modifies this
      ensures Valid()
      ensures users == old(users)
      ensures match r
        case Err(e) =>
          && lists == old(lists) && tasks == old(tasks)
          && (if current.None? then e == Unauthenticated else e == ListNotFound && UrlFree(old(lists), url))
        case Ok(id) =>
          && current.Some? && id in old(lists) && old(lists)[id].url == url
          && lists == old(lists)[id := old(lists)[id].(owner := current)]
          && tasks == Reassign(old(tasks), TasksOf(old(tasks), {id}), current.value)
    {
      if current.None? {
        return Err(Unauthenticated);
      }
      if UrlFree(lists, url) {
        return Err(ListNotFound);
      }
      var user := current.value;
      var id :| id in lists && lists[id].url == url;
      ClaimTasksOf(id, user);
      lists := lists[id := lists[id].(owner := Some(user))];
      SaveListResult(old(users), old(lists), old(tasks), id, user);
      r := Ok(id);
    }

    /** `update_list`: renames the list with shortlink `url`. Returns its key. */
    method UpdateList(url: string, name: string) returns (r: Result<Id>)
      requires Valid()
      modifies this
      ensures Valid()
      ensures users == old(users) && tasks == old(tasks)
      ensures match r
        case Err(e) => e == ListNotFound && UrlFree(old(lists), url) && lists == old(lists)
        case Ok(id) =>
          && id in old(lists) && old(lists)[id].url == url
          && lists == old(lists)[id := old(lists)[id].(name := name)]
    {
      if UrlFree(lists, url) {
        return Err(ListNotFound);
      }
      var id :| id in lists && lists[id].url == url;
      RenameListResult(users, lists, tasks, id, name);
      lists := lists[id := lists[id].(name := name)];
      r := Ok(id);
    }

    /** `delete_list`: deletes the tasks of list `id`, then the list. Any logged-in
        user may do so; ownership is not checked. */
    method DeleteList(id: Id, current: Option<Id>) returns (o: Outcome)
      requires Valid()
      modifies this
      ensures Valid()
      ensures users == old(users)
      ensures match o
        case Fail(e) =>
          && lists == old(lists) && tasks == old(tasks)
          && (if current.None? then e == Unauthenticated else e == ListNotFound && id !in old(lists))
        case Pass =>
          && current.Some? && id in old(lists)
          && lists == old(lists) - {id}
          && tasks == old(tasks) - TasksOf(old(tasks), {id})
    {
      if current.None? {
        return Fail(Unauthenticated);
      }
      if id !in lists {
        return Fail(ListNotFound);
      }
      DeleteListResult(users, lists, tasks, id);
      DeleteTasksOf(id);
      lists := lists - {id};
      o := Pass;
    }

    /** `new_task` as written: the task is stored before its list is looked up,
        so on a missing list the lookup fails after the task was committed. */
    method NewTaskAsWritten(id: Id, listId: Id, text: string, current: Option<Id>) returns (o: Outcome)
      requires Valid() && Session(current)
      requires id !in tasks
      modifies this
      ensures users == old(users) && lists == old(lists)
      ensures tasks == old(tasks)[id := NewTaskRow(text, listId, current)]
      ensures o == Pass <==> listId in lists
      ensures o != Pass ==> o == Fail(ListNotFound) && !Valid()
    {
      tasks := tasks[id := NewTaskRow(text, listId, current)];
      if listId !in lists {
        NewTaskOrphan(users, lists, old(tasks), id, text, listId, current);
        return Fail(ListNotFound);
      }
      o := Pass;
    }

    /** `new_task`: adds an unfinished, unstarred task to list `listId` under the
        fresh key `id`, owned by the current user if there is one. A missing list
        is refused before anything is stored. */
    method NewTask(id: Id, listId: Id, text: string, current: Option<Id>) returns (o: Outcome)
      requires Valid() && Session(current)
      requires id !in tasks
      modifies this
      ensures Valid()
      ensures users == old(users) && lists == old(lists)
      ensures o == Pass <==> listId in lists
      ensures o == Pass ==> tasks == old(tasks)[id := NewTaskRow(text, listId, current)]
      ensures o != Pass ==> o == Fail(ListNotFound) && tasks == old(tasks)
    {
      if listId !in lists {
        return Fail(ListNotFound);
      }
      NewTaskResult(users, lists, tasks, id, text, listId, current);
      tasks := tasks[id := NewTaskRow(text, listId, current)];
      o := Pass;
    }

    /** `due_date`: stores the reformatted date on task `id`. */
    method SetDueDate(id: Id, input: string) returns (o: Outcome)
      requires Valid()
      modifies this
      ensures Valid()
      ensures users == old(users) && lists == old(lists)
      ensures match o
        case Fail(e) =>
          && tasks == old(tasks)
          && (if id !in old(tasks) then e == TaskNotFound else DueDate.Reformat(input) == Err(e))
        case Pass =>
          && id in old(tasks) && DueDate.Reformat(input).Ok?
          && tasks == old(tasks)[id := old(tasks)[id].(dueDate := Some(DueDate.Reformat(input).value))]
    {
      if id !in tasks {
        return Fail(TaskNotFound);
      }
      var formatted := DueDate.Reformat(input);
      if formatted.Err? {
        return Fail(formatted.error);
      }
      TaskEditResult(users, lists, tasks, id, tasks[id].(dueDate := Some(formatted.value)));
      tasks := tasks[id := tasks[id].(dueDate := Some(formatted.value))];
      o := Pass;
    }

    /** `complete_task`: flips the completion flag of task `id`. */
    method CompleteTask(id: Id) returns (o: Outcome)
      requires Valid()
      modifies this
      ensures Valid()
      ensures users == old(users) && lists == old(lists)
      ensures o == Pass <==> id in old(tasks)
      ensures o == Pass ==> tasks == old(tasks)[id := ToggleComplete(old(tasks)[id])]
      ensures o != Pass ==> o == Fail(TaskNotFound) && tasks == old(tasks)
    {
      if id !in tasks {
        return Fail(TaskNotFound);
      }
      TaskEditResult(users, lists, tasks, id, ToggleComplete(tasks[id]));
      tasks := tasks[id := ToggleComplete(tasks[id])];
      o := Pass;
    }

    /** `star_task`: flips the starred flag of task `id`. */
    method StarTask(id: Id) returns (o: Outcome)
      requires Valid()
      modifies this
      ensures Valid()
      ensures users == old(users) && lists == old(lists)
      ensures o == Pass <==> id in old(tasks)
      ensures o == Pass ==> tasks == old(tasks)[id := ToggleStar(old(tasks)[id])]
      ensures o != Pass ==> o == Fail(TaskNotFound) && tasks == old(tasks)
    {
      if id !in tasks {
        return Fail(TaskNotFound);
      }
      TaskEditResult(users, lists, tasks, id, ToggleStar(tasks[id]));
      tasks := tasks[id := ToggleStar(tasks[id])];
      o := Pass;
    }

    /** `delete_task`: deletes task `id`. */
    method DeleteTask(id: Id) returns (o: Outcome)
      requires Valid()
      modifies this
      ensures Valid()
      ensures users == old(users) && lists == old(lists)
      ensures o == Pass <==> id in old(tasks)
      ensures o == Pass ==> tasks == old(tasks) - {id}
      ensures o != Pass ==> o == Fail(TaskNotFound) && tasks == old(tasks)
    {
      if id !in tasks {
        return Fail(TaskNotFound);
      }
      TaskEditResult(users, lists, tasks, id, tasks[id]);
      tasks := tasks - {id};
      o := Pass;
    }
  }

  /** A list that is created and not saved is gone after the next home-page
      visit, together with any task added to it, whether an anonymous or a
      logged-in visitor added the task. */
  method AbandonedListIsSwept(s: Store, listId: Id, url: string, taskId: Id, text: string, current: Option<Id>)
    requires s.Valid() && s.Session(current)
    requires listId !in s.lists && UrlFree(s.lists, url) && taskId !in s.tasks
    modifies s
    ensures listId !in s.lists && taskId !in s.tasks
    ensures UrlFree(s.lists, url)
  {
    var o := s.CreateList(listId, url);
    o := s.NewTask(taskId, listId, text, current);
    s.Sweep();
  }
}
