/** The three tables as maps from primary key to row, the effect of each
    handler stated as a function of the tables, the referential integrity the
    handlers rely on, and the lemmas that tie the two together. */
module Tables {
  import opened Schema

  type Users = map<Id, User>
  type Lists = map<Id, TaskList>
  type Tasks = map<Id, Task>

  /** The home page's test `not list_.user_id`: no owner, or the falsy id 0. */
  predicate IsUnclaimed(l: TaskList) {
    l.owner == None || l.owner == Some(0)
  }

  /** Ids of the lists the home-page sweep deletes. */
  function UnclaimedIds(ls: Lists): set<Id> {
    set id | id in ls && IsUnclaimed(ls[id])
  }

  /** Ids of the tasks that belong to one of `listIds` (`list_.tasks`, for several lists). */
  function TasksOf(ts: Tasks, listIds: set<Id>): set<Id> {
    set t | t in ts && ts[t].listId in listIds
  }

  /** `ts` with the tasks `ids` handed to `user`. */
  function Reassign(ts: Tasks, ids: set<Id>, user: Id): Tasks {
    map t | t in ts :: if t in ids then ts[t].(owner := Some(user)) else ts[t]
  }

  /** No list of `ls` has the shortlink `url`. */
  predicate UrlFree(ls: Lists, url: string) {
    forall id :: id in ls ==> ls[id].url != url
  }

  /** No user of `us` has the address `email`. */
  predicate EmailFree(us: Users, email: string) {
    forall id :: id in us ==> us[id].email != email
  }

  /** The row `create_list` inserts. */
  function NewListRow(url: string): TaskList {
    TaskList(DefaultListName, url, None)
  }

  /** The row `new_task` inserts; `current` is the logged-in user, if any. */
  function NewTaskRow(text: string, listId: Id, current: Option<Id>): Task {
    Task(text, listId, current, None, false, false)
  }

  /** `complete_task`'s flip of the completion flag. */
  function ToggleComplete(t: Task): (r: Task)
    ensures r.complete != t.complete && r.(complete := t.complete) == t
  {
    t.(complete := !t.complete)
  }

  /** `star_task`'s flip of the starred flag. */
  function ToggleStar(t: Task): (r: Task)
    ensures r.starred != t.starred && r.(starred := t.starred) == t
  {
    t.(starred := !t.starred)
  }

  /** What the handlers keep true of the tables: rowids start at 1, emails and
      shortlinks are unique, every task's list exists, and every owner is a user. */
  ghost predicate Intact(us: Users, ls: Lists, ts: Tasks) {
    && (forall u :: u in us ==> u >= 1)
    && (forall a, b :: a in us && b in us && a != b ==> us[a].email != us[b].email)
    && (forall a, b :: a in ls && b in ls && a != b ==> ls[a].url != ls[b].url)
    && (forall id :: id in ls && ls[id].owner.Some? ==> ls[id].owner.value in us)
    && (forall t :: t in ts ==> ts[t].listId in ls)
    && (forall t :: t in ts && ts[t].owner.Some? ==> ts[t].owner.value in us)
  }

  // ---------------------------------------------------------------- home sweep

  /** In intact tables the sweep's falsy test is exactly the test for a missing
      owner: no user has the id 0. */
  lemma UnclaimedMeansNoOwner(us: Users, ls: Lists, ts: Tasks, id: Id)
    requires Intact(us, ls, ts) && id in ls
    ensures IsUnclaimed(ls[id]) <==> ls[id].owner.None?
  {
  }

  /** The sweep deletes exactly the unclaimed lists and exactly the tasks of
      those lists; every claimed list and every task of one is kept as it was,
      and the tables stay intact. */
  lemma SweepResult(us: Users, ls: Lists, ts: Tasks)
    requires Intact(us, ls, ts)
    ensures var ls', ts' := ls - UnclaimedIds(ls), ts - TasksOf(ts, UnclaimedIds(ls));
      && Intact(us, ls', ts')
      && (forall id :: id in ls' ==> ls'[id].owner.Some?)
      && (forall id :: id in ls ==> (id in ls' <==> !IsUnclaimed(ls[id])))
      && (forall id :: id in ls' ==> ls'[id] == ls[id])
      && (forall t :: t in ts ==> (t in ts' <==> !IsUnclaimed(ls[ts[t].listId])))
      && (forall t :: t in ts' ==> ts'[t] == ts[t])
  {
  }

  /** A second sweep right after the first deletes nothing. */
  lemma SweepIdempotent(ls: Lists, ts: Tasks)
    ensures var ls', ts' := ls - UnclaimedIds(ls), ts - TasksOf(ts, UnclaimedIds(ls));
      ls' - UnclaimedIds(ls') == ls' && ts' - TasksOf(ts', UnclaimedIds(ls')) == ts'
  {
  }

  /** Deleting the tasks of one more list after those of `done`. */
  lemma TasksOfStep(ts: Tasks, done: set<Id>, id: Id)
    ensures var rest := ts - TasksOf(ts, done);
      rest - TasksOf(rest, {id}) == ts - TasksOf(ts, done + {id})
  {
  }

  // ---------------------------------------------------------------- create_list

  /** A new list with a fresh key and an unused shortlink keeps the tables
      intact, and no task belongs to it. */
  lemma CreateListResult(us: Users, ls: Lists, ts: Tasks, id: Id, url: string)
    requires Intact(us, ls, ts)
    requires id !in ls && UrlFree(ls, url)
    ensures Intact(us, ls[id := NewListRow(url)], ts)
    ensures TasksOf(ts, {id}) == {}
  {
  }

  // ---------------------------------------------------------------- save_list

  /** Saving a list for a user keeps the tables intact; afterwards every task of
      the list has the list's owner, and the list survives the next sweep. */
  lemma SaveListResult(us: Users, ls: Lists, ts: Tasks, id: Id, user: Id)
    requires Intact(us, ls, ts)
    requires id in ls && user in us
    ensures var ls', ts' := ls[id := ls[id].(owner := Some(user))], Reassign(ts, TasksOf(ts, {id}), user);
      && Intact(us, ls', ts')
      && (forall t :: t in ts' && ts'[t].listId == id ==> ts'[t].owner == ls'[id].owner)
      && !IsUnclaimed(ls'[id])
  {
  }

  /** Handing over one more task after the tasks `done`. */
  lemma ReassignStep(ts: Tasks, done: set<Id>, t: Id, user: Id)
    requires t in ts && t !in done
    ensures var r := Reassign(ts, done, user);
      r[t := r[t].(owner := Some(user))] == Reassign(ts, done + {t}, user)
  {
  }

  // ---------------------------------------------------------------- delete_list

  /** Deleting a list and its tasks keeps the tables intact, and no task refers
      to the list afterwards. */
  lemma DeleteListResult(us: Users, ls: Lists, ts: Tasks, id: Id)
    requires Intact(us, ls, ts)
    ensures var ts' := ts - TasksOf(ts, {id});
      && Intact(us, ls - {id}, ts')
      && (forall t :: t in ts' ==> ts'[t].listId != id)
  {
  }

  // ---------------------------------------------------------------- new_task

  /** A new task on an existing list, owned by a user or by nobody, keeps the
      tables intact. */
  lemma NewTaskResult(us: Users, ls: Lists, ts: Tasks, id: Id, text: string, listId: Id, current: Option<Id>)
    requires Intact(us, ls, ts)
    requires listId in ls && (current.Some? ==> current.value in us)
    ensures Intact(us, ls, ts[id := NewTaskRow(text, listId, current)])
  {
  }

  /** A new task on a list that does not exist leaves a task without its list. */
  lemma NewTaskOrphan(us: Users, ls: Lists, ts: Tasks, id: Id, text: string, listId: Id, current: Option<Id>)
    requires listId !in ls
    ensures !Intact(us, ls, ts[id := NewTaskRow(text, listId, current)])
  {
    var ts' := ts[id := NewTaskRow(text, listId, current)];
    assert id in ts' && ts'[id].listId !in ls;
  }

  // ---------------------------------------------------------------- task updates

  /** Each toggle flips its own flag and leaves every other field alone; a
      second toggle restores the task. */
  lemma ToggleInvolutions(t: Task)
    ensures ToggleComplete(t).complete != t.complete && ToggleComplete(t).(complete := t.complete) == t
    ensures ToggleStar(t).starred != t.starred && ToggleStar(t).(starred := t.starred) == t
    ensures ToggleComplete(ToggleComplete(t)) == t && ToggleStar(ToggleStar(t)) == t
  {
  }

  /** Completing or starring the same task twice gives back the tasks table. */
  lemma ToggleTwiceRestoresTable(ts: Tasks, id: Id)
    requires id in ts
    ensures var once := ts[id := ToggleComplete(ts[id])];
      once[id := ToggleComplete(once[id])] == ts
    ensures var once := ts[id := ToggleStar(ts[id])];
      once[id := ToggleStar(once[id])] == ts
  {
  }

  /** Replacing a task by one on the same list with the same owner, or deleting
      a task, keeps the tables intact. */
  lemma TaskEditResult(us: Users, ls: Lists, ts: Tasks, id: Id, t: Task)
    requires Intact(us, ls, ts)
    requires id in ts && t.listId == ts[id].listId && t.owner == ts[id].owner
    ensures Intact(us, ls, ts[id := t])
    ensures Intact(us, ls, ts - {id})
  {
  }

  /** Renaming a list keeps the tables intact. */
  lemma RenameListResult(us: Users, ls: Lists, ts: Tasks, id: Id, name: string)
    requires Intact(us, ls, ts)
    requires id in ls
    ensures Intact(us, ls[id := ls[id].(name := name)], ts)
  {
  }

  // ---------------------------------------------------------------- register

  /** A new user with a fresh rowid and an unused email keeps the tables intact. */
  lemma RegisterResult(us: Users, ls: Lists, ts: Tasks, id: Id, u: User)
    requires Intact(us, ls, ts)
    requires id >= 1 && id !in us && EmailFree(us, u.email)
    ensures Intact(us[id := u], ls, ts)
  {
  }
}
