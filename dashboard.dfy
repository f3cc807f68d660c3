/** The dashboard's data layer: the signed-in user's projects (each owning its tasks),
    team members, activity log and notification log, the selected project, and the
    operations the page's handlers run on them. Rendering is left to the caller, who
    recomputes the views of `Views` after each operation. */
module Dashboard {
  import opened Wrappers
  import opened Seqs
  import opened Text
  import opened Entities
  import opened Views
  import Auth

  /** Both logs keep only their 50 newest entries. */
  const LogCap: nat := 50

  const ProjectNameAlert := "Please enter a project name."
  const TaskTitleAlert := "Please enter a task title."
  const NoProjectAlert := "Create a project first."
  const MemberFieldsAlert := "Please fill all required fields."
  const MemberExistsAlert := "Member already exists."
  const PasswordFieldsAlert := "Fill all password fields."
  const PasswordMismatchAlert := "New passwords do not match."
  const PasswordShortAlert := "Password must be at least 8 characters."
  const PasswordWrongAlert := "Current password is incorrect."

  /** An id taken from the clock: never empty, never the synthetic member's, not in use. */
  predicate FreshId(id: string, used: seq<string>) {
    id != "" && id != SelfId && id !in used
  }

  predicate TasksWellFormed(ts: seq<Task>) {
    Distinct(Map(ts, TaskId)) && forall i :: 0 <= i < |ts| ==> ts[i].id != ""
  }

  predicate ProjectsWellFormed(ps: seq<Project>) {
    && Distinct(Map(ps, ProjectId))
    && forall i :: 0 <= i < |ps| ==> ps[i].id != "" && TasksWellFormed(ps[i].tasks)
  }

  predicate TeamWellFormed(team: seq<Member>) {
    && Distinct(Map(team, MemberId))
    && Distinct(Map(team, MemberEmail))
    && forall i :: 0 <= i < |team| ==> team[i].id != "" && team[i].id != SelfId
  }

  /** `Object.assign(p, data)` with the project form's fields. */
  function EditProject(p: Project, name: string, desc: string, status: Status,
                       deadline: Option<int>): (r: Project)
    ensures r.id == p.id && r.tasks == p.tasks && r.created == p.created
    ensures r.name == name && r.desc == desc && r.status == status && r.deadline == deadline
  {
    p.(name := name, desc := desc, status := status, deadline := deadline)
  }

  /** `Object.assign(t, data)` with the task form's fields: the id and the completion time
      stay, while `done` is reset and `created` is overwritten, as the form data carries
      `done: false` and a new timestamp. */
  function EditTask(t: Task, title: string, desc: string, priority: Priority, due: Option<int>,
                    assignee: string, files: seq<FileAttachment>, now: string): (r: Task)
    ensures r.id == t.id && r.doneAt == t.doneAt && !r.done && r.created == now
    ensures r.title == title && r.desc == desc && r.priority == priority && r.due == due
    ensures r.assignee == assignee && r.files == files
  {
    Task(t.id, title, desc, priority, due, assignee, files, false, t.doneAt, now)
  }

  /** Editing a completed task of a project reopens it but keeps the time it was
      completed, so the project has one done task fewer. */
  lemma EditReopensTask(ts: seq<Task>, j: nat, title: string, desc: string, priority: Priority,
                        due: Option<int>, assignee: string, files: seq<FileAttachment>, now: string)
    requires j < |ts| && ts[j].done
    ensures var r := EditTask(ts[j], title, desc, priority, due, assignee, files, now);
      && !r.done && r.doneAt == ts[j].doneAt
      && Count(ts[j := r], IsDone) == Count(ts, IsDone) - 1
  {
    var r := EditTask(ts[j], title, desc, priority, due, assignee, files, now);
    assert Filter([r], IsDone) == [];
    assert Filter([ts[j]], IsDone) == [ts[j]];
    assert ts == ts[..j] + [ts[j]] + ts[j + 1..];
    assert ts[j := r] == ts[..j] + [r] + ts[j + 1..];
    CountAppend(ts[..j] + [r], ts[j + 1..], IsDone);
    CountAppend(ts[..j], [r], IsDone);
    CountAppend(ts[..j] + [ts[j]], ts[j + 1..], IsDone);
    CountAppend(ts[..j], [ts[j]], IsDone);
  }

  /** Replacing the tasks of one project changes the flattened done count by exactly the
      change in that project. */
  lemma DoneTasksAfterReplace(ps: seq<Project>, k: nat, ts: seq<Task>)
    requires k < |ps|
    ensures Count(AllTasks(ps[k := ps[k].(tasks := ts)]), IsDone) + Count(ps[k].tasks, IsDone)
            == Count(AllTasks(ps), IsDone) + Count(ts, IsDone)
  {
    var qs := ps[k := ps[k].(tasks := ts)];
    AllTasksSplit(ps, k);
    AllTasksSplit(qs, k);
    assert qs[..k] == ps[..k] && qs[k + 1..] == ps[k + 1..];
    var a, b := AllTasks(ps[..k]), AllTasks(ps[k + 1..]);
    CountAppend(a + ps[k].tasks, b, IsDone);
    CountAppend(a, ps[k].tasks, IsDone);
    CountAppend(a + ts, b, IsDone);
    CountAppend(a, ts, IsDone);
  }

  /** Editing a completed task lowers the overview's count of done tasks by one. */
  lemma EditLowersDoneTasks(ps: seq<Project>, k: nat, j: nat, title: string, desc: string,
                            priority: Priority, due: Option<int>, assignee: string,
                            files: seq<FileAttachment>, now: string)
    requires k < |ps| && j < |ps[k].tasks| && ps[k].tasks[j].done
    ensures var ts := ps[k].tasks;
      var qs := ps[k := ps[k].(tasks := ts[j := EditTask(ts[j], title, desc, priority, due, assignee, files, now)])];
      ComputeStats(qs, []).doneTasks == ComputeStats(ps, []).doneTasks - 1
  {
    var ts := ps[k].tasks;
    var r := EditTask(ts[j], title, desc, priority, due, assignee, files, now);
    EditReopensTask(ts, j, title, desc, priority, due, assignee, files, now);
    DoneTasksAfterReplace(ps, k, ts[j := r]);
  }

  /** A project whose task list keeps its shape leaves the collection well formed. */
  lemma ReplaceProject(ps: seq<Project>, k: nat, p: Project)
    requires ProjectsWellFormed(ps) && k < |ps| && p.id == ps[k].id && TasksWellFormed(p.tasks)
    ensures ProjectsWellFormed(ps[k := p])
    ensures Map(ps[k := p], ProjectId) == Map(ps, ProjectId)
  {
    MapUpdateKey(ps, k, p, ProjectId);
  }

  /** An id no task in the store has is not the id of a task of project `k`. */
  lemma FreshInProject(ps: seq<Project>, k: nat, id: string)
    requires k < |ps| && id !in Map(AllTasks(ps), TaskId)
    ensures id !in Map(ps[k].tasks, TaskId)
  {
    var ts := ps[k].tasks;
    forall i | 0 <= i < |ts| ensures Map(ts, TaskId)[i] != id {
      AllTasksMembership(ps, ts[i]);
      var all := AllTasks(ps);
      var j :| 0 <= j < |all| && all[j] == ts[i];
      assert Map(all, TaskId)[j] == ts[i].id;
    }
  }

  class Store {
    /** The signed-in user, read at session start. */
    const user: User
    var projects: seq<Project>
    var team: seq<Member>
    /** Newest first. */
    var activities: seq<Activity>
    /** Newest first. */
    var notifications: seq<Notification>
    /** The id of the project the details view and the task form work on. */
    var current: Option<string>

    ghost predicate Valid()
      reads this
    {
      && user.firstName != [] && user.lastName != []
      && |activities| <= LogCap && |notifications| <= LogCap
      && ProjectsWellFormed(projects)
      && TeamWellFormed(team)
      && (current.Some? ==> current.value in Map(projects, ProjectId))
    }

    /** `loadAll`: the stored collections of the user; a missing key reads as empty. */
    constructor Load(user: User, storedProjects: Option<seq<Project>>,
                     storedTeam: Option<seq<Member>>, storedActivities: Option<seq<Activity>>,
                     storedNotifications: Option<seq<Notification>>)
      requires user.firstName != [] && user.lastName != []
      requires ProjectsWellFormed(storedProjects.GetOr([]))
      requires TeamWellFormed(storedTeam.GetOr([]))
      requires |storedActivities.GetOr([])| <= LogCap && |storedNotifications.GetOr([])| <= LogCap
      ensures Valid() && this.user == user && current == None
      ensures projects == storedProjects.GetOr([]) && team == storedTeam.GetOr([])
      ensures activities == storedActivities.GetOr([])
      ensures notifications == storedNotifications.GetOr([])
    {
      this.user := user;
      projects := storedProjects.GetOr([]);
      team := storedTeam.GetOr([]);
      activities := storedActivities.GetOr([]);
      notifications := storedNotifications.GetOr([]);
      current := None;
    }

    /** Position of the selected project in `projects`. */
    function Selected(): (k: nat)
      reads this
      requires Valid() && current.Some?
      ensures k < |projects| && projects[k].id == current.value
    {
      var id := current.value;
      var i :| 0 <= i < |projects| && Map(projects, ProjectId)[i] == id;
      assert ProjectIs(id)(projects[i]);
      IndexWhere(projects, ProjectIs(id)).value
    }

    /** `addActivity`: the new entry goes to the front and the log is cut to 50. */
    method AddActivity(kind: ActivityType, text: string, now: string)
      requires Valid()
      modifies this`activities
      ensures Valid()
      ensures activities == CapPush(old(activities), Activity(kind, text, now), LogCap)
      ensures activities[0] == Activity(kind, text, now) && |activities| <= LogCap
    {
      var acts := activities;
      acts := [Activity(kind, text, now)] + acts;
      if |acts| > LogCap {
        acts := acts[..LogCap];
      }
      activities := acts;
    }

    /** `addNotification`: the same discipline; a new notification is unread. */
    method AddNotification(title: string, text: string, now: string)
      requires Valid()
      modifies this`notifications
      ensures Valid()
      ensures notifications == CapPush(old(notifications), Notification(title, text, now, false), LogCap)
      ensures !notifications[0].read && |notifications| <= LogCap
    {
      var n := notifications;
      n := [Notification(title, text, now, false)] + n;
      if |n| > LogCap {
        n := n[..LogCap];
      }
      notifications := n;
    }

    /** Writes back a project that keeps its id and whose tasks stay well formed. */
    method PutProject(k: nat, p: Project)
      requires Valid() && k < |projects| && p.id == projects[k].id && TasksWellFormed(p.tasks)
      modifies this`projects
      ensures Valid() && projects == old(projects)[k := p]
    {
      ReplaceProject(projects, k, p);
      projects := projects[k := p];
    }

    /** Writes back task `j` of project `k`; the task keeps its id. */
    method PutTask(k: nat, j: nat, t: Task)
      requires Valid() && k < |projects| && j < |projects[k].tasks| && t.id == projects[k].tasks[j].id
      modifies this`projects
      ensures Valid()
      ensures projects == old(projects)[k := old(projects)[k].(tasks := old(projects)[k].tasks[j := t])]
    {
      var p := projects[k];
      MapUpdateKey(p.tasks, j, t, TaskId);
      PutProject(k, p.(tasks := p.tasks[j := t]));
    }

    /** Appends to project `k` a task whose id none of its tasks has. */
    method AppendTask(k: nat, t: Task)
      requires Valid() && k < |projects| && t.id != "" && t.id !in Map(projects[k].tasks, TaskId)
      modifies this`projects
      ensures Valid()
      ensures projects == old(projects)[k := old(projects)[k].(tasks := old(projects)[k].tasks + [t])]
    {
      var p := projects[k];
      MapAppendKey(p.tasks, t, TaskId);
      PutProject(k, p.(tasks := p.tasks + [t]));
    }

    /** Keeps in project `k` the tasks whose id is not `id`. */
    method DropTasks(k: nat, id: string)
      requires Valid() && k < |projects|
      modifies this`projects
      ensures Valid()
      ensures projects == old(projects)[k := old(projects)[k].(tasks := Filter(old(projects)[k].tasks, TaskIsNot(id)))]
    {
      var p := projects[k];
      var kept := Filter(p.tasks, TaskIsNot(id));
      FilterDistinct(p.tasks, TaskIsNot(id), TaskId);
      FilterMembers(p.tasks, TaskIsNot(id));
      forall i | 0 <= i < |kept| ensures kept[i].id != "" {
        assert kept[i] in p.tasks;
      }
      PutProject(k, p.(tasks := kept));
    }

    /** Removes task `j` of project `k`, as the filter on its id does. */
    method RemoveTask(k: nat, j: nat)
      requires Valid() && k < |projects| && j < |projects[k].tasks|
      modifies this`projects
      ensures Valid()
      ensures var ts := old(projects)[k].tasks;
        && ts[..j] + ts[j + 1..] == Filter(ts, TaskIsNot(ts[j].id))
        && projects == old(projects)[k := old(projects)[k].(tasks := ts[..j] + ts[j + 1..])]
    {
      var ts := projects[k].tasks;
      RemoveByKey(ts, TaskId, ts[j].id, j);
      DropTasks(k, ts[j].id);
    }

    /** Appends a member whose id and email are new to the team. */
    method AppendMember(m: Member)
      requires Valid() && FreshId(m.id, Map(team, MemberId)) && m.email !in Map(team, MemberEmail)
      modifies this`team
      ensures Valid() && team == old(team) + [m]
    {
      MapAppendKey(team, m, MemberId);
      MapAppendKey(team, m, MemberEmail);
      team := team + [m];
    }

    /** `openProjectDetails`: selects the project with that id, or nothing. */
    method OpenProjectDetails(id: string)
      requires Valid()
      modifies this`current
      ensures Valid()
      ensures current == (if Any(projects, ProjectIs(id)) then Some(id) else None)
    {
      var found := IndexWhere(projects, ProjectIs(id));
      if found.Some? {
        assert Map(projects, ProjectId)[found.value] == id;
        current := Some(id);
      } else {
        current := None;
      }
    }

    /** `openTaskModal`: with nothing selected the first project is taken; with no project
        at all the form is refused. */
    method OpenTaskModal() returns (o: Outcome)
      requires Valid()
      modifies this`current
      ensures Valid()
      ensures old(current).Some? ==> current == old(current) && o == Applied
      ensures old(current).None? && projects != [] ==> current == Some(projects[0].id) && o == Applied
      ensures old(current).None? && projects == [] ==> current == None && o == Invalid(NoProjectAlert)
    {
      if current.None? && |projects| > 0 {
        assert Map(projects, ProjectId)[0] == projects[0].id;
        current := Some(projects[0].id);
      }
      if current.None? {
        o := Invalid(NoProjectAlert);
        return;
      }
      o := Applied;
    }

    /** `saveProject`: a blank name is refused; an empty `editId` creates a project, any
        other updates the first project with that id, if there is one, and logs the update
        in either case. */
    method SaveProject(editId: string, name: string, desc: string, status: Status,
                       deadline: Option<int>, freshId: string, now: string)
      returns (o: Outcome)
      requires Valid()
      requires editId == "" ==> FreshId(freshId, Map(projects, ProjectId))
      modifies this`projects, this`activities, this`notifications
      ensures Valid()
      ensures Trim(name) == "" ==>
        o == Invalid(ProjectNameAlert) && projects == old(projects)
        && activities == old(activities) && notifications == old(notifications)
      ensures Trim(name) != "" && editId == "" ==>
        o == Applied
        && projects == old(projects) + [Project(freshId, Trim(name), Trim(desc), status, deadline, [], now)]
        && activities == CapPush(old(activities), Activity(CreatedEntry, "Created project: " + Trim(name), now), LogCap)
        && notifications == CapPush(old(notifications),
             Notification("Project Created", Quoted(Trim(name)) + " is ready to go", now, false), LogCap)
      ensures Trim(name) != "" && editId != "" ==>
        && notifications == old(notifications)
        && activities == CapPush(old(activities), Activity(UpdatedEntry, "Updated project: " + Trim(name), now), LogCap)
        && match IndexWhere(old(projects), ProjectIs(editId))
           case Some(k) => o == Applied
             && projects == old(projects)[k := EditProject(old(projects)[k], Trim(name), Trim(desc), status, deadline)]
           case None => o == NotFound && projects == old(projects)
    {
      var trimmed := Trim(name);
      if trimmed == "" {
        o := Invalid(ProjectNameAlert);
        return;
      }
      o := SaveNamedProject(editId, trimmed, Trim(desc), status, deadline, freshId, now);
    }

    /** `saveProject` once the name has passed: create on an empty `editId`, otherwise
        update, on the trimmed fields. */
    method SaveNamedProject(editId: string, name: string, desc: string, status: Status,
                            deadline: Option<int>, freshId: string, now: string)
      returns (o: Outcome)
      requires Valid()
      requires editId == "" ==> FreshId(freshId, Map(projects, ProjectId))
      modifies this`projects, this`activities, this`notifications
      ensures Valid()
      ensures editId == "" ==>
        o == Applied
        && projects == old(projects) + [Project(freshId, name, desc, status, deadline, [], now)]
        && activities == CapPush(old(activities), Activity(CreatedEntry, "Created project: " + name, now), LogCap)
        && notifications == CapPush(old(notifications),
             Notification("Project Created", Quoted(name) + " is ready to go", now, false), LogCap)
      ensures editId != "" ==>
        && notifications == old(notifications)
        && activities == CapPush(old(activities), Activity(UpdatedEntry, "Updated project: " + name, now), LogCap)
        && match IndexWhere(old(projects), ProjectIs(editId))
           case Some(k) => o == Applied
             && projects == old(projects)[k := EditProject(old(projects)[k], name, desc, status, deadline)]
           case None => o == NotFound && projects == old(projects)
    {
      if editId != "" {
        o := UpdateProject(editId, name, desc, status, deadline, now);
      } else {
        CreateProject(Project(freshId, name, desc, status, deadline, [], now));
        o := Applied;
      }
    }

    /** The edit branch of `saveProject`, on the trimmed fields. */
    method UpdateProject(editId: string, name: string, desc: string, status: Status,
                         deadline: Option<int>, now: string)
      returns (o: Outcome)
      requires Valid()
      modifies this`projects, this`activities
      ensures Valid()
      ensures activities == CapPush(old(activities), Activity(UpdatedEntry, "Updated project: " + name, now), LogCap)
      ensures match IndexWhere(old(projects), ProjectIs(editId))
        case Some(k) => o == Applied
          && projects == old(projects)[k := EditProject(old(projects)[k], name, desc, status, deadline)]
        case None => o == NotFound && projects == old(projects)
    {
      var found := IndexWhere(projects, ProjectIs(editId));
      if found.Some? {
        var k := found.value;
        PutProject(k, EditProject(projects[k], name, desc, status, deadline));
        o := Applied;
      } else {
        o := NotFound;
      }
      AddActivity(UpdatedEntry, "Updated project: " + name, now);
    }

    /** The create branch of `saveProject`: the new project goes last and is announced. */
    method CreateProject(p: Project)
      requires Valid() && FreshId(p.id, Map(projects, ProjectId)) && TasksWellFormed(p.tasks)
      modifies this`projects, this`activities, this`notifications
      ensures Valid()
      ensures projects == old(projects) + [p]
      ensures activities == CapPush(old(activities), Activity(CreatedEntry, "Created project: " + p.name, p.created), LogCap)
      ensures notifications == CapPush(old(notifications),
        Notification("Project Created", Quoted(p.name) + " is ready to go", p.created, false), LogCap)
    {
      MapAppendKey(projects, p, ProjectId);
      projects := projects + [p];
      AddActivity(CreatedEntry, "Created project: " + p.name, p.created);
      AddNotification("Project Created", Quoted(p.name) + " is ready to go", p.created);
    }

    /** `deleteProject` (the confirmation accepted): removes the selected project, and with it
        its tasks, and logs the deletion. */
    method DeleteProject(now: string) returns (o: Outcome)
      requires Valid()
      modifies this`projects, this`activities, this`current
      ensures Valid()
      ensures current == None
      ensures old(current).None? ==>
        o == NoSelection && projects == old(projects) && activities == old(activities)
      ensures old(current).Some? ==>
        var k := old(Selected());
        && o == Applied
        && projects == Filter(old(projects), ProjectIsNot(old(current).value))
        && projects == old(projects)[..k] + old(projects)[k + 1..]
        && old(current).value !in Map(projects, ProjectId)
        && activities == CapPush(old(activities),
             Activity(DeletedEntry, "Deleted project: " + old(projects)[k].name, now), LogCap)
    {
      if current.None? {
        o := NoSelection;
        return;
      }
      var id := current.value;
      var k := Selected();
      AddActivity(DeletedEntry, "Deleted project: " + projects[k].name, now);
      var before := projects;
      RemoveByKey(before, ProjectId, id, k);
      projects := Filter(projects, ProjectIsNot(id));
      FilterDistinct(before, ProjectIsNot(id), ProjectId);
      FilterMembers(before, ProjectIsNot(id));
      forall i | 0 <= i < |projects| ensures projects[i].id != id {
        assert ProjectIsNot(id)(projects[i]);
      }
      forall i | 0 <= i < |projects| ensures projects[i].id != "" && TasksWellFormed(projects[i].tasks) {
        assert projects[i] in before;
      }
      current := None;
      o := Applied;
    }

    /** `saveTask`: needs a selected project and a title that is not blank; an empty
        `editId` appends a new open task, any other overwrites the first task with that id,
        if there is one, and logs the update in either case. */
    method SaveTask(editId: string, title: string, desc: string, priority: Priority,
                    due: Option<int>, assignee: string, files: seq<FileAttachment>,
                    freshId: string, now: string)
      returns (o: Outcome)
      requires Valid()
      requires editId == "" ==> FreshId(freshId, Map(AllTasks(projects), TaskId))
      modifies this`projects, this`activities, this`notifications
      ensures Valid()
      ensures old(current).None? ==> o == NoSelection
      ensures old(current).Some? && Trim(title) == "" ==> o == Invalid(TaskTitleAlert)
      ensures old(current).None? || Trim(title) == "" ==>
        projects == old(projects) && activities == old(activities) && notifications == old(notifications)
      ensures old(current).Some? && Trim(title) != "" && editId == "" ==>
        var k := old(Selected());
        var p := old(projects)[k];
        var t := Task(freshId, Trim(title), Trim(desc), priority, due, assignee, files, false, None, now);
        && o == Applied
        && projects == old(projects)[k := p.(tasks := p.tasks + [t])]
        && activities == CapPush(old(activities), Activity(CreatedEntry, "Created task: " + Trim(title), now), LogCap)
        && notifications == CapPush(old(notifications),
             Notification("Task Added", Quoted(Trim(title)) + " added to " + p.name, now, false), LogCap)
      ensures old(current).Some? && Trim(title) != "" && editId != "" ==>
        var k := old(Selected());
        var p := old(projects)[k];
        && notifications == old(notifications)
        && activities == CapPush(old(activities), Activity(UpdatedEntry, "Updated task: " + Trim(title), now), LogCap)
        && match IndexWhere(p.tasks, TaskIs(editId))
           case Some(j) => o == Applied
             && projects == old(projects)[k := p.(tasks := p.tasks[j :=
                  EditTask(p.tasks[j], Trim(title), Trim(desc), priority, due, assignee, files, now)])]
           case None => o == NotFound && projects == old(projects)
    {
      if current.None? {
        o := NoSelection;
        return;
      }
      var trimmed := Trim(title);
      if trimmed == "" {
        o := Invalid(TaskTitleAlert);
        return;
      }
      var k := Selected();
      if editId != "" {
        o := UpdateTask(k, editId, trimmed, Trim(desc), priority, due, assignee, files, now);
      } else {
        FreshInProject(projects, k, freshId);
        CreateTask(k, Task(freshId, trimmed, Trim(desc), priority, due, assignee, files, false, None, now));
        o := Applied;
      }
    }

    /** The edit branch of `saveTask` on project `k`, with the trimmed fields. */
    method UpdateTask(k: nat, editId: string, title: string, desc: string, priority: Priority,
                      due: Option<int>, assignee: string, files: seq<FileAttachment>, now: string)
      returns (o: Outcome)
      requires Valid() && k < |projects|
      modifies this`projects, this`activities
      ensures Valid()
      ensures activities == CapPush(old(activities), Activity(UpdatedEntry, "Updated task: " + title, now), LogCap)
      ensures var p := old(projects)[k];
        match IndexWhere(p.tasks, TaskIs(editId))
        case Some(j) => o == Applied
          && projects == old(projects)[k := p.(tasks := p.tasks[j :=
               EditTask(p.tasks[j], title, desc, priority, due, assignee, files, now)])]
        case None => o == NotFound && projects == old(projects)
    {
      var p := projects[k];
      var found := IndexWhere(p.tasks, TaskIs(editId));
      if found.Some? {
        var j := found.value;
        PutTask(k, j, EditTask(p.tasks[j], title, desc, priority, due, assignee, files, now));
        o := Applied;
      } else {
        o := NotFound;
      }
      AddActivity(UpdatedEntry, "Updated task: " + title, now);
    }

    /** The create branch of `saveTask`: the new task goes last in project `k` and is
        announced with the project's name. */
    method CreateTask(k: nat, t: Task)
      requires Valid() && k < |projects| && t.id != "" && t.id !in Map(projects[k].tasks, TaskId)
      modifies this`projects, this`activities, this`notifications
      ensures Valid()
      ensures var p := old(projects)[k];
        && projects == old(projects)[k := p.(tasks := p.tasks + [t])]
        && activities == CapPush(old(activities), Activity(CreatedEntry, "Created task: " + t.title, t.created), LogCap)
        && notifications == CapPush(old(notifications),
             Notification("Task Added", Quoted(t.title) + " added to " + p.name, t.created, false), LogCap)
    {
      var name := projects[k].name;
      AppendTask(k, t);
      AddActivity(CreatedEntry, "Created task: " + t.title, t.created);
      AddNotification("Task Added", Quoted(t.title) + " added to " + name, t.created);
    }

    /** `deleteTask` (the confirmation accepted): drops the task with that id from the
        selected project, keeping the others in order; the deletion is logged only when
        the id was there. */
    method DeleteTask(taskId: string, now: string) returns (o: Outcome)
      requires Valid()
      modifies this`projects, this`activities
      ensures Valid()
      ensures old(current).None? ==>
        o == NoSelection && projects == old(projects) && activities == old(activities)
      ensures old(current).Some? ==>
        var k := old(Selected());
        var p := old(projects)[k];
        match IndexWhere(p.tasks, TaskIs(taskId))
        case Some(j) => o == Applied
          && projects == old(projects)[k := p.(tasks := p.tasks[..j] + p.tasks[j + 1..])]
          && activities == CapPush(old(activities), Activity(DeletedEntry, "Deleted task: " + p.tasks[j].title, now), LogCap)
        case None => o == NotFound && projects == old(projects) && activities == old(activities)
    {
      if current.None? {
        o := NoSelection;
        return;
      }
      var k := Selected();
      var p := projects[k];
      var found := IndexWhere(p.tasks, TaskIs(taskId));
      if found.None? {
        // filtering out an id that is not there leaves the project as it was
        o := NotFound;
        return;
      }
      AddActivity(DeletedEntry, "Deleted task: " + p.tasks[found.value].title, now);
      RemoveTask(k, found.value);
      o := Applied;
    }

    /** `toggleTask`: flips `done`. Completing a task stamps `doneAt` and logs one activity
        and one notification; reopening it logs nothing and keeps the old `doneAt`. */
    method ToggleTask(taskId: string, now: string) returns (o: Outcome)
      requires Valid()
      modifies this`projects, this`activities, this`notifications
      ensures Valid()
      ensures old(current).None? ==>
        o == NoSelection && projects == old(projects)
        && activities == old(activities) && notifications == old(notifications)
      ensures old(current).Some? ==>
        var k := old(Selected());
        var p := old(projects)[k];
        match IndexWhere(p.tasks, TaskIs(taskId))
        case None => o == NotFound && projects == old(projects)
          && activities == old(activities) && notifications == old(notifications)
        case Some(j) =>
          var t := p.tasks[j];
          && o == Applied
          && (t.done ==>
                && projects == old(projects)[k := p.(tasks := p.tasks[j := t.(done := false)])]
                && activities == old(activities) && notifications == old(notifications))
          && (!t.done ==>
                && projects == old(projects)[k := p.(tasks := p.tasks[j := t.(done := true, doneAt := Some(now))])]
                && activities == CapPush(old(activities), Activity(CompletedEntry, "Completed task: " + t.title, now), LogCap)
                && notifications == CapPush(old(notifications),
                     Notification("Task Done \U{2713}", Quoted(t.title) + " is complete", now, false), LogCap))
    {
      if current.None? {
        o := NoSelection;
        return;
      }
      var k := Selected();
      var p := projects[k];
      var found := IndexWhere(p.tasks, TaskIs(taskId));
      if found.None? {
        o := NotFound;
        return;
      }
      var j := found.value;
      var t := p.tasks[j];
      t := t.(done := !t.done);
      if t.done {
        t := t.(doneAt := Some(now));
      }
      PutTask(k, j, t);
      if t.done {
        AddActivity(CompletedEntry, "Completed task: " + t.title, now);
        AddNotification("Task Done \U{2713}", Quoted(t.title) + " is complete", now);
      }
      o := Applied;
    }

    /** `saveMember`: first name, last name and email are trimmed and required, the email
        must be new to the team; the member gets the upper-cased initials of the name. */
    method SaveMember(first: string, last: string, email: string, role: string,
                      freshId: string, now: string)
      returns (o: Outcome)
      requires Valid()
      requires FreshId(freshId, Map(team, MemberId))
      modifies this`team, this`activities, this`notifications
      ensures Valid()
      ensures var f, l, e := Trim(first), Trim(last), Trim(email);
        if f == "" || l == "" || e == "" then
          o == Invalid(MemberFieldsAlert) && team == old(team)
          && activities == old(activities) && notifications == old(notifications)
        else if Any(old(team), MemberHasEmail(e)) then
          o == Invalid(MemberExistsAlert) && team == old(team)
          && activities == old(activities) && notifications == old(notifications)
        else
          var name := f + " " + l;
          && o == Applied
          && team == old(team) + [Member(freshId, name, e, role, Initials(f, l), now)]
          && activities == CapPush(old(activities), Activity(CreatedEntry, "Added team member: " + name, now), LogCap)
          && notifications == CapPush(old(notifications), Notification("Member Added", name + " joined the team", now, false), LogCap)
    {
      var f, l, e := Trim(first), Trim(last), Trim(email);
      if f == "" || l == "" || e == "" {
        o := Invalid(MemberFieldsAlert);
        return;
      }
      if IndexWhere(team, MemberHasEmail(e)).Some? {
        o := Invalid(MemberExistsAlert);
        return;
      }
      AdmitMember(Member(freshId, f + " " + l, e, role, Initials(f, l), now));
      o := Applied;
    }

    /** The success branch of `saveMember`: a member whose email is new joins the team
        and is announced. */
    method AdmitMember(m: Member)
      requires Valid() && FreshId(m.id, Map(team, MemberId)) && !Any(team, MemberHasEmail(m.email))
      modifies this`team, this`activities, this`notifications
      ensures Valid()
      ensures team == old(team) + [m]
      ensures activities == CapPush(old(activities), Activity(CreatedEntry, "Added team member: " + m.name, m.added), LogCap)
      ensures notifications == CapPush(old(notifications), Notification("Member Added", m.name + " joined the team", m.added, false), LogCap)
    {
      forall i | 0 <= i < |team| ensures Map(team, MemberEmail)[i] != m.email {
        assert !MemberHasEmail(m.email)(team[i]);
      }
      AppendMember(m);
      AddActivity(CreatedEntry, "Added team member: " + m.name, m.added);
      AddNotification("Member Added", m.name + " joined the team", m.added);
    }

    /** `markAllRead`: every notification is kept, in order, and marked read. */
    method MarkAllRead()
      requires Valid()
      modifies this`notifications
      ensures Valid()
      ensures |notifications| == |old(notifications)|
      ensures forall i :: 0 <= i < |notifications| ==>
        notifications[i] == old(notifications)[i].(read := true)
      ensures UnreadCount(notifications) == 0
    {
      notifications := Map(notifications, (n: Notification) => n.(read := true));
      NoUnreadWhenAllRead(notifications);
    }

    /** `changePassword`: the three fields are required, the new password must be confirmed
        and have a `length` of at least 8 UTF-16 code units, and the current one must match
        the account of the signed-in user; only that account's password changes. */
    method ChangePassword(accounts: Auth.UserStore, cur: string, np: string, cp: string)
      returns (o: Outcome)
      requires accounts.Valid()
      modifies accounts
      ensures accounts.Valid()
      ensures var k := IndexWhere(old(accounts.users), UserHasEmail(user.email));
        if cur == "" || np == "" || cp == "" then
          o == Invalid(PasswordFieldsAlert) && accounts.users == old(accounts.users)
        else if np != cp then
          o == Invalid(PasswordMismatchAlert) && accounts.users == old(accounts.users)
        else if Utf16Length(np) < 8 then
          o == Invalid(PasswordShortAlert) && accounts.users == old(accounts.users)
        else if k.None? || old(accounts.users)[k.value].password != cur then
          o == Invalid(PasswordWrongAlert) && accounts.users == old(accounts.users)
        else
          o == Applied
          && accounts.users == old(accounts.users)[k.value := old(accounts.users)[k.value].(password := np)]
    {
      if cur == "" || np == "" || cp == "" {
        o := Invalid(PasswordFieldsAlert);
        return;
      }
      if np != cp {
        o := Invalid(PasswordMismatchAlert);
        return;
      }
      if Utf16Length(np) < 8 {
        o := Invalid(PasswordShortAlert);
        return;
      }
      var users := accounts.users;
      var found := IndexWhere(users, UserHasEmail(user.email));
      if found.None? || users[found.value].password != cur {
        o := Invalid(PasswordWrongAlert);
        return;
      }
      var k := found.value;
      MapUpdateKey(users, k, users[k].(password := np), UserEmail);
      accounts.users := users[k := users[k].(password := np)];
      o := Applied;
    }
  }

  /** The page as `deleteProject` leaves it: the stored list without the project, while
      `currentProject` still refers to the removed project object. */
  datatype DetachedPage = DetachedPage(projects: seq<Project>, current: Project, activities: seq<Activity>)

  function DeleteKeepingSelection(ps: seq<Project>, k: nat, acts: seq<Activity>, now: string): DetachedPage
    requires k < |ps|
  {
    DetachedPage(Filter(ps, ProjectIsNot(ps[k].id)), ps[k],
                 CapPush(acts, Activity(DeletedEntry, "Deleted project: " + ps[k].name, now), LogCap))
  }

  /** `saveTask`'s create branch run on that page: `openTaskModal` keeps the selection, the
      task is pushed into the removed object, and the stored list is written back as it is. */
  function CreateIntoDetached(pg: DetachedPage, t: Task): DetachedPage {
    pg.(current := pg.current.(tasks := pg.current.tasks + [t]),
        activities := CapPush(pg.activities, Activity(CreatedEntry, "Created task: " + t.title, t.created), LogCap))
  }

  /** On the page as written, a task created after its project was deleted is logged as
      created but belongs to no stored project: it is lost when the page saves. */
  lemma DetachedSelectionLosesTask(ps: seq<Project>, k: nat, acts: seq<Activity>, now: string, t: Task)
    requires k < |ps| && t !in AllTasks(ps)
    ensures var pg := CreateIntoDetached(DeleteKeepingSelection(ps, k, acts, now), t);
      && pg.activities[0] == Activity(CreatedEntry, "Created task: " + t.title, t.created)
      && t in pg.current.tasks
      && pg.current.id !in Map(pg.projects, ProjectId)
      && t !in AllTasks(pg.projects)
  {
    KeptProjects(ps, ps[k].id, t);
  }

  /** The projects a filter on an id keeps do not have that id, and hold no task the
      whole collection did not hold. */
  lemma KeptProjects(ps: seq<Project>, id: string, t: Task)
    requires t !in AllTasks(ps)
    ensures id !in Map(Filter(ps, ProjectIsNot(id)), ProjectId)
    ensures t !in AllTasks(Filter(ps, ProjectIsNot(id)))
  {
    var kept := Filter(ps, ProjectIsNot(id));
    FilterMembers(ps, ProjectIsNot(id));
    forall i | 0 <= i < |kept| ensures Map(kept, ProjectId)[i] != id {
      assert ProjectIsNot(id)(kept[i]);
    }
    AllTasksMembership(ps, t);
    forall i | 0 <= i < |kept| ensures t !in kept[i].tasks {
      var j :| 0 <= j < |ps| && ps[j] == kept[i];
    }
    AllTasksMembership(kept, t);
  }

  lemma {:induction false} NoUnreadWhenAllRead(ns: seq<Notification>)
    requires forall i :: 0 <= i < |ns| ==> ns[i].read
    ensures UnreadCount(ns) == 0
    decreases |ns|
  {
    if |ns| > 0 {
      NoUnreadWhenAllRead(ns[1..]);
    }
  }
}
