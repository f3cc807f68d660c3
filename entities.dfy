/** The records the dashboard keeps per user and the accounts the login form keeps.
    Ids and timestamps are the strings the dashboard page derives from the clock; they are
    passed in by the caller. Calendar dates (a task's due date, a project's deadline)
    are abstract day keys whose order is the order of the dates. */
module Entities {
  import opened Wrappers
  import opened Seqs

  /** The id of the synthetic member that stands for the signed-in user. */
  const SelfId: string := "me"

  datatype Status = Active | Pending | Completed

  datatype Priority = High | Medium | Low

  /** An attachment, embedded in its task; `data` is the already-read encoded content. */
  datatype FileAttachment = FileAttachment(name: string, size: nat, mime: string, data: string)

  /** A task; `assignee` is "" when unassigned, otherwise a member id or `SelfId`. */
  datatype Task = Task(
    id: string, title: string, desc: string, priority: Priority, due: Option<int>,
    assignee: string, files: seq<FileAttachment>, done: bool, doneAt: Option<string>,
    created: string)

  datatype Project = Project(
    id: string, name: string, desc: string, status: Status, deadline: Option<int>,
    tasks: seq<Task>, created: string)

  datatype Member = Member(
    id: string, name: string, email: string, role: string, initials: string, added: string)

  datatype ActivityType = CreatedEntry | UpdatedEntry | DeletedEntry | CompletedEntry

  datatype Activity = Activity(kind: ActivityType, text: string, time: string)

  datatype Notification = Notification(title: string, text: string, time: string, read: bool)

  /** An account of the `users` collection; the password is compared verbatim. */
  datatype User = User(
    firstName: string, lastName: string, email: string, company: string, role: string,
    password: string, createdAt: string)

  /** What a mutation reports: rejected with the alert the JavaScript handler shows (nothing changed),
      no project selected, an id that did not resolve, or applied. */
  datatype Outcome = Invalid(alert: string) | NoSelection | NotFound | Applied

  function ProjectId(p: Project): string { p.id }
  function TaskId(t: Task): string { t.id }
  function MemberId(m: Member): string { m.id }
  function MemberEmail(m: Member): string { m.email }
  function UserEmail(u: User): string { u.email }

  /** `x => x.id === id` and its negation, as the `find` and `filter` callbacks use them. */
  function ProjectIs(id: string): Project -> bool { (p: Project) => p.id == id }
  function ProjectIsNot(id: string): Project -> bool { KeyIsNot(ProjectId, id) }
  function TaskIs(id: string): Task -> bool { (t: Task) => t.id == id }
  function TaskIsNot(id: string): Task -> bool { KeyIsNot(TaskId, id) }
  function MemberIs(id: string): Member -> bool { (m: Member) => m.id == id }
  function MemberHasEmail(email: string): Member -> bool { (m: Member) => m.email == email }
  function UserHasEmail(email: string): User -> bool { (u: User) => u.email == email }

  /** A name in double quotes, as the notification texts show it. */
  function Quoted(s: string): string { "\"" + s + "\"" }
}
