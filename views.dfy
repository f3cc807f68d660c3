/** The read-only views the dashboard recomputes after every change: completion
    percentages, the aggregate statistics, the per-member counts of the team page,
    the upcoming-deadline list of the calendar, and the member lookups. */
module Views {
  import opened Wrappers
  import opened Seqs
  import opened Text
  import opened Entities

  /** `projects.flatMap(p => p.tasks || [])`: every task, project by project. */
  function AllTasks(ps: seq<Project>): seq<Task>
    decreases |ps|
  {
    if |ps| == 0 then [] else ps[0].tasks + AllTasks(ps[1..])
  }

  /** A task is in the flattened list exactly when it is in one of the projects. */
  lemma {:induction false} AllTasksMembership(ps: seq<Project>, t: Task)
    ensures t in AllTasks(ps) <==> exists i :: 0 <= i < |ps| && t in ps[i].tasks
    decreases |ps|
  {
    if |ps| > 0 {
      AllTasksMembership(ps[1..], t);
      if t in AllTasks(ps[1..]) {
        var i :| 0 <= i < |ps[1..]| && t in ps[1..][i].tasks;
        assert t in ps[i + 1].tasks;
      }
      if exists i :: 0 <= i < |ps| && t in ps[i].tasks {
        var i :| 0 <= i < |ps| && t in ps[i].tasks;
        if i > 0 {
          assert t in ps[1..][i - 1].tasks;
        }
      }
    }
  }

  /** The flattened list splits at any project. */
  lemma {:induction false} AllTasksSplit(ps: seq<Project>, k: nat)
    requires k < |ps|
    ensures AllTasks(ps) == AllTasks(ps[..k]) + ps[k].tasks + AllTasks(ps[k + 1..])
    decreases k
  {
    if k == 0 {
      assert ps[..0] == [];
    } else {
      AllTasksSplit(ps[1..], k - 1);
      assert ps[1..][..k - 1] == ps[1..k];
      assert ps[1..][k..] == ps[k + 1..];
      assert ps[..k][1..] == ps[1..k];
    }
  }

  function IsDone(t: Task): bool { t.done }

  /** `Math.round(done / total * 100)`, or 0 when there is nothing to count. */
  function Percent(done: nat, total: nat): (pct: nat)
    ensures total == 0 ==> pct == 0
    ensures total > 0 ==> 2 * total * pct <= 200 * done + total < 2 * total * pct + 2 * total
    ensures done <= total ==> pct <= 100
    ensures done == 0 ==> pct == 0
    ensures 0 < total == done ==> pct == 100
  {
    if total == 0 then 0
    else
      var pct := (200 * done + total) / (2 * total);
      PercentBounds(done, total, pct);
      pct
  }

  lemma PercentBounds(done: nat, total: nat, pct: int)
    requires total > 0 && pct == (200 * done + total) / (2 * total)
    ensures 2 * total * pct <= 200 * done + total < 2 * total * pct + 2 * total
    ensures pct >= 0
    ensures done <= total ==> pct <= 100
    ensures done == 0 ==> pct == 0
    ensures done == total ==> pct == 100
  {
    var n, m := 200 * done + total, 2 * total;
    DivBounds(n, m);
    assert m * pct <= n < m * pct + m;
    if pct < 0 {
      MulLess(m, pct, 0);
    }
    if done <= total {
      assert n < m * 101;
      MulLess(m, pct, 101);
    }
    if done == 0 {
      assert n < m * 1;
      MulLess(m, pct, 1);
    }
    if done == total {
      assert m * 100 <= n;
      MulLess(m, 99, pct + 1);
    }
  }

  lemma DivBounds(n: int, m: int)
    requires m > 0
    ensures m * (n / m) <= n < m * (n / m) + m
  {
  }

  /** Multiplying by a positive factor keeps a strict order, and so does dividing it out. */
  lemma MulLess(m: int, a: int, b: int)
    requires m > 0 && m * a < m * b
    ensures a < b
  {
  }

  /** The progress bar of a project card and of the project details. */
  function Completion(tasks: seq<Task>): (pct: nat)
    ensures tasks != [] ==>
      2 * |tasks| * pct <= 200 * Count(tasks, IsDone) + |tasks| < 2 * |tasks| * pct + 2 * |tasks|
    ensures pct <= 100
    ensures tasks == [] ==> pct == 0
    ensures Count(tasks, IsDone) == 0 ==> pct == 0
    ensures tasks != [] && Count(tasks, IsDone) == |tasks| ==> pct == 100
  {
    Percent(Count(tasks, IsDone), |tasks|)
  }

  function IsActive(p: Project): bool { p.status == Active }

  function IsUnread(n: Notification): bool { !n.read }

  /** The figures of the overview, the analytics page and the notification badge.
      `monthTasks` is the number of done tasks overall, whatever month they were done in. */
  datatype Stats = Stats(
    active: nat, totalTasks: nat, doneTasks: nat, rate: nat, monthTasks: nat,
    productivity: nat, unread: nat)

  function ComputeStats(ps: seq<Project>, ns: seq<Notification>): (s: Stats)
    ensures s.active == Count(ps, IsActive) && s.active <= |ps|
    ensures s.totalTasks == |AllTasks(ps)| && s.doneTasks == Count(AllTasks(ps), IsDone)
    ensures s.doneTasks <= s.totalTasks
    ensures s.unread == UnreadCount(ns) && s.unread <= |ns|
    ensures s.rate == Percent(s.doneTasks, s.totalTasks)
    ensures s.rate <= 100 && (s.totalTasks == 0 ==> s.rate == 0)
    ensures s.rate == Completion(AllTasks(ps))
    ensures s.productivity == Min(100, s.rate + 20) && 20 <= s.productivity <= 100
    ensures s.monthTasks == s.doneTasks
  {
    var all := AllTasks(ps);
    var done := Count(all, IsDone);
    var rate := Completion(all);
    Stats(Count(ps, IsActive), |all|, done, rate, done, Min(100, rate + 20), Count(ns, IsUnread))
  }

  function FullName(u: User): string { u.firstName + " " + u.lastName }

  /** An entry of `getAllMembers()`. */
  datatype MemberRef = MemberRef(id: string, name: string, initials: string)

  function RefOf(m: Member): MemberRef { MemberRef(m.id, m.name, m.initials) }

  function RefIs(id: string): MemberRef -> bool { (r: MemberRef) => r.id == id }

  /** The synthetic member for the signed-in user, then every stored member. */
  function AllMembers(u: User, team: seq<Member>): (r: seq<MemberRef>)
    requires u.firstName != [] && u.lastName != []
    ensures |r| == |team| + 1
    ensures r[0] == MemberRef(SelfId, FullName(u), Initials(u.firstName, u.lastName))
    ensures forall i :: 0 <= i < |team| ==> r[i + 1] == RefOf(team[i])
  {
    [MemberRef(SelfId, FullName(u), Initials(u.firstName, u.lastName))] + Map(team, RefOf)
  }

  function MemberName(u: User, team: seq<Member>, id: string): string {
    if id == "" then "Unassigned"
    else if id == SelfId then FullName(u)
    else match IndexWhere(team, MemberIs(id))
      case Some(k) => team[k].name
      case None => "Unknown"
  }

  function MemberInitials(u: User, team: seq<Member>, id: string): string
    requires u.firstName != [] && u.lastName != []
  {
    if id == "" then "?"
    else if id == SelfId then Initials(u.firstName, u.lastName)
    else match IndexWhere(team, MemberIs(id))
      case Some(k) => team[k].initials
      case None => "?"
  }

  lemma {:induction false} RefIndexMatchesMember(team: seq<Member>, id: string)
    ensures IndexWhere(Map(team, RefOf), RefIs(id)) == IndexWhere(team, MemberIs(id))
    decreases |team|
  {
    if |team| > 0 {
      RefIndexMatchesMember(team[1..], id);
      assert Map(team, RefOf)[1..] == Map(team[1..], RefOf);
    }
  }

  /** The two lookups agree with the member list: an assignee id shows the name and the
      initials of the first entry of `AllMembers` with that id, and a placeholder when
      no entry has it. */
  lemma LookupsAgreeWithAllMembers(u: User, team: seq<Member>, id: string)
    requires u.firstName != [] && u.lastName != [] && id != ""
    ensures var all := AllMembers(u, team);
      match IndexWhere(all, RefIs(id))
      case Some(k) => MemberName(u, team, id) == all[k].name
                      && MemberInitials(u, team, id) == all[k].initials
      case None => MemberName(u, team, id) == "Unknown" && MemberInitials(u, team, id) == "?"
  {
    var all := AllMembers(u, team);
    if id != SelfId {
      assert all[1..] == Map(team, RefOf);
      RefIndexMatchesMember(team, id);
    }
  }

  /** A card of the team page. */
  datatype MemberStat = MemberStat(
    id: string, name: string, initials: string, role: string, assignedCount: nat, doneCount: nat)

  function AssignedTo(id: string): Task -> bool { (t: Task) => t.assignee == id }

  function DoneBy(id: string): Task -> bool { (t: Task) => t.assignee == id && t.done }

  /** A card shows "Team Member" for a role that is empty or missing. */
  function ShownRole(role: string): string {
    if role == "" then "Team Member" else role
  }

  function StatOf(u: User, team: seq<Member>, all: seq<Task>, m: MemberRef): (s: MemberStat)
    ensures s.id == m.id && s.name == m.name && s.initials == m.initials
    ensures s.role != ""
    ensures m.id == SelfId ==> s.role == ShownRole(u.role)
    ensures m.id != SelfId && IndexWhere(team, MemberIs(m.id)).None? ==> s.role == "Team Member"
    ensures m.id != SelfId && IndexWhere(team, MemberIs(m.id)).Some? ==>
      s.role == ShownRole(team[IndexWhere(team, MemberIs(m.id)).value].role)
    ensures s.assignedCount == Count(all, AssignedTo(m.id))
    ensures s.doneCount == Count(all, DoneBy(m.id))
    ensures s.doneCount <= s.assignedCount
  {
    var role :=
      if m.id == SelfId then u.role
      else match IndexWhere(team, MemberIs(m.id))
        case Some(k) => team[k].role
        case None => "";
    CountMonotone(all, DoneBy(m.id), AssignedTo(m.id));
    MemberStat(m.id, m.name, m.initials, ShownRole(role), Count(all, AssignedTo(m.id)), Count(all, DoneBy(m.id)))
  }

  /** The team page: one card per member, the signed-in user first, each with the
      number of tasks assigned to it and how many of those are done. */
  function TeamStats(u: User, team: seq<Member>, ps: seq<Project>): (r: seq<MemberStat>)
    requires u.firstName != [] && u.lastName != []
    ensures |r| == |team| + 1
    ensures r[0].id == SelfId && r[0].name == FullName(u)
    ensures forall i :: 0 <= i < |team| ==> r[i + 1].id == team[i].id && r[i + 1].name == team[i].name
    ensures forall i :: 0 <= i < |r| ==> r[i].assignedCount == Count(AllTasks(ps), AssignedTo(r[i].id))
    ensures forall i :: 0 <= i < |r| ==> r[i].doneCount == Count(AllTasks(ps), DoneBy(r[i].id))
    ensures forall i :: 0 <= i < |r| ==> r[i].doneCount <= r[i].assignedCount
  {
    var all := AllTasks(ps);
    Map(AllMembers(u, team), (m: MemberRef) => StatOf(u, team, all, m))
  }

  /** An entry of the calendar's upcoming list: a task still to do, with its due key and
      the name of its project. */
  datatype Deadline = Deadline(due: int, task: Task, project: string)

  /** `tasks.filter(t => t.due && !t.done).map(t => ({...t, project: name}))`. */
  function PendingTasks(ts: seq<Task>, name: string): (r: seq<Deadline>)
    ensures forall d :: d in r <==> d.task in ts && !d.task.done && d.task.due == Some(d.due) && d.project == name
    decreases |ts|
  {
    if |ts| == 0 then []
    else
      var rest := PendingTasks(ts[1..], name);
      var t := ts[0];
      assert forall x :: x in ts <==> x == t || x in ts[1..];
      if t.due.Some? && !t.done then [Deadline(t.due.value, t, name)] + rest else rest
  }

  function Pending(ps: seq<Project>): seq<Deadline>
    decreases |ps|
  {
    if |ps| == 0 then [] else PendingTasks(ps[0].tasks, ps[0].name) + Pending(ps[1..])
  }

  predicate SortedByDue(s: seq<Deadline>) {
    forall i, j :: 0 <= i < j < |s| ==> s[i].due <= s[j].due
  }

  /** Places `d` before the first entry due no earlier, so that entries due the same day
      keep their order (the stable `Array.prototype.sort`). */
  function InsertByDue(d: Deadline, s: seq<Deadline>): (r: seq<Deadline>)
    ensures multiset(r) == multiset(s) + multiset{d}
    decreases |s|
  {
    if s == [] || d.due <= s[0].due then [d] + s
    else
      assert s == [s[0]] + s[1..];
      [s[0]] + InsertByDue(d, s[1..])
  }

  /** Every entry of an insertion is the inserted one or an entry of the original. */
  lemma InsertFrom(d: Deadline, s: seq<Deadline>, i: nat)
    requires i < |InsertByDue(d, s)|
    ensures InsertByDue(d, s)[i] == d || InsertByDue(d, s)[i] in s
  {
    var r := InsertByDue(d, s);
    assert r[i] in multiset(r);
  }

  lemma {:induction false} InsertSorted(d: Deadline, s: seq<Deadline>)
    requires SortedByDue(s)
    ensures SortedByDue(InsertByDue(d, s))
    decreases |s|
  {
    if s != [] && s[0].due < d.due {
      var rest := InsertByDue(d, s[1..]);
      InsertSorted(d, s[1..]);
      forall j | 0 <= j < |rest| ensures s[0].due <= rest[j].due {
        InsertFrom(d, s[1..], j);
      }
      assert InsertByDue(d, s) == [s[0]] + rest;
    }
  }

  function SortByDue(s: seq<Deadline>): (r: seq<Deadline>)
    ensures multiset(r) == multiset(s)
    ensures SortedByDue(r)
    decreases |s|
  {
    if s == [] then []
    else
      assert s == [s[0]] + s[1..];
      InsertSorted(s[0], SortByDue(s[1..]));
      InsertByDue(s[0], SortByDue(s[1..]))
  }

  /** The calendar's deadline list: open dated tasks, earliest first. */
  function UpcomingDeadlines(ps: seq<Project>): (r: seq<Deadline>)
    ensures SortedByDue(r)
    ensures multiset(r) == multiset(Pending(ps))
  {
    SortByDue(Pending(ps))
  }

  /** The list holds exactly the open tasks that have a due date, each with its project. */
  lemma {:induction false} UpcomingMembership(ps: seq<Project>, d: Deadline)
    ensures d in UpcomingDeadlines(ps) <==>
      exists i :: 0 <= i < |ps| && d.task in ps[i].tasks && d.project == ps[i].name
                  && !d.task.done && d.task.due == Some(d.due)
  {
    assert d in UpcomingDeadlines(ps) <==> d in multiset(Pending(ps));
    PendingMembership(ps, d);
  }

  lemma {:induction false} PendingMembership(ps: seq<Project>, d: Deadline)
    ensures d in Pending(ps) <==>
      exists i :: 0 <= i < |ps| && d.task in ps[i].tasks && d.project == ps[i].name
                  && !d.task.done && d.task.due == Some(d.due)
    decreases |ps|
  {
    if |ps| > 0 {
      PendingMembership(ps[1..], d);
      if d in Pending(ps[1..]) {
        var i :| 0 <= i < |ps[1..]| && d.task in ps[1..][i].tasks && d.project == ps[1..][i].name
                 && !d.task.done && d.task.due == Some(d.due);
        assert ps[i + 1] == ps[1..][i];
      }
      if exists i :: 0 <= i < |ps| && d.task in ps[i].tasks && d.project == ps[i].name
                     && !d.task.done && d.task.due == Some(d.due) {
        var i :| 0 <= i < |ps| && d.task in ps[i].tasks && d.project == ps[i].name
                 && !d.task.done && d.task.due == Some(d.due);
        if i > 0 {
          assert ps[1..][i - 1] == ps[i];
        }
      }
    }
  }

  function DueOn(k: int): Deadline -> bool { (d: Deadline) => d.due == k }

  /** Insertion keeps the order of the entries due on any one day, and puts the inserted
      entry before those of them that were already there. */
  lemma {:induction false} InsertStable(d: Deadline, s: seq<Deadline>, k: int)
    ensures Filter(InsertByDue(d, s), DueOn(k)) == (if d.due == k then [d] else []) + Filter(s, DueOn(k))
    decreases |s|
  {
    var on := DueOn(k);
    if s == [] || d.due <= s[0].due {
      assert InsertByDue(d, s) == [d] + s;
      FilterCons(d, s, on);
    } else {
      var rest := InsertByDue(d, s[1..]);
      assert InsertByDue(d, s) == [s[0]] + rest;
      InsertStable(d, s[1..], k);
      FilterCons(s[0], rest, on);
      FilterCons(s[0], s[1..], on);
      assert [s[0]] + s[1..] == s;
      if d.due == k {
        // s[0] is due before d, so it is not due on day k
        assert !on(s[0]);
      }
    }
  }

  /** Tasks due on the same day stay in their project-by-project order. */
  lemma {:induction false} SortStable(s: seq<Deadline>, k: int)
    ensures Filter(SortByDue(s), DueOn(k)) == Filter(s, DueOn(k))
    decreases |s|
  {
    if s != [] {
      SortStable(s[1..], k);
      InsertStable(s[0], SortByDue(s[1..]), k);
    }
  }

  /** The first five entries, which the calendar shows: none of the rest is due earlier. */
  function NextDeadlines(ps: seq<Project>): (r: seq<Deadline>)
    ensures var all := UpcomingDeadlines(ps);
      |r| == Min(5, |all|) && r == all[..|r|]
      && forall i, j :: 0 <= i < |r| <= j < |all| ==> r[i].due <= all[j].due
  {
    var all := UpcomingDeadlines(ps);
    all[..Min(5, |all|)]
  }

  function UnreadCount(ns: seq<Notification>): nat { Count(ns, IsUnread) }
}
