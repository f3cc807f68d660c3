# ProjectHub data layer in Dafny

ProjectHub is a browser dashboard. A signed-in user keeps projects there, and each project owns a list of tasks. The user also keeps a team of members, a newest-first activity log and a notification log. A separate sign-in page creates accounts and checks credentials against a stored `users` collection.

This project models the data layer of both pages with the DOM stripped away.

- `Dashboard.Store` is a class that holds the user's projects, team, activity log, notification log and the currently selected project. Every event handler that changes these becomes a method of the class. Each method has a contract that states the whole new state, including the error paths.
- `Views` holds the values the pages recompute after each change, as pure functions: completion percentages, the overview statistics, the team cards, the upcoming-deadline list and the member lookups.
- `Auth` holds the password-strength meter, the account-creation guards, the account store (`Auth.UserStore`) and the credential lookup.
- `Text`, `Seqs`, `Entities` and `Wrappers` supply what these modules share:
  - `Text`: string trimming over the full JavaScript whitespace set, and ASCII upper-casing.
  - `Seqs`: the array calls `find`, `filter`, `map` and `filter(..).length`, defined once for every record type, with their lemmas.
  - `Entities`: the record types.
  - `Wrappers`: `Option`.

Ids and timestamps come from the clock in the source. Here they are parameters:

- A new project, task or member id must be fresh. It must be non-empty, must not be the synthetic member id `"me"`, and must not already be in use.
- Timestamps are opaque strings.
- Calendar dates are integer day keys, ordered as the dates are.

A `confirm()` dialog counts as accepted. A handler that shows an `alert` and returns yields `Invalid(alertText)` and leaves the state as it was. A method that yields an `Outcome` and models a handler that returns silently, or would throw before changing anything, yields `NoSelection` or `NotFound` and changes nothing. `openProjectDetails` is different: with an unknown id it clears the selection before it returns (dashboard.js:233-234), and `Dashboard.Store.OpenProjectDetails` does the same.

The invariant `Dashboard.Store.Valid()` holds after every operation. It says:

- Project ids are distinct, task ids are distinct within each project, member ids and member emails are distinct, and none of these ids is empty.
- Both logs hold at most 50 entries.
- The selection, when there is one, names a stored project.
- The signed-in user's first and last names are non-empty.

`Auth.UserStore.Valid()` says that account emails are distinct.

## Model

| member | source | states |
|---|---|---|
| Dashboard.Store.Load | dashboard.js:17-18 | The stored projects and team are loaded as they are. A missing key reads as an empty list, and nothing is selected. |
| Dashboard.Store.AddActivity | dashboard.js:85-91 | The new entry is at index 0. The rest is the newest part of the old log, and the log never exceeds 50 entries (`Seqs.CapPush`). |
| Dashboard.Store.AddNotification | dashboard.js:94-100 | Same as the activity log. The new notification is unread. |
| Seqs.CapPush | dashboard.js:86-88 | Length is min(old length + 1, 50). The first entry is the new one and the tail is the old log's prefix. |
| Views.AllMembers | dashboard.js:102-107 | The synthetic `"me"` entry, with the user's full name and upper-cased initials, comes first. Then comes one entry per team member, in order. |
| Views.LookupsAgreeWithAllMembers | dashboard.js:109-121 | For a non-empty id, the name and initials lookups return those of the first `AllMembers` entry with that id, or "Unknown" and "?" when there is none. |
| Views.Percent | dashboard.js:128 | Half-up rounding of 100*done/total, bounded by the two nearest-integer inequalities. It is 0 for no tasks or none done, 100 when all are done, and never above 100. |
| Views.Completion | dashboard.js:151-153 | A project's progress is 100*done/total rounded half up, pinned by the two nearest-integer inequalities over the project's own done count. It is in 0..100, 0 with no tasks or none done, and 100 when every task is done. |
| Views.ComputeStats | dashboard.js:124-143 | Active is the number of active projects, total and done are the counts over the tasks of all projects, and unread is the number of unread notifications, with active ≤ projects, done ≤ total and unread ≤ notifications. The rate is `Views.Percent` of done over total. Productivity is min(100, rate+20), in 20..100. The "tasks this month" figure equals done tasks. |
| Views.StatOf | dashboard.js:427-439 | A team card counts the tasks assigned to the member and those also done, with done ≤ assigned. The role shown is the user's role for the `"me"` entry and the stored member's role otherwise. "Team Member" replaces a role that is empty or missing, so the role shown is never empty. |
| Views.TeamStats | dashboard.js:426-432 | One card per `AllMembers` entry, the user first. Each card's assigned and done counts are the counts over the tasks of all projects, and done never exceeds assigned. |
| Views.PendingTasks | dashboard.js:550 | An entry is in the list exactly when its task is in the project, is not done, has a due date, and carries the project's name. |
| Views.UpcomingDeadlines | dashboard.js:550 | Sorted by due date, and a permutation of the open dated tasks of all projects. |
| Views.UpcomingMembership | dashboard.js:550 | A deadline is listed exactly when its task is an open, dated task of some project and the entry names that project. |
| Views.SortStable | dashboard.js:550 | Tasks due on the same day keep their project-by-project order, as the stable `Array.prototype.sort` keeps them. |
| Views.NextDeadlines | dashboard.js:553 | The first min(5, n) entries. No entry left out is due earlier than one shown. |
| Dashboard.Store.OpenProjectDetails | dashboard.js:232-234 | Selects the project with that id when there is one, and clears the selection otherwise. |
| Dashboard.Store.OpenTaskModal | dashboard.js:299-301 | It keeps an existing selection. With none, it selects the first project, or with no project at all it refuses with "Create a project first.". |
| Text.TrimEmptyIff | dashboard.js:203-204 | A field trims to empty exactly when it is all whitespace. This is the required-field test of every form. |
| Dashboard.Store.SaveProject | dashboard.js:201-221 | A blank name changes nothing. Create appends exactly one project with the fresh id, an empty task list and the trimmed fields, and logs it. Update changes only the first project with that id, and only its name, description, status and deadline. An unknown id leaves the projects as they were but still logs an update. |
| Dashboard.Store.SaveNamedProject | dashboard.js:213-220 | Once the name has passed: an empty edit id appends exactly the new project and logs its creation. Any other id updates the first project with it, or nothing when there is none, and logs the update either way. |
| Dashboard.Store.UpdateProject | dashboard.js:213-216 | The update branch: the found project is replaced by its edited copy, the other projects are unchanged, and the "Updated project" entry is logged either way. |
| Dashboard.Store.CreateProject | dashboard.js:217-220 | The create branch: `projects` grows by exactly the new project. One activity and one "Project Created" notification are logged. |
| Dashboard.EditProject | dashboard.js:206-215 | `Object.assign` with the form keeps the id, the tasks and the creation time, and sets the four form fields. |
| Dashboard.Store.DeleteProject | dashboard.js:288-293 | Removes exactly the selected project: the list is the old list without that position, which is also the filter on its id, and the id is gone afterwards. The deletion is logged and the selection is cleared. With no selection nothing changes. |
| Dashboard.Store.SaveTask | dashboard.js:320-345 | No selection or a blank title changes nothing. Create appends one open task with the fresh id to the selected project and logs it. Edit overwrites the first task with that id, and logs an update even when the id is unknown. |
| Dashboard.Store.UpdateTask | dashboard.js:338-341 | The edit branch: only that task of that project changes, to `Dashboard.EditTask` of it. |
| Dashboard.Store.CreateTask | dashboard.js:342-345 | The create branch: the task goes last in the project. It is announced with the project's name. |
| Dashboard.EditTask | dashboard.js:326-340 | Editing keeps the id and `doneAt`, resets `done` to false, overwrites the form fields, and stamps a new creation time. |
| Dashboard.EditReopensTask | dashboard.js:333-340 | Editing a completed task of a project makes it not done and keeps its completion time. The project then has exactly one done task fewer. |
| Dashboard.EditLowersDoneTasks | dashboard.js:333-340 | Editing a completed task lowers the overview's done-task figure by exactly one. |
| Dashboard.Store.DeleteTask | dashboard.js:370-375 | Removes the task with that id from the selected project and keeps the others in order. A "Deleted task" entry is logged only when the id was there. |
| Dashboard.Store.RemoveTask | dashboard.js:375 | The filter on the task's id removes exactly that one position. |
| Dashboard.Store.ToggleTask | dashboard.js:380-384 | Flips `done` on the found task. Only the open to done transition stamps `doneAt` and logs exactly one activity and one notification. Reopening logs nothing and keeps `doneAt`. |
| Dashboard.Store.SaveMember | dashboard.js:455-468 | Blank first name, last name or email, or an email already in the team, changes nothing and gives the matching alert. Otherwise exactly one member is appended, with the trimmed fields and the initials of the name, and logged. |
| Dashboard.Store.AdmitMember | dashboard.js:463-467 | A member with a fresh id and a new email is appended last. One activity and one "Member Added" notification name them. |
| Text.Upper | dashboard.js:462 | A lower-case ASCII letter becomes the capital at the same place in the alphabet. Every other character is kept. |
| Text.Initials | dashboard.js:462 | Two characters, from the first letters of the first and last names. A lower-case letter becomes its own capital, and any other first letter is kept, so "alice" and "bob" give "AB". |
| Dashboard.Store.MarkAllRead | dashboard.js:517-519 | Every notification is kept in place with `read` set. Afterwards the unread count is 0. |
| Dashboard.NoUnreadWhenAllRead | dashboard.js:143 | A log whose every entry is read has an unread count of 0. |
| Dashboard.Store.ChangePassword | dashboard.js:637-647 | The four guards in order: blank fields, mismatch, a `length` below 8, then an account that is missing or has the wrong password. Each changes nothing. Otherwise only the signed-in user's account gets the new password. |
| Text.Utf16Length | login.js:50-51 | JavaScript's `length`: the number of UTF-16 code units, between the number of characters and twice that. |
| Text.Utf16LengthOfBmp | login.js:50-51 | For text inside the Basic Multilingual Plane, `length` is the number of characters. |
| Text.Utf16LengthOfEmoji | login.js:110 | An example, not a general property: four emoji have a `length` of 8, so they pass the 8-character guard. |
| Auth.Score | login.js:50-54 | The number of the five checks passed, so at most 5. The length checks use `length` in UTF-16 code units. |
| Auth.ScoreIsSumOfPoints | login.js:50-54 | The score is one point per satisfied check. |
| Auth.LengthPoints | login.js:50-51 | A password whose `length` is 12 or more gets exactly 2 points from the length checks, and one shorter than 8 gets none (so at most 3). |
| Auth.ScoreMonotone | login.js:50-54 | Extending a password never lowers its score. |
| Auth.CheckStrength | login.js:46-64 | The running `score++` total equals `Auth.Score`, and the level it selects is the table entry at that index, which always exists. |
| Auth.SignupProblem | login.js:108-111 | Each alert holds exactly when the earlier guards pass and its own fails, in the order: required fields, mismatch, a `length` below 8 code units, terms. No alert means all four pass. |
| Auth.UserStore.Load | login.js:115 | The `users` collection is read as stored, and a missing key reads as empty. The stored emails must be distinct, and the store is then valid. |
| Auth.UserStore.Signup | login.js:97-123 | A rejected form leaves `users` unchanged. So does a trimmed email that is already stored. Otherwise exactly one account with the trimmed fields is appended and the earlier ones are unchanged. Emails stay distinct. |
| Auth.Login | login.js:72-94 | A successful sign-in returns a stored account with the trimmed email and the password as typed. |
| Auth.LoginSucceedsIff | login.js:74-83 | Sign-in succeeds exactly when both fields are filled and some stored account has that email and password. |
| Auth.LoginFindsTheAccount | login.js:83 | With one account per email, the account signed in is the one with that email. |
| Auth.StoredAccountSignsIn | login.js:82-83 | An account that signup stored under a trimmed email signs in when that stored email and its password are typed, and the account found is that one. |
| Dashboard.DetachedSelectionLosesTask | dashboard.js:288-348 | On the page as written, a task created after its project was deleted is logged as created, is held by the removed project object, and is in no stored project. |

## Left out

- DOM rendering, HTML templates, modals, toasts, navigation and theme settings are left out: they are pure presentation.
- localStorage and JSON are left out. The stores are in-memory sequences. The activity and notification logs are fields of `Dashboard.Store` rather than re-read from storage on every call, which is observably the same for a single writer.
- Clocks are not modelled: `Date.now()` ids and ISO timestamps are parameters. A fresh id is a precondition, where the source relies on the clock not repeating.
- Dates are not modelled: `fmtDate`, `timeAgo`, the calendar grid, the greeting hour, the "projects this month" figure and the remember-me redirect all depend on the current date. Deadline ordering uses abstract day keys.
- `fmtSize` (floating point), the Chart.js calls, the `FileReader` upload, search, `getFileIcon`, timers, the random particles and the keyboard shortcuts are left out. File attachments are taken as already read.
- `saveProfile`, `clearNotifs`, `clearAllData`, `exportData` and `editTask`'s form filling are left out. They lie outside the modelled core.
- The session record `currentUser` written on sign-in, with its `loginTime` and `remember` flag, is not modelled. Sign-in returns the matched account instead.
- Dashboard.Store.DeleteProject: clears the selection, where the source keeps a reference to the removed project object (see "## Findings"). So after a deletion, `Dashboard.Store.OpenTaskModal` selects `projects[0]`, or refuses when no project is left, where the source keeps the removed project. The Store does not represent that detached object. `Dashboard.DetachedSelectionLosesTask` models only that one path, on values.
- Dashboard.Store.Valid: it assumes the signed-in user's first and last names are non-empty, as a successful signup guarantees. `saveProfile` could clear them. With one name blank the page would show initials such as "UNDEFINEDD". With both blank, `(first[0] + last[0])` is `NaN` and `.toUpperCase()` throws at dashboard.js:22, 104 and 118.
- Views.Percent: uses exact half-up integer rounding, which can differ from `Math.round` on the floating-point quotient at exact ties.
- Text.Upper: upper-cases ASCII letters only. `toUpperCase` also maps other scripts.
- Text.Initials: takes the first character of each name. JavaScript's `first[0]` is the first UTF-16 code unit, so for a name that begins outside the Basic Multilingual Plane the source takes a lone surrogate, which a Dafny `char` cannot hold.

## Findings

| source | as written | input that shows it | evidently intended | confidence | as-written member | corrected member |
|---|---|---|---|---|---|---|
| dashboard.js:288-296 | `deleteProject` removes the project from `projects` but leaves `currentProject` pointing at it. `openTaskModal` (line 300) then keeps it, and `saveTask` pushes the new task into it (line 343). It logs "Created task" and writes back `projects` without it (line 348). | Any call of `openTaskModal()` after `deleteProject`, while the removed object is still `currentProject`, followed by saving a new task: the task is announced and lost. The key handler at line 714 is the only such call in dashboard.js. Browsers usually keep that chord (Ctrl/⌘+T) for a new tab, so the practical trigger is a page control that calls `openTaskModal`. | Deleting the selected project clears the selection, so a new task goes into a stored project or the form refuses with "Create a project first.". | not executed | Dashboard.DetachedSelectionLosesTask | Dashboard.Store.DeleteProject |
