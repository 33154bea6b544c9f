# Project-tracking engine: a Dafny model

This project models the in-memory engine of a small console system where
students, leads, faculty members, advisors and admins track senior projects.
It covers `project_manage.py` and the record store of `database.py`.

The engine keeps four tables:

- **people**: person records, keyed by their `ID`;
- **login**: login entries, keyed by username;
- **projects**: project records, keyed by an id;
- **documents**: of this table only the `"evaluation list"` entry is modelled.

Users never talk to each other directly. Each person record carries lazily
created mailboxes: `invs`, `projs`, `adv_reqs`, `apr_reqs`, `eval_projs` and
`msgs`. Most panel actions append to somebody's mailbox or pop an answered
entry from the user's own. The exceptions are `become`, which changes the
user's role and clears their project list, clearing the messages, and
`submit_eval`, which appends to the evaluation list. A project moves from having no advisor, to having
one, to approved, to evaluated, by these actions.

## How the model is organised

- `optional.dfy` (`Optional`) holds the optional value and the three states of
  a dictionary key: missing, bound to `None`, or holding a value (`Slot`). It
  also models the lazy list accessors.
- `records.dfy` (`Records`) holds the records:
  - roles and the role-to-panel dispatch;
  - notices;
  - person records with their mailboxes;
  - project records with the `ProjectView` accessors;
  - the swap-with-last removal `reqs[i] = reqs[-1]; reqs.pop()`.
- `database.py`'s `Database` is the class `Database.Database` (`database.dfy`),
  over a `map`. Its `forEach` loop returns the sequence of callback calls it
  makes.
- `credentials.dfy` (`Credentials`) holds the bootstrap of the login table,
  salting and password checks, and the login-key derivation. It has the
  bootstrap loop as a method.
- `workflow.dfy` (`Workflow`) specifies the panel actions. Each action is a
  function from the tables before to the tables after, plus the outcome the
  panel reports. Interactive answers are parameters.
- `app.dfy` (`Manage`) holds `ManageApp` as the class `Manage.App`. The tables
  are its fields, and each action is a method that updates them in place, step
  by step as the Python code does. Each method is proved to leave the tables
  exactly as its `Workflow` function says.
- `lifecycle.dfy` (`Lifecycle`) chains actions: each step of a project's life
  enables the option the next step needs.

How the model handles what it cannot run:

- **Digest:** SHA-256 with its hex digest is the function parameter `H`.
- **Randomness:** the random salt draws are parameters.
- **Fresh project ids:** the random candidate ids are a finite sequence.
- **Uncaught exceptions:** `Crashed` is an exception the action does not catch
  (a `KeyError`, an `IndexError`, a `TypeError` from indexing `None`, or an
  `AttributeError` on `None`). The tables are left as they were when the
  exception was raised. Where the action runs inside a handler that catches
  the exception, the tables are the same and only the message differs; for
  example, `LeadPanel.view_projects` reports "Bad index" for an `IndexError`
  raised in `manage`, but only for a project opened by index
  (project_manage.py:993-997).
- **Caught errors:** bad indices and missing records become the statuses the
  panel reports.

### Behaviour worth knowing

- `become` writes `None` under the key `"invitations"`
  (project_manage.py:614). The invitation mailbox lives under `"invs"`, so
  pending invitations survive a change of role. Only the project list is
  cleared. `Workflow.Become` states both halves. `Lifecycle.BecomeMemberDropsProjects`
  shows that the next `project_ids` is empty while the invitations remain.
- `request_for_advisor` never writes the `"pending"` sentinel
  (project_manage.py:446-447), so a lead can send several advisor requests at
  once. The pending check at project_manage.py:428 is unreachable from the
  menu: a stored `"pending"` makes `advisor_id` non-`None`, so option 6 is then
  the approval request (project_manage.py:375-381) and `request_for_advisor`
  is not offered.
- Rejecting an advisor request stores `None` under `advisor`
  (project_manage.py:853-854); the key is not removed. Accepting sets the role to
  Advisor whatever it was before (project_manage.py:852).
- `submit_eval` checks nothing about the project. Only the option-6 menu keeps
  an unapproved project from being submitted. `Workflow.SubmitEvaluation`
  always succeeds.
- The login key `get_login_from_data` derives is `first + "." + last[0]` with
  the case kept, for example `"Ada.L"`. Two people who share a first name and
  a last initial share a login entry (`Credentials.LoginKeyShared`).
- `assign_eval` goes on after printing "Invalid project". It crashes with a
  `TypeError` only when reading the missing project's id
  (project_manage.py:350, 1150), after the evaluator's `eval_projs` mailbox
  has been created. An evaluator without a login entry also crashes with a
  `TypeError`, on `login_data["role"]` (project_manage.py:506, 1147).
- In `view_invitations`, `view_requests`, `view_projs_aprv` and `view_eval`,
  the answer indexes the stored list itself. The printed numbering of
  `view_invitations` skips deleted projects, so the two can differ. The model
  uses the raw index, as the code does.
- `proj_delete` (option 4) calls `self.project_view.delete()`
  (project_manage.py:422), but `ProjectView` (project_manage.py:182-350) has
  no `delete`. The option raises `AttributeError` and deletes nothing.

## Model

| member | source | states |
|---|---|---|
| Optional.Get | project_manage.py:236-242 | `record.get(key)` yields the held value exactly when the key holds one, and `None` for a missing key and for a key bound to `None` alike |
| Optional.Materialized | project_manage.py:588-592 | after a lazy accessor the key always holds a list, that list is the one handed out, and an existing list is kept as it is |
| Optional.MaterializedIdempotent | project_manage.py:581-605 | a second access of a lazy mailbox stores and hands out the same list as the first |
| Records.Role.Code | project_manage.py:10-17 | Member, Lead, Faculty, Advisor and Admin have the codes 0, 1, 2, 3 and 4, each an if-and-only-if, so the codes are distinct and lie in the range the panel list is indexed by |
| Records.KindOfTag | project_manage.py:563-575 | the title lookup keyed by the stored `type`: each of `inva`, `adva`, `advr`, `apra` and `aprr` names exactly the kind whose tag it is, and every other string has no title |
| Records.PanelFor | project_manage.py:134-136 | each role has its panel, with Faculty and Advisor (and only they) sharing the faculty panel; stated as an if-and-only-if per panel |
| Records.Person.WithMailbox | project_manage.py:581-671 | replacing one mailbox leaves every other mailbox, the names, the id and the messages unchanged |
| Records.WithMailboxTwice | project_manage.py:588-592 | creating a mailbox and then storing into it is the same as storing into it |
| Records.Opened | project_manage.py:581-671 | a lazy accessor stores a list and hands out the stored items (the empty list when none) and changes nothing when a list exists |
| Records.Pushed | project_manage.py:466 | an accessor followed by `append(x)` leaves the mailbox with its old items followed by `x`, and every other mailbox, the id, the names and the messages unchanged |
| Records.PushedAfterOpened | project_manage.py:588-592 | a lazy accessor before the append leaves the same record as the append alone |
| Records.PushedMsg | project_manage.py:885-896 | `messages.append(m)` extends the messages by `m` and leaves every other mailbox and the names alone |
| Records.LeadAndMembers | project_manage.py:300-333 | the member list is the lead followed by `member_ids`, which is one shorter |
| Records.AddMemberKeepsLead | project_manage.py:335-341 | `add_member` keeps the lead, appends to `member_ids` and adds one occurrence of the new id, duplicates included |
| Records.WithLeadKeepsMembers | project_manage.py:309-311 | the `lead_id` setter changes the lead and no other member |
| Records.AdvisorPendingRoundTrip | project_manage.py:218-233 | the `advisor_pending` setter and getter agree, and clearing the flag leaves no advisor id |
| Records.FlagsDefaultFalse | project_manage.py:274-298 | a project whose `approved`/`evaluated` keys were never written reads as neither approved nor evaluated |
| Records.SwapPop | project_manage.py:741-742 | swap-with-last removal at `i` shortens the list by one, keeps the entries below `i` and after it, and moves the last entry to `i` |
| Records.SwapPopMultiset | project_manage.py:741-742 | swap-with-last removal loses exactly the entry at `i`, as a multiset |
| Database.Lookup | database.py:20-21 | `get` returns the stored value for a stored key and the supplied default otherwise |
| Database.PutThenGet | database.py:20-23 | after `put(k, v)`, `get(k)` returns `v` whatever the default |
| Database.PutKeepsOthers | database.py:20-23 | `put(k, v)` leaves every other key as it was, and the last write to a key wins |
| Database.Database.constructor | database.py:18-19 | a fresh store is empty |
| Database.Database.Get | database.py:20-21 | `get` returns what `Lookup` says and changes nothing |
| Database.Database.Put | database.py:22-23 | `put` overwrites the key and changes no other key |
| Database.Database.ForEach | database.py:24-26 | the callback is called exactly once per stored key (the keys called are the stored keys, none twice) and each call carries that key's value |
| Database.RebuiltFromTrace | database.py:24-26 | putting the calls of a `forEach` trace into an empty map rebuilds the store |
| Credentials.RoleOfLabel | project_manage.py:46-50 | "student", "faculty" and "admin" map to Member, Faculty and Admin, every other label has no role, and no label yields Lead or Advisor |
| Credentials.MakeSalt | project_manage.py:36 | the salt has four characters, each printable ASCII from `' '` to `'~'` |
| Credentials.SaltOf | project_manage.py:122-124 | `stored[0:4]` clamps to the string's length, and salt followed by digest gives back the stored string |
| Credentials.SplitStored | project_manage.py:43-45 | a stored password built from a four-character salt splits back into that salt and the digest |
| Credentials.MakeLogin | project_manage.py:37-51 | a login entry exists iff the label is known; it keeps the row's id and username, takes the label's role, and stores the salt followed by `H(password + salt)` |
| Credentials.Login | project_manage.py:109-125 | login returns the stored entry iff the username is in the table and `H(password + stored[0:4]) == stored[4:]`, and nothing otherwise |
| Credentials.SeedPasswordAccepted | project_manage.py:118-125 | an entry built by the bootstrap accepts the row's own password and leads to the panel its label names |
| Credentials.OtherPasswordRejected | project_manage.py:118-125 | when the digest does not collide, such an entry rejects every other password |
| Credentials.LoginKey | project_manage.py:90 | the login key is the first name, a dot and the last initial; an empty last name has no key (`IndexError`) |
| Credentials.LoginKeyDetermines | project_manage.py:90 | for first names without a dot, the key determines the first name and the last initial |
| Credentials.LoginKeyShared | project_manage.py:90 | two people with the same first name and the same last initial get the same key |
| Credentials.LoginKeyCollides | project_manage.py:90 | an instance: the key is case-kept, `"Ada.L"` for both Ada Lovelace and Ada Lamb |
| Credentials.BootstrapLogins | project_manage.py:35-51 | the bootstrap loop succeeds iff every label is known, then replaces each roster row by the entry built from it with its own draws, and otherwise names a row with an unknown label |
| Credentials.BootstrappedEntry | project_manage.py:35-51 | every entry of a completed bootstrap has a four-character printable salt and accepts its row's password |
| Workflow.NameOf | project_manage.py:66-79 | the name of a stored person is first and last name, of anybody else `"Unknown"` |
| Workflow.FindUser | project_manage.py:92-107 | the people table is tried first, then the login table via the entry's id; nothing is found exactly when neither yields a person |
| Workflow.GetLoginFromData | project_manage.py:81-90 | the login entry under the derived key, none when that key is missing, and `IndexError` exactly for an empty last name |
| Workflow.Resolve | project_manage.py:455-463 | finding a person and their derived login entry: unknown user, empty last name and missing entry are told apart, and a found person carries the entry's role |
| Workflow.ManageOption6 | project_manage.py:375-387 | option 6 is the advisor request without an advisor, the approval request with one while unapproved, then the evaluation request, then the report, each an if-and-only-if, and none outside the lead's view |
| Workflow.Become | project_manage.py:607-615 | the role is replaced, the project list becomes `None` so the next access yields an empty list, `"invitations"` becomes `None`, and the `invs` mailbox, the other mailboxes, the messages, the id and the names (from which the login key is derived) are kept; the user's login entry changes in its role only, and every other entry is kept |
| Workflow.CreateProject | project_manage.py:977-990 | the new record is stored under its fresh id with the lead as only member, approved false and no advisor key, the lead's record is exactly their record with the id appended to their projects, every other record is kept, and option 6 becomes the advisor request |
| Workflow.Invite | project_manage.py:450-467 | the project id reaches the `invs` mailbox iff the named person's login role is Member; unknown user, missing login entry and wrong role change nothing |
| Workflow.RequestAdvisor | project_manage.py:425-448 | the request reaches the `adv_reqs` mailbox iff no sentinel is pending and the role is exactly Faculty (an Advisor is refused); an unknown user, a missing login entry and an empty last name report `NoSuchUser`, `NoLogin` and `Crashed`; every failure leaves the tables unchanged and the project record is never touched |
| Workflow.SubmitApproval | project_manage.py:396-405 | the request reaches the advisor's `apr_reqs` mailbox iff the project has an advisor with a person record; otherwise nothing changes |
| Workflow.SubmitEvaluation | project_manage.py:407-414 | the evaluation list is created when missing and gains the project id at its end, with nothing checked and nothing else changed |
| Workflow.RecordAdvisorAnswer | project_manage.py:844-854 | accepting sets the advisor to the faculty id, makes them Advisor, and leaves their record exactly as it was with the project appended to their projects; rejecting stores `None` as advisor and changes nobody |
| Workflow.NotifyAndPop | project_manage.py:855-863 | the lead's record gains the notice and nothing else, and the answering person's record loses the answered entry and nothing else; when they are the same record it gets both changes |
| Workflow.ResolveAdvisor | project_manage.py:834-863 | each outcome, `Done` included ("a valid index, a decision, the project and its lead present"), is an if-and-only-if, and there are no others; acceptance or rejection records the advisor, tells the lead with `adva`/`advr` authored by the faculty id, and swap-pops the request; the faculty and lead records are stated whole, every other record is kept; a missing project, a bad index or no decision change nothing |
| Workflow.ResolveApproval | project_manage.py:777-797 | each outcome is an if-and-only-if, `Done` exactly for a valid index, a decision, and the project and its lead present; `y` sets approved, `n` leaves the project as it was; the lead gets `apra`/`aprr`; the request is swap-popped; the advisor and lead records are stated whole, every other record is kept; a missing project changes nothing |
| Workflow.ResolveEvaluation | project_manage.py:729-742 | each outcome is an if-and-only-if, `Done` exactly for a valid index, a decision and the project present; `y` sets evaluated, `n` leaves the project as it was; the assignment is swap-popped; nobody is told; a missing project changes nothing and the action never crashes |
| Workflow.ResolveInvitation | project_manage.py:1067-1080 | an index past the end changes nothing; accepting appends the project to the member's projects and, only when the project exists, the member to its members; either answer swap-pops the invitation; the member's record is stated whole and every other record is kept |
| Workflow.InvitationRounds | project_manage.py:1045-1082 | the answers of one session keep the tables valid, the user's login entry and the set of people |
| Workflow.ViewInvitations | project_manage.py:1038-1044 | with no invitation the view returns at once, leaving only an empty `invs` list behind |
| Workflow.ResolveInvitationShrinks | project_manage.py:1067-1080 | one answer never adds an invitation: an in-range answer removes exactly the answered entry, and an index out of range removes none |
| Workflow.InvitationRoundsShrink | project_manage.py:1045-1082 | over a whole session the invitation mailbox ends as a sub-multiset of what it started with |
| Workflow.AssignEvaluator | project_manage.py:1110-1150 | the index must lie in the list and the evaluator must be Faculty or Advisor; then the project reaches their `eval_projs`. An unknown evaluator reports `NoSuchUser`. A missing login entry or an empty last name crashes before any write to people. A missing project crashes after the evaluator's `eval_projs` has been opened, and only that is written. The evaluation list is kept (created when missing). Every other failure leaves the people table unchanged |
| Workflow.DeleteMessage | project_manage.py:947-955 | the message at the index is swap-popped (the multiset loses exactly that message) and the record is otherwise unchanged; an index past the end is an uncaught `IndexError` that changes nothing |
| Workflow.ClearMessages | project_manage.py:942 | the lead's record is the same record with an empty message list, and nothing else changes |
| Workflow.LoginPrompt | project_manage.py:127-136 | a login succeeds iff the credentials check does, and then opens the panel of the entry's role over the person record under the entry's id |
| Manage.App.constructor | project_manage.py:31-53 | the tables start as the roster, the built login table, no projects and no evaluation list |
| Manage.App.Mailbox | project_manage.py:581-592 | the lazy accessor hands out the stored items and leaves `Opened` in the record |
| Manage.App.Messages | project_manage.py:885-896 | `LeadView.messages` hands out the stored messages and leaves a list behind |
| Manage.App.Push | project_manage.py:466 | accessor and `append` leave the record as `Pushed` says |
| Manage.App.Notify | project_manage.py:855-861 | `messages.append` leaves the record as `PushedMsg` says |
| Manage.App.Pop | project_manage.py:862-863 | the in-place swap-pop leaves the record as `Popped` says |
| Manage.App.UniqueProjectId | project_manage.py:55-64 | the retry loop stops at the first candidate not in the projects table, every candidate before it being taken |
| Manage.App.Become | project_manage.py:607-615 | the in-place update ends in the tables `Workflow.Become` gives |
| Manage.App.CreateProject | project_manage.py:977-990 | the id is a candidate not in the table before, and the tables end as `Workflow.CreateProject` gives |
| Manage.App.Invite | project_manage.py:450-467 | tables and status end as `Workflow.Invite` gives |
| Manage.App.RequestAdvisor | project_manage.py:425-448 | tables and status end as `Workflow.RequestAdvisor` gives |
| Manage.App.SubmitApproval | project_manage.py:396-405 | tables and status end as `Workflow.SubmitApproval` gives |
| Manage.App.SubmitEvaluation | project_manage.py:407-414 | the tables end as `Workflow.SubmitEvaluation` gives |
| Manage.App.ResolveAdvisor | project_manage.py:834-863 | tables and status end as `Workflow.ResolveAdvisor` gives |
| Manage.App.ResolveApproval | project_manage.py:777-797 | tables and status end as `Workflow.ResolveApproval` gives |
| Manage.App.ResolveEvaluation | project_manage.py:729-742 | tables and status end as `Workflow.ResolveEvaluation` gives |
| Manage.App.ResolveInvitation | project_manage.py:1067-1080 | tables and status end as `Workflow.ResolveInvitation` gives |
| Manage.App.ViewInvitations | project_manage.py:1038-1082 | the loop over the answers ends in the tables `Workflow.ViewInvitations` gives |
| Manage.App.AssignEvaluator | project_manage.py:1110-1150 | tables and status end as `Workflow.AssignEvaluator` gives |
| Manage.App.DeleteMessage | project_manage.py:947-955 | tables and status end as `Workflow.DeleteMessage` gives |
| Manage.App.ClearMessages | project_manage.py:942 | the tables end as `Workflow.ClearMessages` gives |
| Manage.Start | project_manage.py:23-53 | start-up succeeds iff every login label is known, and then yields fresh valid tables whose login entries are the ones the bootstrap builds |
| Lifecycle.InviteThenAccept | project_manage.py:1067-1080 | inviting a member who then accepts the newest invitation adds the membership on both sides and restores the invitation mailbox |
| Lifecycle.InviteThenDecline | project_manage.py:1067-1080 | declining it instead leaves the projects and the member's project list alone |
| Lifecycle.AcceptedAdvisorLeadsToApproval | project_manage.py:844-852 | an accepted advisor request makes the faculty member advisor and Advisor, opens the approval option, and an approval request then reaches them |
| Lifecycle.RejectedAdvisorReopensRequest | project_manage.py:853-854 | a rejection clears the advisor, so option 6 is the advisor request again and an approval request is refused |
| Lifecycle.ApprovalLeadsToEvaluation | project_manage.py:787-795 | an approval tells the lead with `apra` and opens the evaluation option |
| Lifecycle.RejectedApprovalStaysOpen | project_manage.py:786-788 | a rejected approval keeps the project as it was and the approval option open |
| Lifecycle.EvaluationLeadsToReport | project_manage.py:739-740 | a positive evaluation opens the report option while no report exists |
| Lifecycle.SubmitThenAssign | project_manage.py:1133-1150 | a submitted project sits at the end of the evaluation list, and assigning that index puts it in the evaluator's mailbox |
| Lifecycle.AssignThenEvaluate | project_manage.py:729-742 | an evaluator answering the newest assignment empties it out of the mailbox again while the evaluation list keeps it |
| Lifecycle.BecomeMemberDropsProjects | project_manage.py:915-921 | a lead who becomes a member finds an empty project list, keeps the invitations, and is sent to the member panel on the next login |
| Lifecycle.SeedLoginReachesPanel | project_manage.py:127-136 | after the bootstrap every roster row's own password opens the panel its role label names |

## Left out

- Interactive I/O: every prompt, menu and printed line (`Panel.show`,
  `get_info_string`, `MessageView.get_title`, the listings before each
  prompt). The answers a panel reads are parameters. `exit`, and input that
  is not a number, make no call at all, except in `assign_eval`: it stores an
  empty `"evaluation list"` when there is none (project_manage.py:1113-1116)
  before reading the index (1128-1132). That case is `Workflow.AssignEvaluator`
  with an index out of range, such as `-1`.
- Accessor writes made while a panel is shown: `FacultyPanel.show` reads
  `evaluating_projects` every time the faculty or advisor panel is shown
  (project_manage.py:687). That read stores `eval_projs = []` when the key is
  missing. Likewise, `view_responses` reads `messages` (project_manage.py:926)
  and stores `msgs = []` when it is missing. These writes are `Records.Opened`
  and `Manage.App.Mailbox`/`Manage.App.Messages`. No workflow function
  performs them as an action of its own.
- Persistence and CSV loading: `load`, `save`, `add_table`, `fromCsv`,
  `getData` and `CsvFile`. They do file I/O and `CsvFile` is not part of this
  model. The roster and login rows are parameters. The saved-database branch
  of `ManageApp.__init__` is left out with them.
- `readCsv` in database.py: file I/O.
- SHA-256 and `secrets`: `H` is an uninterpreted parameter and the draws are
  parameters.
- Manage.App.UniqueProjectId: the retry loop takes a finite sequence of
  candidate ids in place of the endless random stream. When every candidate is
  taken it reports so (`Manage.App.CreateProject` then returns no id), where the
  program would keep drawing.
- Negative indices: every index typed at a panel is a `nat`. Python's
  negative indices (`reqs[-1]`, see project_manage.py:731, 779, 836, 947) are
  not modelled. `assign_eval`'s check for `idx < 0` is modelled, because its
  index is an `int`.
- The admin's raw `ls`, `get`, `set`, `delete`, `cd` and `home` on the
  database: generic navigation over untyped values through `json`.
- `submit_report`, `change_name` and `change_desc`: they only overwrite one
  field of a project record and are not part of this model.
- `proj_delete`: it raises `AttributeError` before any write (see above), so
  it would be an action that always crashes and changes nothing; it is not
  modelled.
- Workflow.Actor: every per-user action (`Workflow.Become`,
  `Workflow.CreateProject`, `Workflow.ResolveAdvisor`,
  `Workflow.ResolveApproval`, `Workflow.ResolveEvaluation`,
  `Workflow.ResolveInvitation`, `Workflow.InvitationRounds`,
  `Workflow.ViewInvitations`, `Workflow.DeleteMessage`,
  `Workflow.ClearMessages` and their `Manage.App` methods) requires a login
  entry whose id has a person record. `login_prompt` also opens a panel for
  an entry without one, passing `None` (project_manage.py:134-136); that
  panel's first access of the record (for example project_manage.py:588,
  601, 613, 687, 892) raises `AttributeError` or `TypeError` before any
  write. The model does not cover that session; `Workflow.LoginPrompt` does
  state the `None` record.
- `MemberPanel.view_joined_projects`, `FacultyPanel.view_projects` and the
  listing part of `LeadPanel.view_projects`: display only. Their lazy
  accessors are the modelled `Mailbox`. Opening an existing project's
  `manage` menu is `Workflow.ManageOption6`.
- Aliasing between records: Python lists are shared objects. The model holds
  each mailbox as a value inside its record. No list is ever shared between
  two records here, so the two agree.
- Database.Database.ForEach: the order of the calls (insertion order) is not
  modelled. Only which keys are visited, once each, with their values.
- Login usernames: the login table's keys are whatever the login
  roster's `username` column holds; the model does not assume they equal the
  key `get_login_from_data` derives.
