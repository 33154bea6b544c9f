/** The project workflow over the people, login and projects tables and the
    evaluation list: each panel action, with its interactive answers given
    as parameters, as a function from the tables before to the tables after
    together with the outcome the panel reports. */
module Workflow {
  import opened Optional
  import opened Records
  import opened Credentials

  /** The tables the engine works on. `evalList` is the `"evaluation list"`
      entry of the documents table. */
  datatype State = State(
    people: map<string, Person>,
    login: map<string, LoginRecord>,
    projects: map<string, Project>,
    evalList: Slot<seq<string>>)

  /** People are stored under their id, projects under their id, and every
      project has a lead. */
  predicate Valid(s: State)
  {
    && (forall k :: k in s.people ==> s.people[k].id == k)
    && (forall k :: k in s.projects ==> s.projects[k].id == k && |s.projects[k].members| > 0)
  }

  /** The user `u` on whose behalf a panel acts: a login entry whose person
      record exists. */
  predicate Actor(s: State, u: string)
  {
    u in s.login && s.login[u].id in s.people
  }

  /** What the panel reports after an action. `Crashed` is an exception the
      action does not catch (`KeyError`, `IndexError`, or a `TypeError` or
      `AttributeError` on `None`); the tables are left as they were when it
      was raised. */
  datatype Status =
    | Done
    | NoSuchUser
    | NoLogin
    | WrongRole
    | Pending
    | NoAdvisor
    | EmptyMailbox
    | BadIndex
    | NoDecision
    | MissingProject
    | Crashed

  /** A `(y/n)` answer; anything else is `Other`. */
  datatype Answer = Yes | No | Other

  datatype Outcome = Outcome(state: State, status: Status)

  /** `get_name_from_id`: the person's full name, or `"Unknown"`. */
  function NameOf(people: map<string, Person>, id: string): (name: string)
    ensures id in people ==> name == people[id].first + " " + people[id].last
    ensures id !in people ==> name == "Unknown"
  {
    if id in people then people[id].Name() else "Unknown"
  }

  /** `find_user`: the key of the person record stored under `key` as an
      id, or else of the one the login entry under `key` as a username
      refers to. */
  function FindUser(people: map<string, Person>, login: map<string, LoginRecord>, key: string): (r: Option<string>)
    ensures r.Some? ==> r.value in people
    ensures key in people ==> r == Some(key)
    ensures key !in people && key in login && login[key].id in people ==> r == Some(login[key].id)
    ensures r.None? <==> key !in people && (key !in login || login[key].id !in people)
  {
    if key in people then Some(key)
    else if key in login && login[key].id in people then Some(login[key].id)
    else None
  }

  /** A lookup that finds an entry, finds none, or raises `IndexError`. */
  datatype Fetched<T> = Hit(value: T) | Miss | IndexError

  /** `get_login_from_data`: the login entry under the key derived from the
      person's names. */
  function GetLoginFromData(login: map<string, LoginRecord>, p: Person): (r: Fetched<LoginRecord>)
    ensures r.IndexError? <==> p.last == []
    ensures r.Hit? <==> LoginKey(p.first, p.last).Some? && LoginKey(p.first, p.last).value in login
    ensures r.Hit? ==> r.value == login[LoginKey(p.first, p.last).value]
  {
    match LoginKey(p.first, p.last)
    case None => IndexError
    case Some(key) => if key in login then Hit(login[key]) else Miss
  }

  /** The person an id or username names, with the role of the login entry
      derived from that person's names. */
  datatype Target = Found(person: string, role: Role) | UnknownUser | NoLoginEntry | EmptyLastName

  function Resolve(s: State, key: string): (t: Target)
    ensures t.UnknownUser? <==> FindUser(s.people, s.login, key).None?
    ensures t.Found? ==> FindUser(s.people, s.login, key) == Some(t.person) && t.person in s.people
    ensures t.Found? ==> GetLoginFromData(s.login, s.people[t.person]).Hit? &&
                         GetLoginFromData(s.login, s.people[t.person]).value.role == t.role
    ensures FindUser(s.people, s.login, key).Some? ==>
              var k := FindUser(s.people, s.login, key).value;
              (t.EmptyLastName? <==> GetLoginFromData(s.login, s.people[k]).IndexError?) &&
              (t.NoLoginEntry? <==> GetLoginFromData(s.login, s.people[k]).Miss?)
  {
    match FindUser(s.people, s.login, key)
    case None => UnknownUser
    case Some(k) =>
      match GetLoginFromData(s.login, s.people[k])
      case IndexError => EmptyLastName
      case Miss => NoLoginEntry
      case Hit(entry) => Found(k, entry.role)
  }

  /** The choices `ProjectPanel.manage` offers as option 6. */
  datatype Action = RequestAdvisorAction | SubmitApprovalAction | SubmitEvaluationAction | SubmitReportAction

  /** Option 6 of `ProjectPanel.manage`, decided by the project's state; only
      a lead managing the project (`wheel_mode`) sees it. */
  function ManageOption6(p: Project, wheel: bool): (r: Option<Action>)
    ensures r == Some(RequestAdvisorAction) <==> wheel && p.AdvisorId().None?
    ensures r == Some(SubmitApprovalAction) <==> wheel && p.AdvisorId().Some? && !p.Approved()
    ensures r == Some(SubmitEvaluationAction) <==> wheel && p.AdvisorId().Some? && p.Approved() && !p.Evaluated()
    ensures r == Some(SubmitReportAction) <==> wheel && p.AdvisorId().Some? && p.Approved() && p.Evaluated() && p.report.None?
    ensures r.None? <==> !wheel || (p.AdvisorId().Some? && p.Approved() && p.Evaluated() && p.report.Some?)
  {
    if !wheel then None
    else if p.AdvisorId().None? then Some(RequestAdvisorAction)
    else if !p.Approved() then Some(SubmitApprovalAction)
    else if !p.Evaluated() then Some(SubmitEvaluationAction)
    else if p.report.None? then Some(SubmitReportAction)
    else None
  }

  /** `MemberView.become`: the project list key and the `"invitations"` key
      are set to `None` and the role is replaced. The invitation mailbox
      itself lives under `invs`, so it survives. */
  function Become(s: State, u: string, r: Role): (o: State)
    requires Valid(s) && Actor(s, u)
    ensures Valid(o)
    ensures var k := s.login[u].id;
            && o.people.Keys == s.people.Keys
            && (forall q :: q in s.people && q != k ==> o.people[q] == s.people[q])
            && o.people[k].projs == Null && Items(o.people[k].projs) == []
            && o.people[k].invitations == Null
            && o.people[k].invs == s.people[k].invs
            && (forall b :: b != Projs ==> o.people[k].Mailbox(b) == s.people[k].Mailbox(b))
            && o.people[k].msgs == s.people[k].msgs
            && o.people[k].id == k && o.people[k].first == s.people[k].first && o.people[k].last == s.people[k].last
    ensures o.login.Keys == s.login.Keys && o.login[u].role == r
    ensures o.login == s.login[u := s.login[u].(role := r)]
    ensures forall v :: v in s.login && v != u ==> o.login[v] == s.login[v]
    ensures o.login[u].id == s.login[u].id && o.login[u].password == s.login[u].password
    ensures o.projects == s.projects && o.evalList == s.evalList
  {
    var k := s.login[u].id;
    var p := s.people[k];
    s.(people := s.people[k := p.(projs := Null, invitations := Null)],
       login := s.login[u := s.login[u].(role := r)])
  }

  /** The record `view_projects` stores for a new project. */
  function NewProject(id: string, name: string, desc: string, lead: string): Project
  {
    Project(id, name, desc, [lead], Absent, Some(false), None, None)
  }

  /** The create branch of `LeadPanel.view_projects`, given an id not yet
      in the projects table. */
  function CreateProject(s: State, u: string, pid: string, name: string, desc: string): (o: State)
    requires Valid(s) && Actor(s, u) && pid !in s.projects
    ensures Valid(o)
    ensures o.projects.Keys == s.projects.Keys + {pid}
    ensures forall q :: q in s.projects ==> o.projects[q] == s.projects[q]
    ensures o.people.Keys == s.people.Keys
    ensures var k := s.login[u].id; var p := o.projects[pid];
            && p.id == pid && p.name == name && p.desc == desc
            && p.members == [k] && p.LeadId() == k && p.MemberIds() == []
            && p.advisor == Absent && p.AdvisorId().None?
            && p.approved == Some(false) && !p.Approved() && !p.Evaluated() && p.report.None?
            && Items(o.people[k].projs) == Items(s.people[k].projs) + [pid]
            && o.people[k] == Pushed(s.people[k], Projs, pid)
            && (forall q :: q in s.people && q != k ==> o.people[q] == s.people[q])
    ensures ManageOption6(o.projects[pid], true) == Some(RequestAdvisorAction)
    ensures o.login == s.login && o.evalList == s.evalList
  {
    var k := s.login[u].id;
    var lead := Opened(s.people[k], Projs);
    PushedAfterOpened(s.people[k], Projs, pid);
    var p := NewProject(pid, name, desc, lead.id);
    s.(projects := s.projects[p.id := p],
       people := s.people[k := Pushed(lead, Projs, p.id)])
  }

  /** `ProjectPanel.invite_member`: the project id goes to the `invs`
      mailbox of the person named by `key`, whose login role must be
      Member. */
  function Invite(s: State, pk: string, key: string): (o: Outcome)
    requires Valid(s) && pk in s.projects
    ensures Valid(o.state)
    ensures var t := Resolve(s, key);
            && (o.status == Done <==> t.Found? && t.role == Member)
            && (o.status == Done ==> o.state == s.(people := s.people[t.person := Pushed(s.people[t.person], Invs, pk)]))
            && (t.UnknownUser? ==> o.status == NoSuchUser)
            && (t.NoLoginEntry? ==> o.status == NoLogin)
            && (t.EmptyLastName? ==> o.status == Crashed)
            && (t.Found? && t.role != Member ==> o.status == WrongRole)
    ensures o.status != Done ==> o.state == s
  {
    var proj := s.projects[pk];
    match Resolve(s, key)
    case UnknownUser => Outcome(s, NoSuchUser)
    case EmptyLastName => Outcome(s, Crashed)
    case NoLoginEntry => Outcome(s, NoLogin)
    case Found(k, role) =>
      if role != Member then Outcome(s, WrongRole)
      else Outcome(s.(people := s.people[k := Pushed(s.people[k], Invs, proj.id)]), Done)
  }

  /** `ProjectPanel.request_for_advisor`: the project id goes to the
      `adv_reqs` mailbox of the person named by `key`, whose login role must
      be exactly Faculty. The project record is not touched: no pending
      sentinel is written. */
  function RequestAdvisor(s: State, pk: string, key: string): (o: Outcome)
    requires Valid(s) && pk in s.projects
    ensures Valid(o.state)
    ensures o.state.projects == s.projects && o.state.login == s.login && o.state.evalList == s.evalList
    ensures s.projects[pk].AdvisorPending() ==> o == Outcome(s, Pending)
    ensures var t := Resolve(s, key);
            && (o.status == Done <==> !s.projects[pk].AdvisorPending() && t.Found? && t.role == Faculty)
            && (o.status == Done ==> o.state.people == s.people[t.person := Pushed(s.people[t.person], AdvReqs, pk)])
            && (!s.projects[pk].AdvisorPending() && t.Found? && t.role == Advisor ==> o.status == WrongRole)
            && (!s.projects[pk].AdvisorPending() && t.UnknownUser? ==> o.status == NoSuchUser)
            && (!s.projects[pk].AdvisorPending() && t.NoLoginEntry? ==> o.status == NoLogin)
            && (!s.projects[pk].AdvisorPending() && t.EmptyLastName? ==> o.status == Crashed)
    ensures o.status != Done ==> o.state == s
  {
    var proj := s.projects[pk];
    if proj.AdvisorPending() then Outcome(s, Pending)
    else
      match Resolve(s, key)
      case UnknownUser => Outcome(s, NoSuchUser)
      case EmptyLastName => Outcome(s, Crashed)
      case NoLoginEntry => Outcome(s, NoLogin)
      case Found(k, role) =>
        if role != Faculty then Outcome(s, WrongRole)
        else Outcome(s.(people := s.people[k := Pushed(s.people[k], AdvReqs, proj.id)]), Done)
  }

  /** `ProjectPanel.submit_approv`: the project id goes to the `apr_reqs`
      mailbox of the project's advisor; with no advisor record it fails. */
  function SubmitApproval(s: State, pk: string): (o: Outcome)
    requires Valid(s) && pk in s.projects
    ensures Valid(o.state)
    ensures var a := s.projects[pk].AdvisorId();
            && (o.status == Done <==> a.Some? && a.value in s.people)
            && (o.status == Done ==> o.state == s.(people := s.people[a.value := Pushed(s.people[a.value], AprReqs, pk)]))
    ensures o.status != Done ==> o == Outcome(s, NoAdvisor)
  {
    var proj := s.projects[pk];
    match proj.AdvisorId()
    case None => Outcome(s, NoAdvisor)
    case Some(a) =>
      if a !in s.people then Outcome(s, NoAdvisor)
      else Outcome(s.(people := s.people[a := Pushed(s.people[a], AprReqs, proj.id)]), Done)
  }

  /** `ProjectPanel.submit_eval`: the project id is appended to the
      evaluation list, which is created when missing. Nothing about the
      project is checked. */
  function SubmitEvaluation(s: State, pk: string): (o: Outcome)
    requires Valid(s) && pk in s.projects
    ensures Valid(o.state) && o.status == Done
    ensures o.state.evalList.Val? && Items(o.state.evalList) == Items(s.evalList) + [pk]
    ensures o.state.people == s.people && o.state.login == s.login && o.state.projects == s.projects
  {
    var proj := s.projects[pk];
    Outcome(s.(evalList := Val(Items(Materialized(s.evalList)) + [proj.id])), Done)
  }

  /** The record after the mailbox entry at `i` has been swap-popped. */
  function Popped(p: Person, b: Box, i: nat): (q: Person)
    requires i < |Items(p.Mailbox(b))|
    ensures q.Mailbox(b) == Val(SwapPop(Items(p.Mailbox(b)), i))
    ensures forall c :: c != b ==> q.Mailbox(c) == p.Mailbox(c)
    ensures q.id == p.id && q.first == p.first && q.last == p.last
    ensures q.msgs == p.msgs && q.invitations == p.invitations
  {
    p.WithMailbox(b, Val(SwapPop(Items(p.Mailbox(b)), i)))
  }

  /** The lead is told of an answer and the answered entry at `i` of the
      answering person's mailbox `b` is swap-popped, in that order; the lead
      and the answering person may be the same record. */
  function NotifyAndPop(s: State, fk: string, lead: string, m: Msg, b: Box, i: nat): (t: State)
    requires Valid(s) && fk in s.people && lead in s.people && i < |Items(s.people[fk].Mailbox(b))|
    ensures Valid(t) && t.projects == s.projects && t.login == s.login && t.evalList == s.evalList
    ensures t.people.Keys == s.people.Keys
    ensures forall k :: k in s.people && k != fk && k != lead ==> t.people[k] == s.people[k]
    ensures t.people[fk].Mailbox(b) == Val(SwapPop(Items(s.people[fk].Mailbox(b)), i))
    ensures forall c :: c != b ==> t.people[fk].Mailbox(c) == s.people[fk].Mailbox(c)
    ensures Items(t.people[lead].msgs) == Items(s.people[lead].msgs) + [m]
    ensures fk != lead ==> t.people[fk] == Popped(s.people[fk], b, i) && t.people[lead] == PushedMsg(s.people[lead], m)
    ensures fk == lead ==> t.people[fk] == Popped(PushedMsg(s.people[fk], m), b, i)
  {
    var s3 := s.(people := s.people[lead := PushedMsg(s.people[lead], m)]);
    s3.(people := s3.people[fk := Popped(s3.people[fk], b, i)])
  }

  /** The project and faculty records once an advisor request for `req`
      has been answered, before the lead is told. */
  function RecordAdvisorAnswer(s: State, u: string, req: string, yes: bool): (t: State)
    requires Valid(s) && Actor(s, u) && req in s.projects
    ensures Valid(t) && t.evalList == s.evalList && t.people.Keys == s.people.Keys
    ensures var fk := s.login[u].id;
            && t.projects == s.projects[req := s.projects[req].(advisor := if yes then Val(fk) else Null)]
            && (forall k :: k in s.people && k != fk ==> t.people[k] == s.people[k])
            && (forall b :: b != Projs ==> t.people[fk].Mailbox(b) == s.people[fk].Mailbox(b))
            && t.people[fk].msgs == s.people[fk].msgs
            && (yes ==> Items(t.people[fk].projs) == Items(s.people[fk].projs) + [req])
            && (yes ==> t.people[fk] == Pushed(s.people[fk], Projs, req))
            && (yes ==> t.login == s.login[u := s.login[u].(role := Advisor)])
            && (!yes ==> t.people == s.people && t.login == s.login)
  {
    var fk := s.login[u].id;
    var me := s.people[fk].id;
    if yes then
      s.(projects := s.projects[req := s.projects[req].(advisor := Val(me))],
         people := s.people[fk := Pushed(s.people[fk], Projs, req)],
         login := s.login[u := s.login[u].(role := Advisor)])
    else
      s.(projects := s.projects[req := s.projects[req].(advisor := Null)])
  }

  /** The `(y/n)` answer to an advisor request, as a notice kind. */
  function AdvisorNotice(answer: Answer): MsgKind
  {
    if answer == Yes then AdvisorAccepted else AdvisorRejected
  }

  /** The decision part of `FacultyPanel.view_requests`: the faculty member
      logged in as `u` answers the advisor request at index `i`. */
  function ResolveAdvisor(s: State, u: string, i: nat, answer: Answer): (o: Outcome)
    requires Valid(s) && Actor(s, u)
    ensures Valid(o.state) && o.state.evalList == s.evalList
    ensures var fk := s.login[u].id; var reqs := Items(s.people[fk].advReqs);
            && (o.status == EmptyMailbox <==> reqs == [])
            && (o.status == EmptyMailbox ==> o.state == s.(people := s.people[fk := Opened(s.people[fk], AdvReqs)]))
            && (o.status == BadIndex <==> reqs != [] && i >= |reqs|)
            && (o.status == NoDecision <==> i < |reqs| && answer == Other)
            && (o.status == MissingProject <==> i < |reqs| && answer != Other && reqs[i] !in s.projects)
            && (o.status == Crashed <==> i < |reqs| && answer != Other && reqs[i] in s.projects &&
                                         s.projects[reqs[i]].LeadId() !in s.people)
            && (o.status == Done <==> i < |reqs| && answer != Other && reqs[i] in s.projects &&
                                      s.projects[reqs[i]].LeadId() in s.people)
            && (o.status in {EmptyMailbox, BadIndex, NoDecision, MissingProject, Crashed, Done})
            && (o.status == BadIndex || o.status == NoDecision || o.status == MissingProject ==> o.state == s)
    ensures var fk := s.login[u].id; var reqs := Items(s.people[fk].advReqs);
            o.status == Done ==>
              && i < |reqs| && answer != Other && reqs[i] in s.projects
              && var req := reqs[i]; var lead := s.projects[req].LeadId();
              && lead in s.people
              && o.state.people.Keys == s.people.Keys
              && o.state.people[fk].advReqs == Val(SwapPop(reqs, i))
              && Items(o.state.people[lead].msgs) == Items(s.people[lead].msgs) + [Msg(AdvisorNotice(answer), fk, req)]
              && (forall k :: k in s.people && k != fk && k != lead ==> o.state.people[k] == s.people[k])
              && o.state.projects == s.projects[req := s.projects[req].(advisor := if answer == Yes then Val(fk) else Null)]
              && (answer == Yes ==> Items(o.state.people[fk].projs) == Items(s.people[fk].projs) + [req])
              && (answer == Yes ==> o.state.login == s.login[u := s.login[u].(role := Advisor)])
              && (answer == No ==> o.state.people[fk].projs == s.people[fk].projs && o.state.login == s.login)
              && var answered := if answer == Yes then Pushed(s.people[fk], Projs, req) else s.people[fk];
              && var m := Msg(AdvisorNotice(answer), fk, req);
              && (fk != lead ==> o.state.people[fk] == Popped(answered, AdvReqs, i) &&
                                 o.state.people[lead] == PushedMsg(s.people[lead], m))
              && (fk == lead ==> o.state.people[fk] == Popped(PushedMsg(answered, m), AdvReqs, i))
  {
    var fk := s.login[u].id;
    var reqs := Items(s.people[fk].advReqs);
    var s1 := s.(people := s.people[fk := Opened(s.people[fk], AdvReqs)]);
    assert reqs != [] ==> s1 == s;
    if reqs == [] then Outcome(s1, EmptyMailbox)
    else if i >= |reqs| then Outcome(s1, BadIndex)
    else if answer == Other then Outcome(s1, NoDecision)
    else
      var req := reqs[i];
      if req !in s1.projects then Outcome(s1, MissingProject)
      else
        var s2 := RecordAdvisorAnswer(s1, u, req, answer == Yes);
        var proj := s2.projects[req];
        var lead := proj.LeadId();
        if lead !in s2.people then Outcome(s2, Crashed)
        else Outcome(NotifyAndPop(s2, fk, lead, Msg(AdvisorNotice(answer), s2.people[fk].id, proj.id), AdvReqs, i), Done)
  }

  /** The `(y/n)` answer to an approval request, as a notice kind. */
  function ApprovalNotice(answer: Answer): MsgKind
  {
    if answer == Yes then ApprovalAccepted else ApprovalRejected
  }

  /** The decision part of `FacultyPanel.view_projs_aprv`: the advisor
      logged in as `u` answers the approval request at index `i`. */
  function ResolveApproval(s: State, u: string, i: nat, answer: Answer): (o: Outcome)
    requires Valid(s) && Actor(s, u)
    ensures Valid(o.state) && o.state.evalList == s.evalList && o.state.login == s.login
    ensures var fk := s.login[u].id; var reqs := Items(s.people[fk].aprReqs);
            && (o.status == EmptyMailbox <==> reqs == [])
            && (o.status == EmptyMailbox ==> o.state == s.(people := s.people[fk := Opened(s.people[fk], AprReqs)]))
            && (o.status == BadIndex <==> reqs != [] && i >= |reqs|)
            && (o.status == NoDecision <==> i < |reqs| && answer == Other)
            && (o.status == MissingProject <==> i < |reqs| && answer != Other && reqs[i] !in s.projects)
            && (o.status == Crashed <==> i < |reqs| && answer != Other && reqs[i] in s.projects &&
                                         s.projects[reqs[i]].LeadId() !in s.people)
            && (o.status == Done <==> i < |reqs| && answer != Other && reqs[i] in s.projects &&
                                      s.projects[reqs[i]].LeadId() in s.people)
            && (o.status in {EmptyMailbox, BadIndex, NoDecision, MissingProject, Crashed, Done})
            && (o.status == BadIndex || o.status == NoDecision || o.status == MissingProject ==> o.state == s)
    ensures var fk := s.login[u].id; var reqs := Items(s.people[fk].aprReqs);
            o.status == Done ==>
              && i < |reqs| && answer != Other && reqs[i] in s.projects
              && var req := reqs[i]; var lead := s.projects[req].LeadId();
              && lead in s.people
              && o.state.people.Keys == s.people.Keys
              && o.state.people[fk].aprReqs == Val(SwapPop(reqs, i))
              && Items(o.state.people[lead].msgs) == Items(s.people[lead].msgs) + [Msg(ApprovalNotice(answer), fk, req)]
              && (forall k :: k in s.people && k != fk && k != lead ==> o.state.people[k] == s.people[k])
              && (answer == Yes ==> o.state.projects == s.projects[req := s.projects[req].(approved := Some(true))])
              && (answer == Yes ==> o.state.projects[req].Approved())
              && (answer == No ==> o.state.projects == s.projects)
              && var m := Msg(ApprovalNotice(answer), fk, req);
              && (fk != lead ==> o.state.people[fk] == Popped(s.people[fk], AprReqs, i) &&
                                 o.state.people[lead] == PushedMsg(s.people[lead], m))
              && (fk == lead ==> o.state.people[fk] == Popped(PushedMsg(s.people[fk], m), AprReqs, i))
  {
    var fk := s.login[u].id;
    var reqs := Items(s.people[fk].aprReqs);
    var s1 := s.(people := s.people[fk := Opened(s.people[fk], AprReqs)]);
    assert reqs != [] ==> s1 == s;
    if reqs == [] then Outcome(s1, EmptyMailbox)
    else if i >= |reqs| then Outcome(s1, BadIndex)
    else if answer == Other then Outcome(s1, NoDecision)
    else
      var req := reqs[i];
      if req !in s1.projects then Outcome(s1, MissingProject)
      else
        var me := s1.people[fk].id;
        var s2 :=
          if answer == Yes then s1.(projects := s1.projects[req := s1.projects[req].(approved := Some(true))])
          else s1;
        var proj := s2.projects[req];
        var lead := proj.LeadId();
        if lead !in s2.people then Outcome(s2, Crashed)
        else Outcome(NotifyAndPop(s2, fk, lead, Msg(ApprovalNotice(answer), me, proj.id), AprReqs, i), Done)
  }

  /** The decision part of `FacultyPanel.view_eval`: the evaluator logged
      in as `u` answers the evaluation assignment at index `i`. */
  function ResolveEvaluation(s: State, u: string, i: nat, answer: Answer): (o: Outcome)
    requires Valid(s) && Actor(s, u)
    ensures Valid(o.state) && o.state.evalList == s.evalList && o.state.login == s.login
    ensures o.status != Crashed
    ensures var fk := s.login[u].id; var reqs := Items(s.people[fk].evalProjs);
            && (o.status == EmptyMailbox <==> reqs == [])
            && (o.status == EmptyMailbox ==> o.state == s.(people := s.people[fk := Opened(s.people[fk], EvalProjs)]))
            && (o.status == BadIndex <==> reqs != [] && i >= |reqs|)
            && (o.status == NoDecision <==> i < |reqs| && answer == Other)
            && (o.status == MissingProject <==> i < |reqs| && answer != Other && reqs[i] !in s.projects)
            && (o.status == Done <==> i < |reqs| && answer != Other && reqs[i] in s.projects)
            && (o.status in {EmptyMailbox, BadIndex, NoDecision, MissingProject, Done})
            && (o.status == BadIndex || o.status == NoDecision || o.status == MissingProject ==> o.state == s)
    ensures var fk := s.login[u].id; var reqs := Items(s.people[fk].evalProjs);
            o.status == Done ==>
              && i < |reqs| && answer != Other && reqs[i] in s.projects
              && var req := reqs[i];
              && o.state.people == s.people[fk := Popped(s.people[fk], EvalProjs, i)]
              && (answer == Yes ==> o.state.projects == s.projects[req := s.projects[req].(evaluated := Some(true))])
              && (answer == Yes ==> o.state.projects[req].Evaluated())
              && (answer == No ==> o.state.projects == s.projects)
  {
    var fk := s.login[u].id;
    var reqs := Items(s.people[fk].evalProjs);
    var s1 := s.(people := s.people[fk := Opened(s.people[fk], EvalProjs)]);
    if reqs == [] then Outcome(s1, EmptyMailbox)
    else if i >= |reqs| then Outcome(s1, BadIndex)
    else if answer == Other then Outcome(s1, NoDecision)
    else
      var req := reqs[i];
      if req !in s1.projects then Outcome(s1, MissingProject)
      else
        var s2 :=
          if answer == Yes then s1.(projects := s1.projects[req := s1.projects[req].(evaluated := Some(true))])
          else s1;
        Outcome(s2.(people := s2.people[fk := Popped(s2.people[fk], EvalProjs, i)]), Done)
  }

  /** One answer in `MemberPanel.view_invitations`: the member logged in as
      `u` accepts (`'y'`) or declines (anything else) the invitation at
      index `i`. */
  function ResolveInvitation(s: State, u: string, i: nat, accept: bool): (o: Outcome)
    requires Valid(s) && Actor(s, u)
    ensures Valid(o.state)
    ensures o.state.login == s.login && o.state.evalList == s.evalList
    ensures o.state.people.Keys == s.people.Keys
    ensures var mk := s.login[u].id; var invs := Items(s.people[mk].invs);
            && (o.status == EmptyMailbox <==> invs == [])
            && (o.status == EmptyMailbox ==> o.state == s.(people := s.people[mk := Opened(s.people[mk], Invs)]))
            && (o.status == BadIndex <==> invs != [] && i >= |invs|)
            && (o.status == BadIndex ==> o.state == s)
            && (o.status == EmptyMailbox || o.status == BadIndex || o.status == Done)
    ensures var mk := s.login[u].id; var invs := Items(s.people[mk].invs);
            o.status == Done ==>
              && i < |invs|
              && var req := invs[i];
              && o.state.people.Keys == s.people.Keys
              && (forall k :: k in s.people && k != mk ==> o.state.people[k] == s.people[k])
              && o.state.people[mk].invs == Val(SwapPop(invs, i))
              && (accept ==> Items(o.state.people[mk].projs) == Items(s.people[mk].projs) + [req])
              && (accept && req in s.projects ==> o.state.projects == s.projects[req := s.projects[req].AddMember(mk)])
              && (!accept || req !in s.projects ==> o.state.projects == s.projects)
              && (accept ==> o.state.people[mk] == Popped(Pushed(s.people[mk], Projs, req), Invs, i))
              && (!accept ==> o.state.people[mk] == Popped(s.people[mk], Invs, i))
  {
    var mk := s.login[u].id;
    var invs := Items(s.people[mk].invs);
    var s1 := s.(people := s.people[mk := Opened(s.people[mk], Invs)]);
    assert invs != [] ==> s1 == s;
    if invs == [] then Outcome(s1, EmptyMailbox)
    else if i >= |invs| then Outcome(s1, BadIndex)
    else
      var req := invs[i];
      var s2 :=
        if accept then
          var s1a := s1.(people := s1.people[mk := Pushed(s1.people[mk], Projs, req)]);
          if req in s1a.projects then
            s1a.(projects := s1a.projects[req := s1a.projects[req].AddMember(s1a.people[mk].id)])
          else s1a
        else s1;
      Outcome(s2.(people := s2.people[mk := Popped(s2.people[mk], Invs, i)]), Done)
  }

  /** The answers given in the loop of `MemberPanel.view_invitations`, one
      after the other, until `exit`. */
  function InvitationRounds(s: State, u: string, answers: seq<(nat, bool)>): (o: State)
    requires Valid(s) && Actor(s, u)
    ensures Valid(o) && Actor(o, u)
    ensures o.login == s.login && o.evalList == s.evalList && o.people.Keys == s.people.Keys
    decreases |answers|
  {
    if answers == [] then s
    else InvitationRounds(ResolveInvitation(s, u, answers[0].0, answers[0].1).state, u, answers[1..])
  }

  /** `MemberPanel.view_invitations`: with no invitation it returns at once,
      otherwise it runs the answers. */
  function ViewInvitations(s: State, u: string, answers: seq<(nat, bool)>): (o: State)
    requires Valid(s) && Actor(s, u)
    ensures Valid(o) && o.login == s.login && o.evalList == s.evalList
    ensures var mk := s.login[u].id;
            Items(s.people[mk].invs) == [] ==> o == s.(people := s.people[mk := Opened(s.people[mk], Invs)])
  {
    var mk := s.login[u].id;
    if Items(s.people[mk].invs) == [] then s.(people := s.people[mk := Opened(s.people[mk], Invs)])
    else InvitationRounds(s, u, answers)
  }

  /** One answer never adds an invitation: the mailbox loses exactly the
      answered entry when the index is in range, and nothing otherwise. */
  lemma ResolveInvitationShrinks(s: State, u: string, i: nat, accept: bool)
    requires Valid(s) && Actor(s, u)
    ensures var mk := s.login[u].id; var o := ResolveInvitation(s, u, i, accept).state;
            multiset(Items(o.people[mk].invs)) <= multiset(Items(s.people[mk].invs))
    ensures var mk := s.login[u].id; var invs := Items(s.people[mk].invs);
            var o := ResolveInvitation(s, u, i, accept).state;
            && (i < |invs| ==> multiset(Items(o.people[mk].invs)) == multiset(invs) - multiset{invs[i]})
            && (i >= |invs| ==> Items(o.people[mk].invs) == invs)
  {
    var mk := s.login[u].id;
    var invs := Items(s.people[mk].invs);
    var o := ResolveInvitation(s, u, i, accept);
    if o.status == Done {
      SwapPopMultiset(invs, i);
    }
  }

  /** Over a whole session the invitations can only be used up: the
      mailbox ends as a sub-multiset of what it started with. */
  lemma {:induction false} InvitationRoundsShrink(s: State, u: string, answers: seq<(nat, bool)>)
    requires Valid(s) && Actor(s, u)
    ensures var mk := s.login[u].id; var o := InvitationRounds(s, u, answers);
            multiset(Items(o.people[mk].invs)) <= multiset(Items(s.people[mk].invs))
    decreases |answers|
  {
    if answers != [] {
      var s1 := ResolveInvitation(s, u, answers[0].0, answers[0].1).state;
      ResolveInvitationShrinks(s, u, answers[0].0, answers[0].1);
      InvitationRoundsShrink(s1, u, answers[1..]);
    }
  }

  /** `AdminPanel.assign_eval`: the project at index `idx` of the evaluation
      list goes to the `eval_projs` mailbox of the person named by `key`,
      whose role must be Faculty or Advisor. The list itself is kept as it
      is (created when missing). */
  function AssignEvaluator(s: State, idx: int, key: string): (o: Outcome)
    requires Valid(s)
    ensures Valid(o.state)
    ensures o.state.evalList.Val? && Items(o.state.evalList) == Items(s.evalList)
    ensures o.state.projects == s.projects && o.state.login == s.login
    ensures var list := Items(s.evalList); var t := Resolve(s, key);
            && (o.status == BadIndex <==> idx < 0 || idx >= |list|)
            && (o.status == Done <==> 0 <= idx < |list| && t.Found? && (t.role == Faculty || t.role == Advisor) &&
                                      list[idx] in s.projects)
            && (o.status == Done ==> o.state.people == s.people[t.person := Pushed(s.people[t.person], EvalProjs, list[idx])])
            && (o.status == WrongRole <==> 0 <= idx < |list| && t.Found? && t.role != Faculty && t.role != Advisor)
            && (o.status != Done && o.status != Crashed ==> o.state.people == s.people)
            && (0 <= idx < |list| && t.UnknownUser? ==> o.status == NoSuchUser)
            && (0 <= idx < |list| && (t.EmptyLastName? || t.NoLoginEntry?) ==>
                  o.status == Crashed && o.state.people == s.people)
            && (0 <= idx < |list| && t.Found? && (t.role == Faculty || t.role == Advisor) && list[idx] !in s.projects ==>
                  o.status == Crashed && o.state.people == s.people[t.person := Opened(s.people[t.person], EvalProjs)])
  {
    var list := Items(s.evalList);
    var s1 := s.(evalList := Materialized(s.evalList));
    if idx < 0 || idx >= |list| then Outcome(s1, BadIndex)
    else
      var pid := list[idx];
      match Resolve(s1, key)
      case UnknownUser => Outcome(s1, NoSuchUser)
      case EmptyLastName => Outcome(s1, Crashed)
      case NoLoginEntry => Outcome(s1, Crashed)
      case Found(k, role) =>
        if role != Advisor && role != Faculty then Outcome(s1, WrongRole)
        else
          var s2 := s1.(people := s1.people[k := Opened(s1.people[k], EvalProjs)]);
          if pid !in s2.projects then Outcome(s2, Crashed)
          else Outcome(s2.(people := s2.people[k := Pushed(s2.people[k], EvalProjs, s2.projects[pid].id)]), Done)
  }

  /** `LeadPanel.msg_delete` on the messages of the lead logged in as `u`:
      the message at `idx` is swap-popped; an index past the end raises an
      `IndexError` the panel does not catch. */
  function DeleteMessage(s: State, u: string, idx: nat): (o: Outcome)
    requires Valid(s) && Actor(s, u)
    ensures Valid(o.state)
    ensures var k := s.login[u].id; var msgs := Items(s.people[k].msgs);
            && (o.status == Done <==> idx < |msgs|)
            && (o.status != Done ==> o == Outcome(s, Crashed))
            && (o.status == Done ==>
                  && o.state.people.Keys == s.people.Keys
                  && (forall q :: q in s.people && q != k ==> o.state.people[q] == s.people[q])
                  && o.state.people[k].msgs == Val(SwapPop(msgs, idx))
                  && multiset(Items(o.state.people[k].msgs)) == multiset(msgs) - multiset{msgs[idx]}
                  && o.state.people[k] == s.people[k].(msgs := Val(SwapPop(msgs, idx)))
                  && (forall b :: o.state.people[k].Mailbox(b) == s.people[k].Mailbox(b)))
    ensures o.state.login == s.login && o.state.projects == s.projects && o.state.evalList == s.evalList
  {
    var k := s.login[u].id;
    var msgs := Items(s.people[k].msgs);
    if idx >= |msgs| then Outcome(s, Crashed)
    else
      SwapPopMultiset(msgs, idx);
      Outcome(s.(people := s.people[k := s.people[k].(msgs := Val(SwapPop(msgs, idx)))]), Done)
  }

  /** Option 3 of `LeadPanel.view_responses`: the lead's message list is
      emptied in place. */
  function ClearMessages(s: State, u: string): (o: State)
    requires Valid(s) && Actor(s, u)
    ensures Valid(o)
    ensures var k := s.login[u].id;
            && o.people.Keys == s.people.Keys
            && (forall q :: q in s.people && q != k ==> o.people[q] == s.people[q])
            && o.people[k].msgs == Val([]) && Items(o.people[k].msgs) == []
            && o.people[k] == s.people[k].(msgs := Val([]))
            && (forall b :: o.people[k].Mailbox(b) == s.people[k].Mailbox(b))
    ensures o.login == s.login && o.projects == s.projects && o.evalList == s.evalList
  {
    var k := s.login[u].id;
    s.(people := s.people[k := s.people[k].(msgs := Val([]))])
  }

  /** `ManageApp.login_prompt`: a successful login sends the user to the
      panel of the entry's role, over the person record under the entry's
      id; a failed one goes nowhere. */
  function LoginPrompt(s: State, username: string, password: string, H: string -> string): (r: Option<(PanelKind, Option<Person>)>)
    ensures r.Some? <==> Login(s.login, username, password, H).Some?
    ensures r.Some? ==> var entry := s.login[username];
                         && r.value.0 == PanelFor(entry.role)
                         && (r.value.1.Some? <==> entry.id in s.people)
                         && (r.value.1.Some? ==> r.value.1.value == s.people[entry.id])
  {
    match Login(s.login, username, password, H)
    case None => None
    case Some(entry) =>
      Some((PanelFor(entry.role), if entry.id in s.people then Some(s.people[entry.id]) else None))
  }
}
