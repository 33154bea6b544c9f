/** `ManageApp` as a mutable object: the people, login and projects tables
    and the evaluation list are fields, and each panel action updates them
    in place in the order the panel does. Every action is proved to leave
    the tables exactly as the workflow function for that action says. */
module Manage {
  import opened Optional
  import opened Records
  import opened Credentials
  import Workflow

  /** The outcome of starting the engine from the two rosters. */
  datatype Started = Running(app: App) | BadRoster(key: string)

  class App {
    var people: map<string, Person>
    var login: map<string, LoginRecord>
    var projects: map<string, Project>
    var evalList: Slot<seq<string>>

    /** The tables as a value. */
    function Model(): Workflow.State
      reads this
    {
      Workflow.State(people, login, projects, evalList)
    }

    predicate Valid()
      reads this
    {
      Workflow.Valid(Model())
    }

    /** The tables right after the bootstrap: the people roster as loaded,
        the login table it built, and no projects or documents yet. */
    constructor (roster: map<string, Person>, logins: map<string, LoginRecord>)
      requires forall k :: k in roster ==> roster[k].id == k
      ensures Valid()
      ensures Model() == Workflow.State(roster, logins, map[], Absent)
    {
      people := roster;
      login := logins;
      projects := map[];
      evalList := Absent;
    }

    /** A lazy list accessor on mailbox `b` of person `k`: the stored list,
        after a fresh empty list has been stored when there was none. */
    method Mailbox(k: string, b: Box) returns (items: seq<string>)
      requires k in people
      modifies this
      ensures items == Items(old(people[k].Mailbox(b)))
      ensures people == old(people[k := Opened(people[k], b)])
      ensures login == old(login) && projects == old(projects) && evalList == old(evalList)
    {
      var p := people[k];
      var stored := p.Mailbox(b);
      if stored.Val? {
        items := stored.value;
        assert people[k := p] == people;
      } else {
        items := [];
        people := people[k := p.WithMailbox(b, Val(items))];
      }
    }

    /** `LeadView.messages` on person `k`. */
    method Messages(k: string) returns (items: seq<Msg>)
      requires k in people
      modifies this
      ensures items == Items(old(people[k].msgs))
      ensures people == old(people[k := people[k].(msgs := Materialized(people[k].msgs))])
      ensures login == old(login) && projects == old(projects) && evalList == old(evalList)
    {
      var p := people[k];
      if p.msgs.Val? {
        items := p.msgs.value;
        assert people[k := p.(msgs := Materialized(p.msgs))] == people;
      } else {
        items := [];
        people := people[k := p.(msgs := Val(items))];
      }
    }

    /** A lazy list accessor on mailbox `b` of person `k` followed by
        `append(x)`. */
    method Push(k: string, b: Box, x: string)
      requires k in people
      modifies this
      ensures people == old(people[k := Pushed(people[k], b, x)])
      ensures login == old(login) && projects == old(projects) && evalList == old(evalList)
    {
      var p0 := people[k];
      var items := Mailbox(k, b);
      WithMailboxTwice(p0, b, Materialized(p0.Mailbox(b)), Val(items + [x]));
      people := people[k := people[k].WithMailbox(b, Val(items + [x]))];
    }

    /** `LeadView.messages.append(m)` on person `k`. */
    method Notify(k: string, m: Msg)
      requires k in people
      modifies this
      ensures people == old(people[k := PushedMsg(people[k], m)])
      ensures login == old(login) && projects == old(projects) && evalList == old(evalList)
    {
      var msgs := Messages(k);
      people := people[k := people[k].(msgs := Val(msgs + [m]))];
    }

    /** `reqs[i] = reqs[-1]; reqs.pop()` on the list stored in mailbox `b`
        of person `k`. */
    method Pop(k: string, b: Box, i: nat)
      requires k in people && i < |Items(people[k].Mailbox(b))|
      modifies this
      ensures people == old(people[k := Workflow.Popped(people[k], b, i)])
      ensures login == old(login) && projects == old(projects) && evalList == old(evalList)
    {
      var reqs := Items(people[k].Mailbox(b));
      reqs := reqs[i := reqs[|reqs| - 1]];
      reqs := reqs[..|reqs| - 1];
      people := people[k := people[k].WithMailbox(b, Val(reqs))];
    }

    /** `get_unique_project_id` over a finite stream of candidate ids: the
        index of the first candidate not in the projects table, or the
        length of the stream when every candidate is taken. */
    method UniqueProjectId(candidates: seq<string>) returns (n: nat)
      ensures n <= |candidates|
      ensures forall j :: 0 <= j < n ==> candidates[j] in projects
      ensures n < |candidates| ==> candidates[n] !in projects
    {
      n := 0;
      while n < |candidates| && candidates[n] in projects
        invariant n <= |candidates|
        invariant forall j :: 0 <= j < n ==> candidates[j] in projects
      {
        n := n + 1;
      }
    }

    /** `MemberView.become` for the user logged in as `u`. */
    method Become(u: string, r: Role)
      requires Valid() && Workflow.Actor(Model(), u)
      modifies this
      ensures Valid()
      ensures Model() == Workflow.Become(old(Model()), u, r)
    {
      var k := login[u].id;
      people := people[k := people[k].(projs := Null)];
      people := people[k := people[k].(invitations := Null)];
      login := login[u := login[u].(role := r)];
    }

    /** The create branch of `LeadPanel.view_projects`: the first free
        candidate becomes the id of a new project led by `u`. */
    method CreateProject(u: string, candidates: seq<string>, name: string, desc: string) returns (pid: Option<string>)
      requires Valid() && Workflow.Actor(Model(), u)
      modifies this
      ensures Valid()
      ensures pid.Some? ==> pid.value in candidates && pid.value !in old(projects)
      ensures pid.Some? ==> Model() == Workflow.CreateProject(old(Model()), u, pid.value, name, desc)
      ensures pid.None? ==> Model() == old(Model())
      ensures pid.None? ==> forall j :: 0 <= j < |candidates| ==> candidates[j] in old(projects)
    {
      var n := UniqueProjectId(candidates);
      if n == |candidates| {
        return None;
      }
      var k := login[u].id;
      var p := Workflow.NewProject(candidates[n], name, desc, people[k].id);
      projects := projects[p.id := p];
      Push(k, Projs, p.id);
      pid := Some(p.id);
    }

    /** `ProjectPanel.invite_member` on project `pk`. */
    method Invite(pk: string, key: string) returns (st: Workflow.Status)
      requires Valid() && pk in projects
      modifies this
      ensures Valid()
      ensures var o := Workflow.Invite(old(Model()), pk, key); Model() == o.state && st == o.status
    {
      var proj := projects[pk];
      var found := Workflow.FindUser(people, login, key);
      if found.None? {
        return Workflow.NoSuchUser;
      }
      var k := found.value;
      var entry := Workflow.GetLoginFromData(login, people[k]);
      if entry.IndexError? {
        return Workflow.Crashed;
      }
      if entry.Miss? {
        return Workflow.NoLogin;
      }
      if entry.value.role != Member {
        return Workflow.WrongRole;
      }
      Push(k, Invs, proj.id);
      return Workflow.Done;
    }

    /** `ProjectPanel.request_for_advisor` on project `pk`. */
    method RequestAdvisor(pk: string, key: string) returns (st: Workflow.Status)
      requires Valid() && pk in projects
      modifies this
      ensures Valid()
      ensures var o := Workflow.RequestAdvisor(old(Model()), pk, key); Model() == o.state && st == o.status
    {
      var proj := projects[pk];
      if proj.AdvisorPending() {
        return Workflow.Pending;
      }
      var found := Workflow.FindUser(people, login, key);
      if found.None? {
        return Workflow.NoSuchUser;
      }
      var k := found.value;
      var entry := Workflow.GetLoginFromData(login, people[k]);
      if entry.IndexError? {
        return Workflow.Crashed;
      }
      if entry.Miss? {
        return Workflow.NoLogin;
      }
      if entry.value.role != Faculty {
        return Workflow.WrongRole;
      }
      Push(k, AdvReqs, proj.id);
      return Workflow.Done;
    }

    /** `ProjectPanel.submit_approv` on project `pk`. */
    method SubmitApproval(pk: string) returns (st: Workflow.Status)
      requires Valid() && pk in projects
      modifies this
      ensures Valid()
      ensures var o := Workflow.SubmitApproval(old(Model()), pk); Model() == o.state && st == o.status
    {
      var proj := projects[pk];
      var advisor := proj.AdvisorId();
      if advisor.None? || advisor.value !in people {
        return Workflow.NoAdvisor;
      }
      var a := advisor.value;
      Push(a, AprReqs, proj.id);
      return Workflow.Done;
    }

    /** `ProjectPanel.submit_eval` on project `pk`. */
    method SubmitEvaluation(pk: string)
      requires Valid() && pk in projects
      modifies this
      ensures Valid()
      ensures Model() == Workflow.SubmitEvaluation(old(Model()), pk).state
    {
      var list: seq<string>;
      if evalList.Val? {
        list := evalList.value;
      } else {
        list := [];
        evalList := Val(list);
      }
      evalList := Val(list + [projects[pk].id]);
    }

    /** The decision part of `FacultyPanel.view_requests`. */
    method ResolveAdvisor(u: string, i: nat, answer: Workflow.Answer) returns (st: Workflow.Status)
      requires Valid() && Workflow.Actor(Model(), u)
      modifies this
      ensures Valid()
      ensures var o := Workflow.ResolveAdvisor(old(Model()), u, i, answer); Model() == o.state && st == o.status
    {
      var fk := login[u].id;
      var reqs := Mailbox(fk, AdvReqs);
      if reqs == [] {
        return Workflow.EmptyMailbox;
      }
      if i >= |reqs| {
        return Workflow.BadIndex;
      }
      if answer == Workflow.Other {
        return Workflow.NoDecision;
      }
      var req := reqs[i];
      if req !in projects {
        return Workflow.MissingProject;
      }
      ghost var s1 := Model();
      var me := people[fk].id;
      if answer == Workflow.Yes {
        projects := projects[req := projects[req].(advisor := Val(me))];
        Push(fk, Projs, req);
        login := login[u := login[u].(role := Advisor)];
      } else {
        projects := projects[req := projects[req].(advisor := Null)];
      }
      assert Model() == Workflow.RecordAdvisorAnswer(s1, u, req, answer == Workflow.Yes);
      var proj := projects[req];
      var lead := proj.LeadId();
      if lead !in people {
        return Workflow.Crashed;
      }
      ghost var s2 := Model();
      var m := Msg(Workflow.AdvisorNotice(answer), me, proj.id);
      Notify(lead, m);
      Pop(fk, AdvReqs, i);
      assert Model() == Workflow.NotifyAndPop(s2, fk, lead, m, AdvReqs, i);
      return Workflow.Done;
    }

    /** The decision part of `FacultyPanel.view_projs_aprv`. */
    method ResolveApproval(u: string, i: nat, answer: Workflow.Answer) returns (st: Workflow.Status)
      requires Valid() && Workflow.Actor(Model(), u)
      modifies this
      ensures Valid()
      ensures var o := Workflow.ResolveApproval(old(Model()), u, i, answer); Model() == o.state && st == o.status
    {
      var fk := login[u].id;
      var reqs := Mailbox(fk, AprReqs);
      if reqs == [] {
        return Workflow.EmptyMailbox;
      }
      if i >= |reqs| {
        return Workflow.BadIndex;
      }
      if answer == Workflow.Other {
        return Workflow.NoDecision;
      }
      var req := reqs[i];
      if req !in projects {
        return Workflow.MissingProject;
      }
      if answer == Workflow.Yes {
        projects := projects[req := projects[req].(approved := Some(true))];
      }
      var proj := projects[req];
      var lead := proj.LeadId();
      if lead !in people {
        return Workflow.Crashed;
      }
      ghost var s2 := Model();
      var me := people[fk].id;
      var m := Msg(Workflow.ApprovalNotice(answer), me, proj.id);
      Notify(lead, m);
      Pop(fk, AprReqs, i);
      assert Model() == Workflow.NotifyAndPop(s2, fk, lead, m, AprReqs, i);
      return Workflow.Done;
    }

    /** The decision part of `FacultyPanel.view_eval`. */
    method ResolveEvaluation(u: string, i: nat, answer: Workflow.Answer) returns (st: Workflow.Status)
      requires Valid() && Workflow.Actor(Model(), u)
      modifies this
      ensures Valid()
      ensures var o := Workflow.ResolveEvaluation(old(Model()), u, i, answer); Model() == o.state && st == o.status
    {
      var fk := login[u].id;
      var reqs := Mailbox(fk, EvalProjs);
      if reqs == [] {
        return Workflow.EmptyMailbox;
      }
      if i >= |reqs| {
        return Workflow.BadIndex;
      }
      if answer == Workflow.Other {
        return Workflow.NoDecision;
      }
      var req := reqs[i];
      if req !in projects {
        return Workflow.MissingProject;
      }
      if answer == Workflow.Yes {
        projects := projects[req := projects[req].(evaluated := Some(true))];
      }
      Pop(fk, EvalProjs, i);
      return Workflow.Done;
    }

    /** One answer in `MemberPanel.view_invitations`. */
    method ResolveInvitation(u: string, i: nat, accept: bool) returns (st: Workflow.Status)
      requires Valid() && Workflow.Actor(Model(), u)
      modifies this
      ensures Valid()
      ensures var o := Workflow.ResolveInvitation(old(Model()), u, i, accept); Model() == o.state && st == o.status
    {
      var mk := login[u].id;
      var invs := Mailbox(mk, Invs);
      if invs == [] {
        return Workflow.EmptyMailbox;
      }
      if i >= |invs| {
        return Workflow.BadIndex;
      }
      var req := invs[i];
      if accept {
        Push(mk, Projs, req);
        if req in projects {
          projects := projects[req := projects[req].AddMember(people[mk].id)];
        }
      }
      Pop(mk, Invs, i);
      return Workflow.Done;
    }

    /** `MemberPanel.view_invitations` given the answers typed before
        `exit`: the mailbox is read once, and each answer is handled in turn
        on the same list. */
    method ViewInvitations(u: string, answers: seq<(nat, bool)>)
      requires Valid() && Workflow.Actor(Model(), u)
      modifies this
      ensures Valid()
      ensures Model() == Workflow.ViewInvitations(old(Model()), u, answers)
    {
      var invs := Mailbox(login[u].id, Invs);
      if invs == [] {
        return;
      }
      assert old(people)[login[u].id := old(people)[login[u].id]] == old(people);
      assert answers[0..] == answers;
      var n := 0;
      while n < |answers|
        invariant n <= |answers|
        invariant Valid() && Workflow.Actor(Model(), u)
        invariant Workflow.InvitationRounds(Model(), u, answers[n..]) == Workflow.ViewInvitations(old(Model()), u, answers)
      {
        assert answers[n..][1..] == answers[n + 1..];
        var _ := ResolveInvitation(u, answers[n].0, answers[n].1);
        n := n + 1;
      }
    }

    /** `AdminPanel.assign_eval` with the index and evaluator it reads. */
    method AssignEvaluator(idx: int, key: string) returns (st: Workflow.Status)
      requires Valid()
      modifies this
      ensures Valid()
      ensures var o := Workflow.AssignEvaluator(old(Model()), idx, key); Model() == o.state && st == o.status
    {
      var list: seq<string>;
      if evalList.Val? {
        list := evalList.value;
      } else {
        list := [];
        evalList := Val(list);
      }
      if idx < 0 || idx >= |list| {
        return Workflow.BadIndex;
      }
      var pid := list[idx];
      var found := Workflow.FindUser(people, login, key);
      if found.None? {
        return Workflow.NoSuchUser;
      }
      var k := found.value;
      var entry := Workflow.GetLoginFromData(login, people[k]);
      if !entry.Hit? {
        return Workflow.Crashed;
      }
      if entry.value.role != Advisor && entry.value.role != Faculty {
        return Workflow.WrongRole;
      }
      var p0 := people[k];
      var evals := Mailbox(k, EvalProjs);
      if pid !in projects {
        return Workflow.Crashed;
      }
      WithMailboxTwice(p0, EvalProjs, Materialized(p0.Mailbox(EvalProjs)), Val(evals + [projects[pid].id]));
      people := people[k := people[k].WithMailbox(EvalProjs, Val(evals + [projects[pid].id]))];
      return Workflow.Done;
    }

    /** `LeadPanel.msg_delete` on the messages of the lead logged in as `u`. */
    method DeleteMessage(u: string, idx: nat) returns (st: Workflow.Status)
      requires Valid() && Workflow.Actor(Model(), u)
      modifies this
      ensures Valid()
      ensures var o := Workflow.DeleteMessage(old(Model()), u, idx); Model() == o.state && st == o.status
    {
      var k := login[u].id;
      var msgs := Items(people[k].msgs);
      if idx >= |msgs| {
        return Workflow.Crashed;
      }
      msgs := msgs[idx := msgs[|msgs| - 1]];
      msgs := msgs[..|msgs| - 1];
      people := people[k := people[k].(msgs := Val(msgs))];
      return Workflow.Done;
    }

    /** Option 3 of `LeadPanel.view_responses`. */
    method ClearMessages(u: string)
      requires Valid() && Workflow.Actor(Model(), u)
      modifies this
      ensures Valid()
      ensures Model() == Workflow.ClearMessages(old(Model()), u)
    {
      var k := login[u].id;
      people := people[k := people[k].(msgs := Val([]))];
    }
  }

  /** `ManageApp.__init__` without a saved database: the login roster is
      replaced entry by entry with salted login entries, then the tables
      are set up. A roster row with an unknown role label aborts start-up. */
  method Start(roster: map<string, Person>, rows: map<string, LoginRow>, draws: map<string, seq<nat>>, H: string -> string)
    returns (r: Started)
    requires forall k :: k in roster ==> roster[k].id == k
    requires forall k :: k in rows ==> k in draws && ValidDraws(draws[k])
    ensures r.Running? <==> forall k :: k in rows ==> RoleOfLabel(rows[k].roleLabel).Some?
    ensures r.Running? ==> fresh(r.app) && r.app.Valid()
    ensures r.Running? ==> r.app.people == roster && r.app.projects == map[] && r.app.evalList == Absent
    ensures r.Running? ==> r.app.login.Keys == rows.Keys
    ensures r.Running? ==> forall k :: k in rows ==> Some(r.app.login[k]) == MakeLogin(rows[k], MakeSalt(draws[k]), H)
    ensures r.BadRoster? ==> r.key in rows && RoleOfLabel(rows[r.key].roleLabel).None?
  {
    var built := BootstrapLogins(rows, draws, H);
    if built.UnknownLabel? {
      return BadRoster(built.key);
    }
    var app := new App(roster, built.table);
    return Running(app);
  }
}
