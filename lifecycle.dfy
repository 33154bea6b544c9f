/** How the panel actions chain into a project's life: invitation and
    joining, the advisor request, approval, evaluation and the evaluator
    assignment, each step enabling the option the next one needs. */
module Lifecycle {
  import opened Optional
  import opened Records
  import opened Credentials
  import opened Workflow

  /** Inviting a member and that member accepting the newest invitation
      records the membership on both sides and leaves the invitation
      mailbox as it was before the invitation. */
  lemma InviteThenAccept(s: State, pk: string, u: string)
    requires Valid(s) && Actor(s, u) && pk in s.projects
    requires Resolve(s, s.login[u].id) == Found(s.login[u].id, Member)
    ensures var mk := s.login[u].id;
            var o1 := Invite(s, pk, mk);
            var o2 := ResolveInvitation(o1.state, u, |Items(s.people[mk].invs)|, true);
            && o1.status == Done && o2.status == Done
            && Items(o2.state.people[mk].invs) == Items(s.people[mk].invs)
            && Items(o2.state.people[mk].projs) == Items(s.people[mk].projs) + [pk]
            && o2.state.projects == s.projects[pk := s.projects[pk].AddMember(mk)]
            && o2.state.projects[pk].LeadId() == s.projects[pk].LeadId()
            && o2.state.projects[pk].MemberIds() == s.projects[pk].MemberIds() + [mk]
  {
    var mk := s.login[u].id;
    var invs := Items(s.people[mk].invs);
    var o1 := Invite(s, pk, mk);
    assert Items(o1.state.people[mk].invs) == invs + [pk];
    var o2 := ResolveInvitation(o1.state, u, |invs|, true);
    assert SwapPop(invs + [pk], |invs|) == invs;
    AddMemberKeepsLead(s.projects[pk], mk);
  }

  /** Declining the newest invitation instead leaves the projects and the
      member's project list untouched. */
  lemma InviteThenDecline(s: State, pk: string, u: string)
    requires Valid(s) && Actor(s, u) && pk in s.projects
    requires Resolve(s, s.login[u].id) == Found(s.login[u].id, Member)
    ensures var mk := s.login[u].id;
            var o1 := Invite(s, pk, mk);
            var o2 := ResolveInvitation(o1.state, u, |Items(s.people[mk].invs)|, false);
            && o2.status == Done
            && Items(o2.state.people[mk].invs) == Items(s.people[mk].invs)
            && o2.state.people[mk].projs == s.people[mk].projs
            && o2.state.projects == s.projects
  {
    var mk := s.login[u].id;
    var invs := Items(s.people[mk].invs);
    assert SwapPop(invs + [pk], |invs|) == invs;
  }

  /** An accepted advisor request makes the faculty member the project's
      advisor and an Advisor, tells the lead, and turns option 6 into the
      approval request, which then reaches that advisor. */
  lemma AcceptedAdvisorLeadsToApproval(s: State, u: string, i: nat)
    requires Valid(s) && Actor(s, u)
    requires var reqs := Items(s.people[s.login[u].id].advReqs);
             i < |reqs| && reqs[i] in s.projects && s.projects[reqs[i]].LeadId() in s.people
    ensures var fk := s.login[u].id; var req := Items(s.people[fk].advReqs)[i];
            var o := ResolveAdvisor(s, u, i, Yes).state;
            && ResolveAdvisor(s, u, i, Yes).status == Done
            && o.projects[req].AdvisorId() == Some(fk)
            && o.login[u].role == Advisor
            && PanelFor(o.login[u].role) == FacultyPanel
            && (!s.projects[req].Approved() ==> ManageOption6(o.projects[req], true) == Some(SubmitApprovalAction))
            && SubmitApproval(o, req).status == Done
            && Items(SubmitApproval(o, req).state.people[fk].aprReqs) == Items(o.people[fk].aprReqs) + [req]
  {
  }

  /** A rejected advisor request clears the advisor, so option 6 offers the
      advisor request again and an approval request has nobody to go to. */
  lemma RejectedAdvisorReopensRequest(s: State, u: string, i: nat)
    requires Valid(s) && Actor(s, u)
    requires var reqs := Items(s.people[s.login[u].id].advReqs);
             i < |reqs| && reqs[i] in s.projects && s.projects[reqs[i]].LeadId() in s.people
    ensures var fk := s.login[u].id; var req := Items(s.people[fk].advReqs)[i];
            var o := ResolveAdvisor(s, u, i, No).state;
            && ResolveAdvisor(s, u, i, No).status == Done
            && o.projects[req].advisor == Null
            && ManageOption6(o.projects[req], true) == Some(RequestAdvisorAction)
            && SubmitApproval(o, req) == Outcome(o, NoAdvisor)
  {
  }

  /** An approval makes option 6 the evaluation request for a project with
      an advisor that is not yet evaluated, and the lead is told. */
  lemma ApprovalLeadsToEvaluation(s: State, u: string, i: nat)
    requires Valid(s) && Actor(s, u)
    requires var reqs := Items(s.people[s.login[u].id].aprReqs);
             i < |reqs| && reqs[i] in s.projects && s.projects[reqs[i]].LeadId() in s.people
    ensures var fk := s.login[u].id; var req := Items(s.people[fk].aprReqs)[i];
            var o := ResolveApproval(s, u, i, Yes).state;
            var lead := s.projects[req].LeadId();
            && ResolveApproval(s, u, i, Yes).status == Done
            && o.projects[req].Approved()
            && Items(o.people[lead].msgs)[|Items(o.people[lead].msgs)| - 1] == Msg(ApprovalAccepted, fk, req)
            && (s.projects[req].AdvisorId().Some? && !s.projects[req].Evaluated() ==>
                  ManageOption6(o.projects[req], true) == Some(SubmitEvaluationAction))
  {
  }

  /** A rejected approval leaves the project unapproved, so option 6 still
      offers the approval request. */
  lemma RejectedApprovalStaysOpen(s: State, u: string, i: nat)
    requires Valid(s) && Actor(s, u)
    requires var reqs := Items(s.people[s.login[u].id].aprReqs);
             i < |reqs| && reqs[i] in s.projects && s.projects[reqs[i]].LeadId() in s.people
    ensures var fk := s.login[u].id; var req := Items(s.people[fk].aprReqs)[i];
            var o := ResolveApproval(s, u, i, No).state;
            && ResolveApproval(s, u, i, No).status == Done
            && o.projects[req] == s.projects[req]
            && (s.projects[req].AdvisorId().Some? && !s.projects[req].Approved() ==>
                  ManageOption6(o.projects[req], true) == Some(SubmitApprovalAction))
  {
  }

  /** A positive evaluation of an approved project with an advisor makes
      option 6 the report submission while no report exists. */
  lemma EvaluationLeadsToReport(s: State, u: string, i: nat)
    requires Valid(s) && Actor(s, u)
    requires var reqs := Items(s.people[s.login[u].id].evalProjs); i < |reqs| && reqs[i] in s.projects
    ensures var fk := s.login[u].id; var req := Items(s.people[fk].evalProjs)[i];
            var o := ResolveEvaluation(s, u, i, Yes).state;
            && ResolveEvaluation(s, u, i, Yes).status == Done
            && o.projects[req].Evaluated()
            && (s.projects[req].AdvisorId().Some? && s.projects[req].Approved() && s.projects[req].report.None? ==>
                  ManageOption6(o.projects[req], true) == Some(SubmitReportAction))
  {
  }

  /** A project submitted for evaluation is at the end of the evaluation
      list, so assigning that index to a faculty member or an advisor puts
      the project into the evaluator's mailbox. */
  lemma SubmitThenAssign(s: State, pk: string, key: string)
    requires Valid(s) && pk in s.projects
    requires Resolve(s, key).Found? && (Resolve(s, key).role == Faculty || Resolve(s, key).role == Advisor)
    ensures var o1 := SubmitEvaluation(s, pk).state;
            var o2 := AssignEvaluator(o1, |Items(s.evalList)|, key);
            var k := Resolve(s, key).person;
            && o2.status == Done
            && Items(o2.state.people[k].evalProjs) == Items(s.people[k].evalProjs) + [pk]
            && Items(o2.state.evalList) == Items(s.evalList) + [pk]
  {
    var o1 := SubmitEvaluation(s, pk).state;
    assert Resolve(o1, key) == Resolve(s, key);
  }

  /** An evaluator answering the newest assignment takes it out of the
      mailbox again; the evaluation list still holds it. */
  lemma AssignThenEvaluate(s: State, pk: string, u: string, answer: Answer)
    requires Valid(s) && Actor(s, u) && pk in s.projects
    requires var fk := s.login[u].id; Resolve(s, fk).Found? && (Resolve(s, fk).role == Faculty || Resolve(s, fk).role == Advisor)
    requires var list := Items(s.evalList); exists j :: 0 <= j < |list| && list[j] == pk
    requires answer != Other
    ensures var fk := s.login[u].id; var list := Items(s.evalList);
            var j :| 0 <= j < |list| && list[j] == pk;
            var o1 := AssignEvaluator(s, j, fk);
            var o2 := ResolveEvaluation(o1.state, u, |Items(s.people[fk].evalProjs)|, answer);
            && o1.status == Done && o2.status == Done
            && Items(o2.state.people[fk].evalProjs) == Items(s.people[fk].evalProjs)
            && Items(o2.state.evalList) == list
            && (answer == Yes ==> o2.state.projects[pk].Evaluated())
  {
    var fk := s.login[u].id;
    var list := Items(s.evalList);
    var j :| 0 <= j < |list| && list[j] == pk;
    var evals := Items(s.people[fk].evalProjs);
    var o1 := AssignEvaluator(s, j, fk);
    assert Items(o1.state.people[fk].evalProjs) == evals + [pk];
    assert SwapPop(evals + [pk], |evals|) == evals;
  }

  /** A lead who becomes a member starts with an empty project list but
      keeps the pending invitations, and is sent to the member panel on the
      next login. */
  lemma BecomeMemberDropsProjects(s: State, u: string, password: string, H: string -> string)
    requires Valid(s) && Actor(s, u)
    requires Login(s.login, u, password, H).Some?
    ensures var o := Become(s, u, Member); var k := s.login[u].id;
            && Items(Opened(o.people[k], Projs).projs) == []
            && Items(o.people[k].invs) == Items(s.people[k].invs)
            && LoginPrompt(o, u, password, H).Some?
            && LoginPrompt(o, u, password, H).value.0 == MemberPanel
  {
  }

  /** Starting from a completed bootstrap, every roster row's own password
      opens the panel its role label names. */
  lemma SeedLoginReachesPanel(s: State, rows: map<string, LoginRow>, draws: map<string, seq<nat>>, H: string -> string, u: string)
    requires forall k :: k in rows ==> k in draws && ValidDraws(draws[k])
    requires s.login.Keys == rows.Keys
    requires forall k :: k in rows ==> Some(s.login[k]) == MakeLogin(rows[k], MakeSalt(draws[k]), H)
    requires u in rows
    ensures LoginPrompt(s, u, rows[u].password, H).Some?
    ensures rows[u].roleLabel == "student" ==> LoginPrompt(s, u, rows[u].password, H).value.0 == MemberPanel
    ensures rows[u].roleLabel == "faculty" ==> LoginPrompt(s, u, rows[u].password, H).value.0 == FacultyPanel
    ensures rows[u].roleLabel == "admin" ==> LoginPrompt(s, u, rows[u].password, H).value.0 == AdminPanel
  {
    BootstrappedEntry(rows, draws, H, s.login, u);
    SeedPasswordAccepted(s.login, u, rows[u], draws[u], H);
  }
}
