/** The records the project-tracking engine keeps in its tables: roles, people
    with their mailboxes, mailbox messages and projects, with the accessors
    the views over them provide. */
module Records {
  import opened Optional

  /** The roles of a login entry; the login table stores their integer codes. */
  datatype Role = Member | Lead | Faculty | Advisor | Admin {
    function Code(): (n: int)
      ensures 0 <= n < 5
      ensures n == 0 <==> this == Member
      ensures n == 1 <==> this == Lead
      ensures n == 2 <==> this == Faculty
      ensures n == 3 <==> this == Advisor
      ensures n == 4 <==> this == Admin
    {
      match this
      case Member => 0
      case Lead => 1
      case Faculty => 2
      case Advisor => 3
      case Admin => 4
    }
  }

  /** The panels a logged-in user can be sent to. */
  datatype PanelKind = MemberPanel | LeadPanel | FacultyPanel | AdminPanel

  /** The login prompt indexes a list of five panels by the role code, so
      faculty and advisors share the faculty panel and every other role has a
      panel of its own. */
  function PanelFor(r: Role): (p: PanelKind)
    ensures p == MemberPanel <==> r == Member
    ensures p == LeadPanel <==> r == Lead
    ensures p == FacultyPanel <==> r == Faculty || r == Advisor
    ensures p == AdminPanel <==> r == Admin
  {
    [MemberPanel, LeadPanel, FacultyPanel, FacultyPanel, AdminPanel][r.Code()]
  }

  /** The kinds of notice a lead receives, with the tag stored in `type`. */
  datatype MsgKind = InviteAccepted | AdvisorAccepted | AdvisorRejected | ApprovalAccepted | ApprovalRejected {
    function Tag(): string
    {
      match this
      case InviteAccepted => "inva"
      case AdvisorAccepted => "adva"
      case AdvisorRejected => "advr"
      case ApprovalAccepted => "apra"
      case ApprovalRejected => "aprr"
    }
  }

  /** The title lookup of `MessageView.get_title`, keyed by the stored
      `type`: a known tag names exactly one kind, any other tag has no
      title (a `KeyError`). */
  function KindOfTag(t: string): (r: Option<MsgKind>)
    ensures r.Some? ==> r.value.Tag() == t
    ensures forall k: MsgKind :: k.Tag() == t ==> r == Some(k)
  {
    if t == "inva" then Some(InviteAccepted)
    else if t == "adva" then Some(AdvisorAccepted)
    else if t == "advr" then Some(AdvisorRejected)
    else if t == "apra" then Some(ApprovalAccepted)
    else if t == "aprr" then Some(ApprovalRejected)
    else None
  }

  /** A notice `{type, author, project}` in a lead's `msgs` mailbox. */
  datatype Msg = Msg(kind: MsgKind, author: string, project: string)

  /** The list-of-project-id mailboxes a person record can carry:
      `invs`, `projs`, `adv_reqs`, `apr_reqs` and `eval_projs`. */
  datatype Box = Invs | Projs | AdvReqs | AprReqs | EvalProjs

  /** A person record of the people table. `invitations` is the key that
      becoming a member or lead writes; no accessor ever reads it. */
  datatype Person = Person(
    id: string,
    first: string,
    last: string,
    invs: Slot<seq<string>>,
    invitations: Slot<seq<string>>,
    projs: Slot<seq<string>>,
    advReqs: Slot<seq<string>>,
    aprReqs: Slot<seq<string>>,
    evalProjs: Slot<seq<string>>,
    msgs: Slot<seq<Msg>>)
  {
    function Mailbox(b: Box): Slot<seq<string>>
    {
      match b
      case Invs => invs
      case Projs => projs
      case AdvReqs => advReqs
      case AprReqs => aprReqs
      case EvalProjs => evalProjs
    }

    /** The record with mailbox `b` replaced by `v` and nothing else changed. */
    function WithMailbox(b: Box, v: Slot<seq<string>>): (q: Person)
      ensures q.Mailbox(b) == v
      ensures forall c :: c != b ==> q.Mailbox(c) == Mailbox(c)
      ensures q.id == id && q.first == first && q.last == last
      ensures q.invitations == invitations && q.msgs == msgs
      ensures v == Mailbox(b) ==> q == this
    {
      match b
      case Invs => this.(invs := v)
      case Projs => this.(projs := v)
      case AdvReqs => this.(advReqs := v)
      case AprReqs => this.(aprReqs := v)
      case EvalProjs => this.(evalProjs := v)
    }

    /** `UserView.name`: first name followed by last name. */
    function Name(): string
    {
      first + " " + last
    }
  }

  /** An accessor before the append changes nothing: the append stores the
      same list either way. */
  lemma PushedAfterOpened(p: Person, b: Box, x: string)
    ensures Pushed(Opened(p, b), b, x) == Pushed(p, b, x)
  {
    WithMailboxTwice(p, b, Materialized(p.Mailbox(b)), Val(Items(p.Mailbox(b)) + [x]));
  }

  /** Writing a mailbox twice keeps the second write only. */
  lemma WithMailboxTwice(p: Person, b: Box, v: Slot<seq<string>>, w: Slot<seq<string>>)
    ensures p.WithMailbox(b, v).WithMailbox(b, w) == p.WithMailbox(b, w)
  {
  }

  /** The record after a lazy list accessor for mailbox `b` has run. */
  function Opened(p: Person, b: Box): (q: Person)
    ensures q.Mailbox(b).Val? && Items(q.Mailbox(b)) == Items(p.Mailbox(b))
    ensures forall c :: c != b ==> q.Mailbox(c) == p.Mailbox(c)
    ensures q.id == p.id && q.first == p.first && q.last == p.last
    ensures q.invitations == p.invitations && q.msgs == p.msgs
    ensures p.Mailbox(b).Val? ==> q == p
  {
    p.WithMailbox(b, Materialized(p.Mailbox(b)))
  }

  /** A lazy list accessor followed by `append(x)`. */
  function Pushed(p: Person, b: Box, x: string): (q: Person)
    ensures q.Mailbox(b) == Val(Items(p.Mailbox(b)) + [x])
    ensures forall c :: c != b ==> q.Mailbox(c) == p.Mailbox(c)
    ensures q.id == p.id && q.first == p.first && q.last == p.last
    ensures q.invitations == p.invitations && q.msgs == p.msgs
  {
    p.WithMailbox(b, Val(Items(p.Mailbox(b)) + [x]))
  }

  /** `LeadView.messages` followed by `append(m)`. */
  function PushedMsg(p: Person, m: Msg): (q: Person)
    ensures q.msgs == Val(Items(p.msgs) + [m])
    ensures forall b :: q.Mailbox(b) == p.Mailbox(b)
    ensures q.id == p.id && q.first == p.first && q.last == p.last
    ensures q.invitations == p.invitations
  {
    p.(msgs := Val(Items(p.msgs) + [m]))
  }

  /** A project record. `advisor` may be missing (a new project), `None`
      (after a rejection) or an id; `approved`, `evaluated` and `report` are
      either missing or set. */
  datatype Project = Project(
    id: string,
    name: string,
    desc: string,
    members: seq<string>,
    advisor: Slot<string>,
    approved: Option<bool>,
    evaluated: Option<bool>,
    report: Option<string>)
  {
    /** `advisor_id`: the advisor, `None` when missing or cleared. */
    function AdvisorId(): Option<string>
    {
      Get(advisor)
    }

    /** `advisor_pending`: the advisor field holds the sentinel `"pending"`. */
    predicate AdvisorPending()
    {
      advisor == Val("pending")
    }

    /** The `advisor_pending` setter: the sentinel, or `None`. */
    function WithAdvisorPending(pending: bool): Project
    {
      if pending then this.(advisor := Val("pending")) else this.(advisor := Null)
    }

    /** `approved`, false when the key is missing. */
    predicate Approved()
    {
      approved == Some(true)
    }

    /** `evaluated`, false when the key is missing. */
    predicate Evaluated()
    {
      evaluated == Some(true)
    }

    /** `lead_id`: the first member. */
    function LeadId(): string
      requires |members| > 0
    {
      members[0]
    }

    /** The `lead_id` setter overwrites the first member. */
    function WithLead(lead: string): Project
      requires |members| > 0
    {
      this.(members := members[0 := lead])
    }

    /** `member_ids`: every member after the lead (`members[1::]`). */
    function MemberIds(): seq<string>
    {
      if |members| == 0 then [] else members[1..]
    }

    /** `add_member`: appends to the member list, duplicates included. */
    function AddMember(m: string): Project
    {
      this.(members := members + [m])
    }
  }

  /** The lead and the members together are the member list, lead first. */
  lemma LeadAndMembers(p: Project)
    requires |p.members| > 0
    ensures p.members == [p.LeadId()] + p.MemberIds()
    ensures |p.MemberIds()| == |p.members| - 1
  {
  }

  /** Adding a member keeps the lead and extends the members at the end. */
  lemma AddMemberKeepsLead(p: Project, m: string)
    requires |p.members| > 0
    ensures p.AddMember(m).LeadId() == p.LeadId()
    ensures p.AddMember(m).MemberIds() == p.MemberIds() + [m]
    ensures multiset(p.AddMember(m).members)[m] == multiset(p.members)[m] + 1
  {
    assert p.AddMember(m).members[1..] == p.members[1..] + [m];
  }

  /** Setting the lead replaces only the lead. */
  lemma WithLeadKeepsMembers(p: Project, lead: string)
    requires |p.members| > 0
    ensures p.WithLead(lead).LeadId() == lead
    ensures p.WithLead(lead).MemberIds() == p.MemberIds()
  {
  }

  /** The `advisor_pending` setter and getter agree, and clearing the flag
      leaves no advisor. */
  lemma AdvisorPendingRoundTrip(p: Project, pending: bool)
    ensures p.WithAdvisorPending(pending).AdvisorPending() == pending
    ensures !pending ==> p.WithAdvisorPending(pending).AdvisorId() == None
    ensures pending ==> p.WithAdvisorPending(pending).AdvisorId() == Some("pending")
  {
  }

  /** A project record whose flags were never written reads as neither
      approved nor evaluated. */
  lemma FlagsDefaultFalse(p: Project)
    ensures p.approved == None ==> !p.Approved()
    ensures p.evaluated == None ==> !p.Evaluated()
  {
  }

  /** Unordered removal `s[i] = s[-1]; s.pop()`. */
  function SwapPop<T>(s: seq<T>, i: nat): (r: seq<T>)
    requires i < |s|
    ensures |r| == |s| - 1
    ensures forall j :: 0 <= j < i ==> r[j] == s[j]
    ensures i < |s| - 1 ==> r[i] == s[|s| - 1]
    ensures forall j :: i < j < |r| ==> r[j] == s[j]
  {
    s[i := s[|s| - 1]][..|s| - 1]
  }

  /** Swap-with-last removal loses exactly the removed entry. */
  lemma {:induction false} SwapPopMultiset<T>(s: seq<T>, i: nat)
    requires i < |s|
    ensures multiset(SwapPop(s, i)) == multiset(s) - multiset{s[i]}
    ensures multiset(SwapPop(s, i)) + multiset{s[i]} == multiset(s)
  {
    var n := |s|;
    var r := SwapPop(s, i);
    if i == n - 1 {
      assert s == r + [s[i]];
    } else {
      assert r == s[..i] + [s[n - 1]] + s[i + 1..n - 1];
      assert s == s[..i] + [s[i]] + s[i + 1..n - 1] + [s[n - 1]];
      calc {
        multiset(s);
        multiset(s[..i]) + multiset{s[i]} + multiset(s[i + 1..n - 1]) + multiset{s[n - 1]};
        multiset(r) + multiset{s[i]};
      }
    }
  }
}
