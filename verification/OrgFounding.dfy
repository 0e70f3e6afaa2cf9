/** Two approvals for one email: how a login comes to depend on the order of rows. */
module OrgFounding {
  import opened Wrappers
  import opened OrgModel
  import opened OrgConstraints
  import opened OrgLogin
  import opened OrgHierarchy
  import opened OrgSignups
  import OrgClaims
  import Slug

  /** Submitting a request and having it approved. */
  datatype Round = Round(signup: Id, invite: Id, name: string, orgName: string, reason: string, now: Time)

  function Submit(email: string, r: Round): Step {
    SubmitStep(r.signup, r.name, email, r.orgName, r.reason)
  }

  function Approve(admin: Id, r: Round): Step {
    ApproveStep(admin, r.signup, r.invite, r.now)
  }

  function Rounds(admin: Id, email: string, r: Round): seq<Step> {
    [Submit(email, r), Approve(admin, r)]
  }

  /** The email may ask for an organization. */
  ghost predicate MayAsk(db: Db, admin: Id, email: string) {
    Wf(db) && OrgInvitesApproved(db) && IsPlatformAdmin(db, admin) && !HasMembershipByEmail(db, email) && !Asking(db, email)
  }

  ghost function After(a: Slug.Alphabet, db: Db, admin: Id, email: string, r: Round): Db {
    Next(a, Next(a, db, Submit(email, r)), Approve(admin, r))
  }

  lemma OneSubmission(a: Slug.Alphabet, db: Db, admin: Id, email: string, r: Round)
    requires MayAsk(db, admin, email) && r.signup !in db.signups
    ensures var db1 := Next(a, db, Submit(email, r));
      && Wf(db1) && OrgInvitesApproved(db1)
      && db1 == db.(signups := db.signups[r.signup := Signup(r.name, email, r.orgName, r.reason, Pending, None, None)])
      && IsPlatformAdmin(db1, admin) && !HasMembershipByEmail(db1, email)
  {
    var s := Submit(email, r);
    SubmitsExactlyWhen(a, db, s);
    SameMembers(db, Next(a, db, s), email);
    NextWf(a, db, s);
    NextApproved(a, db, s);
  }

  lemma OneApproval(a: Slug.Alphabet, db: Db, admin: Id, email: string, r: Round)
    requires Wf(db) && OrgInvitesApproved(db) && IsPlatformAdmin(db, admin) && !HasMembershipByEmail(db, email)
    requires r.signup in db.signups && r.invite !in db.orgInvites
    requires db.signups[r.signup] == Signup(r.name, email, r.orgName, r.reason, Pending, None, None)
    ensures var db' := Next(a, db, Approve(admin, r));
      && Wf(db') && OrgInvitesApproved(db')
      && db' == db.(signups := db.signups[r.signup := Reviewed(db.signups[r.signup], Approved, admin, r.now)],
                    orgInvites := db.orgInvites[r.invite := OrgInvite(email, r.orgName, r.signup, admin)])
  {
    var s := Approve(admin, r);
    ApprovesExactlyWhen(a, db, admin, r.signup, r.invite, r.now);
    NextWf(a, db, s);
    NextApproved(a, db, s);
  }

  lemma SameMembers(db: Db, db': Db, email: string)
    requires db'.members == db.members && db'.users == db.users
    ensures HasMembershipByEmail(db', email) == HasMembershipByEmail(db, email)
  {
  }

  lemma NotAskingAfter(db: Db, db': Db, email: string, id: Id, s: Signup)
    requires !Asking(db, email) && db'.signups == db.signups[id := s] && s.status != Pending
    ensures !Asking(db', email)
  {
  }

  lemma MayAskAgain(db: Db, db': Db, admin: Id, email: string, r: Round)
    requires MayAsk(db, admin, email) && Wf(db') && OrgInvitesApproved(db')
    requires db' == db.(signups := db'.signups, orgInvites := db'.orgInvites)
    requires r.signup in db'.signups && db'.signups[r.signup].status != Pending
    requires db'.signups == db.signups[r.signup := db'.signups[r.signup]]
    ensures MayAsk(db', admin, email)
  {
    SameMembers(db, db', email);
    NotAskingAfter(db, db', email, r.signup, db'.signups[r.signup]);
  }

  ghost predicate RoundDone(db: Db, db': Db, admin: Id, email: string, r: Round) {
    && r.signup in db'.signups && db'.signups[r.signup].status != Pending
    && Wf(db') && OrgInvitesApproved(db')
    && db' == db.(signups := db.signups[r.signup := db'.signups[r.signup]],
                  orgInvites := db.orgInvites[r.invite := OrgInvite(email, r.orgName, r.signup, admin)])
  }

  lemma RoundAdds(db: Db, db1: Db, db': Db, admin: Id, email: string, r: Round, s: Signup)
    requires db1 == db.(signups := db.signups[r.signup := s])
    requires db' == db1.(signups := db1.signups[r.signup := Reviewed(s, Approved, admin, r.now)],
                         orgInvites := db1.orgInvites[r.invite := OrgInvite(email, r.orgName, r.signup, admin)])
    requires Wf(db') && OrgInvitesApproved(db')
    ensures RoundDone(db, db', admin, email, r)
  {
    assert db'.signups == db.signups[r.signup := Reviewed(s, Approved, admin, r.now)];
  }

  lemma RoundRuns(a: Slug.Alphabet, db: Db, admin: Id, email: string, r: Round)
    requires MayAsk(db, admin, email) && r.signup !in db.signups && r.invite !in db.orgInvites
    ensures RoundDone(db, After(a, db, admin, email, r), admin, email, r)
  {
    var db1 := Next(a, db, Submit(email, r));
    OneSubmission(a, db, admin, email, r);
    OneApproval(a, db1, admin, email, r);
    RoundAdds(db, db1, Next(a, db1, Approve(admin, r)), admin, email, r, db1.signups[r.signup]);
  }

  /** One round leaves an organization invitation for the email, which may ask again. */
  lemma OneRound(a: Slug.Alphabet, db: Db, admin: Id, email: string, r: Round)
    requires MayAsk(db, admin, email) && r.signup !in db.signups && r.invite !in db.orgInvites
    ensures RoundDone(db, After(a, db, admin, email, r), admin, email, r)
    ensures MayAsk(After(a, db, admin, email, r), admin, email)
  {
    RoundRuns(a, db, admin, email, r);
    MayAskAgain(db, After(a, db, admin, email, r), admin, email, r);
  }

  lemma ExecCons(a: Slug.Alphabet, db: Db, s: Step, rest: seq<Step>)
    ensures Exec(a, db, [s] + rest) == Exec(a, Next(a, db, s), rest)
  {
    assert ([s] + rest)[1..] == rest;
  }

  lemma ExecFour(a: Slug.Alphabet, db: Db, p: Step, q: Step, r: Step, s: Step)
    ensures Exec(a, db, [p, q] + [r, s]) == Next(a, Next(a, Next(a, Next(a, db, p), q), r), s)
  {
    var db1 := Next(a, db, p);
    var db2 := Next(a, db1, q);
    ExecCons(a, db, p, [q, r, s]);
    ExecCons(a, db1, q, [r, s]);
    ExecCons(a, db2, r, [s]);
    ExecCons(a, Next(a, db2, r), s, []);
    assert [p, q] + [r, s] == [p] + [q, r, s] && [q, r, s] == [q] + [r, s];
    assert [r, s] == [r] + [s] && [s] == [s] + [];
  }

  /** From any reachable state with a platform admin, somebody without an organization can come to hold two
      organization invitations by four requests that all go through. */
  lemma TwoRoundsTwoInvitations(a: Slug.Alphabet, db: Db, admin: Id, email: string, r1: Round, r2: Round)
    requires MayAsk(db, admin, email)
    requires r1.signup !in db.signups && r2.signup !in db.signups && r1.signup != r2.signup
    requires r1.invite !in db.orgInvites && r2.invite !in db.orgInvites && r1.invite != r2.invite
    ensures var db' := Exec(a, db, Rounds(admin, email, r1) + Rounds(admin, email, r2));
      && Wf(db') && db' == db.(signups := db'.signups, orgInvites := db'.orgInvites)
      && db'.orgInvites == db.orgInvites[r1.invite := OrgInvite(email, r1.orgName, r1.signup, admin)]
                                        [r2.invite := OrgInvite(email, r2.orgName, r2.signup, admin)]
  {
    OneRound(a, db, admin, email, r1);
    OneRound(a, After(a, db, admin, email, r1), admin, email, r2);
    ExecFour(a, db, Submit(email, r1), Approve(admin, r1), Submit(email, r2), Approve(admin, r2));
  }

  lemma {:induction false} SomeListing(ids: set<Id>) returns (rows: seq<Id>)
    ensures Lists(rows, ids)
    decreases |ids|
  {
    if ids == {} {
      rows := [];
    } else {
      var k :| k in ids;
      var rest := SomeListing(ids - {k});
      rows := [k] + rest;
      assert forall j :: 0 < j < |rows| ==> rows[j] in rest;
    }
  }

  /** A newcomer's first login: nobody has the subject or the email, and fewer than a hundred organizations exist. */
  ghost predicate Newcomer(db: Db, g: Google) {
    && g.name != Null && |db.orgs| < 100
    && forall u :: u in db.users ==> db.users[u].sub != g.sub && db.users[u].email != g.email
  }

  lemma NewcomerLogsIn(a: Slug.Alphabet, adminEmail: string, db: Db, g: Google, ids: Fresh, orgRows: seq<Id>, rows: seq<Id>)
    requires Wf(db) && Newcomer(db, g) && Unused(db, ids) && Listed(db, g.email, orgRows, rows) && orgRows != []
    ensures Login(a, adminEmail, db, g, ids, orgRows, rows).Ok?
  {
    assert orgRows[0] in orgRows;
    FewOrgsSlugAvailable(a, db, db.orgInvites[orgRows[0]].orgName);
    LoginCommitsExactlyWhen(a, adminEmail, db, g, ids, orgRows, rows);
  }

  /** Two logins of the visitor that differ only in the order of rows. */
  ghost predicate DependsOnRowOrder(a: Slug.Alphabet, adminEmail: string, db: Db, g: Google, ids: Fresh) {
    exists orgRows, rows, orgRows', rows' ::
      && Listed(db, g.email, orgRows, rows) && Listed(db, g.email, orgRows', rows')
      && Login(a, adminEmail, db, g, ids, orgRows, rows).Ok?
      && Login(a, adminEmail, db, g, ids, orgRows, rows) != Login(a, adminEmail, db, g, ids, orgRows', rows')
  }

  lemma OtherOrderDiffers(a: Slug.Alphabet, adminEmail: string, db: Db, g: Google, ids: Fresh,
                          orgRows: seq<Id>, rows: seq<Id>, i: Id, j: Id)
    requires Listed(db, g.email, orgRows, rows) && orgRows != [] && Login(a, adminEmail, db, g, ids, orgRows, rows).Ok?
    requires i in OrgInvitesFor(db, g.email) && j in OrgInvitesFor(db, g.email)
    requires db.orgInvites[i].orgName != db.orgInvites[j].orgName
    ensures DependsOnRowOrder(a, adminEmail, db, g, ids)
  {
    OrgClaims.FoundingLoginIgnoresRowOrderExactlyWhen(a, adminEmail, db, g, ids, orgRows, rows);
  }

  lemma TwoNamesDependOnRowOrder(a: Slug.Alphabet, adminEmail: string, db: Db, g: Google, ids: Fresh, i: Id, j: Id)
    requires Wf(db) && Newcomer(db, g) && Unused(db, ids)
    requires i in OrgInvitesFor(db, g.email) && j in OrgInvitesFor(db, g.email)
    requires db.orgInvites[i].orgName != db.orgInvites[j].orgName
    ensures DependsOnRowOrder(a, adminEmail, db, g, ids)
  {
    var orgRows := SomeListing(OrgInvitesFor(db, g.email));
    var rows := SomeListing(InvitesFor(db, g.email));
    RowsEmpty(orgRows, OrgInvitesFor(db, g.email));
    NewcomerLogsIn(a, adminEmail, db, g, ids, orgRows, rows);
    OtherOrderDiffers(a, adminEmail, db, g, ids, orgRows, rows, i, j);
  }

  /** After two such rounds with different organization names, the newcomer's login depends on the order in
      which the database returns the two invitations. */
  lemma TwoApprovalsDependOnRowOrder(a: Slug.Alphabet, db: Db, admin: Id, r1: Round, r2: Round,
                                     adminEmail: string, g: Google, ids: Fresh)
    requires MayAsk(db, admin, g.email) && Newcomer(db, g) && Unused(db, ids) && r1.orgName != r2.orgName
    requires r1.signup !in db.signups && r2.signup !in db.signups && r1.signup != r2.signup
    requires r1.invite !in db.orgInvites && r2.invite !in db.orgInvites && r1.invite != r2.invite
    ensures DependsOnRowOrder(a, adminEmail, Exec(a, db, Rounds(admin, g.email, r1) + Rounds(admin, g.email, r2)), g, ids)
  {
    var db' := Exec(a, db, Rounds(admin, g.email, r1) + Rounds(admin, g.email, r2));
    TwoRoundsTwoInvitations(a, db, admin, g.email, r1, r2);
    assert db'.orgInvites[r1.invite].orgName == r1.orgName && db'.orgInvites[r2.invite].orgName == r2.orgName;
    TwoNamesDependOnRowOrder(a, adminEmail, db', g, ids, r1.invite, r2.invite);
  }
}
