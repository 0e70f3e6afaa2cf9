/** One organization per person: what is pending for whom, over every run. */
module OrgSingle {
  import opened Wrappers
  import opened OrgModel
  import opened OrgConstraints
  import opened OrgLogin
  import Slug

  // ----- Nothing is pending for a member -----

  predicate SomethingPending(db: Db, email: string) {
    InvitesFor(db, email) != {} || OrgInvitesFor(db, email) != {}
  }

  ghost predicate NothingPendingForMembers(db: Db) {
    forall m :: m in db.members && db.members[m].user in db.users ==> !SomethingPending(db, db.users[db.members[m].user].email)
  }

  /** Each Google subject always presents the same email. */
  ghost predicate EmailsFollow(db: Db, emailOf: string -> string) {
    forall u :: u in db.users ==> db.users[u].email == emailOf(db.users[u].sub)
  }

  ghost predicate Steady(s: Step, emailOf: string -> string) {
    s.LoginStep? ==> s.g.email == emailOf(s.g.sub)
  }

  ghost predicate AllSteady(steps: seq<Step>, emailOf: string -> string) {
    forall s :: s in steps ==> Steady(s, emailOf)
  }

  lemma PendingElsewhere(db: Db, db': Db, email: string)
    requires forall i :: i in db'.invites && db'.invites[i].email == email ==> i in InvitesFor(db, email)
    requires forall i :: i in db'.orgInvites && db'.orgInvites[i].email == email ==> i in OrgInvitesFor(db, email)
    ensures SomethingPending(db', email) ==> SomethingPending(db, email)
  {
    assert InvitesFor(db', email) <= InvitesFor(db, email);
    assert OrgInvitesFor(db', email) <= OrgInvitesFor(db, email);
  }

  /** A committed login breaks the single-organization rule exactly when a member comes back under an
      email that has a pending regular invitation. */
  lemma LoginKeepsNothingPendingExactlyWhen(a: Slug.Alphabet, adminEmail: string, db: Db, g: Google, ids: Fresh,
                                            orgRows: seq<Id>, rows: seq<Id>)
    requires Wf(db) && NothingPendingForMembers(db) && Listed(db, g.email, orgRows, rows)
    requires Login(a, adminEmail, db, g, ids, orgRows, rows).Ok?
    ensures NothingPendingForMembers(Login(a, adminEmail, db, g, ids, orgRows, rows).value.db)
      <==> !(&& UserWithSub(db, g.sub).Some? && HasMembership(db, UserWithSub(db, g.sub).value)
             && orgRows == [] && rows != [])
  {
    var r := Login(a, adminEmail, db, g, ids, orgRows, rows).value;
    LoginEffect(a, adminEmail, db, g, ids, orgRows, rows);
    RowsEmpty(orgRows, OrgInvitesFor(db, g.email));
    RowsEmpty(rows, InvitesFor(db, g.email));
    if r.membership.Some? {
      RedeemingUserIsNew(db, r.db, r.user, r.membership.value) by {
        LoginWf(a, adminEmail, db, g, ids, orgRows, rows);
      }
      RedeemKeepsNothingPending(db, r.db, g.email, r.user, r.membership.value);
    } else {
      SameSubSameUser(db, r.user, g.sub);
      assert InvitesFor(r.db, g.email) == InvitesFor(db, g.email);
      assert OrgInvitesFor(r.db, g.email) == OrgInvitesFor(db, g.email);
      ReturnKeepsNothingPendingExactlyWhen(db, r.db, g.email, r.user);
    }
  }

  lemma RedeemingUserIsNew(db: Db, db': Db, user: Id, member: Id)
    requires MembersWf(db') && member !in db.members && member in db'.members
    requires db'.members == db.members[member := db'.members[member]] && db'.members[member].user == user
    ensures !HasMembership(db, user)
  {
    forall m | m in db.members ensures db.members[m].user != user {
      assert db'.members[m] == db.members[m];
    }
  }

  lemma SameSubSameUser(db: Db, user: Id, sub: string)
    requires UsersWf(db) && user in db.users && db.users[user].sub == sub
    ensures UserWithSub(db, sub) == Some(user)
  {
  }

  /** A member whose email has an organization waiting cannot log in: the second membership is refused. */
  lemma MemberWithOrgInviteIsLockedOut(a: Slug.Alphabet, adminEmail: string, db: Db, g: Google, ids: Fresh,
                                       orgRows: seq<Id>, rows: seq<Id>)
    requires Wf(db) && Listed(db, g.email, orgRows, rows) && orgRows != []
    requires UserWithSub(db, g.sub).Some? && HasMembership(db, UserWithSub(db, g.sub).value)
    ensures Login(a, adminEmail, db, g, ids, orgRows, rows).Err?
  {
    if Login(a, adminEmail, db, g, ids, orgRows, rows).Ok? {
      var db1 := LoginUnfolds(a, adminEmail, db, g, ids, orgRows, rows);
      assert db1.members == db.members;
      RedeemRefusesMembers(a, db1, UserWithSub(db, g.sub).value, ids, orgRows, rows);
    }
  }

  lemma RedeemRefusesMembers(a: Slug.Alphabet, db: Db, user: Id, ids: Fresh, orgRows: seq<Id>, rows: seq<Id>)
    requires HasMembership(db, user)
    requires orgRows != [] && orgRows[0] in db.orgInvites && (rows != [] ==> rows[0] in db.invites)
    ensures Redeem(a, db, user, ids, orgRows, rows).Err?
  {
  }

  lemma RedeemKeepsNothingPending(db: Db, db': Db, email: string, user: Id, member: Id)
    requires MembersWf(db) && NothingPendingForMembers(db)
    requires user in db'.users && db'.users == db.users[user := db'.users[user]] && db'.users[user].email == email
    requires member in db'.members && db'.members == db.members[member := db'.members[member]]
    requires db'.members[member].user == user && !HasMembership(db, user)
    requires db'.invites == OtherInvites(db, email) && db'.orgInvites == OtherOrgInvites(db, email)
    ensures NothingPendingForMembers(db')
  {
    forall m | m in db'.members && db'.members[m].user in db'.users
      ensures !SomethingPending(db', db'.users[db'.members[m].user].email)
    {
      if m == member {
        assert InvitesFor(db', email) == {} && OrgInvitesFor(db', email) == {};
      } else {
        PendingElsewhere(db, db', db'.users[db'.members[m].user].email);
      }
    }
  }

  lemma ReturnKeepsNothingPendingExactlyWhen(db: Db, db': Db, email: string, user: Id)
    requires MembersWf(db) && NothingPendingForMembers(db)
    requires user in db.users && user in db'.users && db'.users == db.users[user := db'.users[user]]
    requires db'.users[user].email == email && db' == db.(users := db'.users)
    ensures NothingPendingForMembers(db') <==> !(HasMembership(db, user) && SomethingPending(db, email))
  {
    forall m | m in db'.members && db'.members[m].user != user
      ensures db.members[m].user in db.users && !SomethingPending(db', db'.users[db'.members[m].user].email)
    {
      PendingElsewhere(db, db', db'.users[db'.members[m].user].email);
    }
    assert InvitesFor(db', email) == InvitesFor(db, email) && OrgInvitesFor(db', email) == OrgInvitesFor(db, email);
  }

  lemma LoginSteady(a: Slug.Alphabet, adminEmail: string, db: Db, g: Google, ids: Fresh, orgRows: seq<Id>, rows: seq<Id>,
                    emailOf: string -> string)
    requires Wf(db) && NothingPendingForMembers(db) && EmailsFollow(db, emailOf) && g.email == emailOf(g.sub)
    requires Listed(db, g.email, orgRows, rows)
    ensures Login(a, adminEmail, db, g, ids, orgRows, rows).Ok? ==>
              var db' := Login(a, adminEmail, db, g, ids, orgRows, rows).value.db;
              NothingPendingForMembers(db') && EmailsFollow(db', emailOf)
  {
    if Login(a, adminEmail, db, g, ids, orgRows, rows).Ok? {
      LoginKeepsNothingPendingExactlyWhen(a, adminEmail, db, g, ids, orgRows, rows);
      LoginEffect(a, adminEmail, db, g, ids, orgRows, rows);
      MembersHaveNothingToRedeem(db, g, orgRows, rows, emailOf);
    }
  }

  /** When emails follow subjects, the login of a member finds no invitation at all. */
  lemma MembersHaveNothingToRedeem(db: Db, g: Google, orgRows: seq<Id>, rows: seq<Id>, emailOf: string -> string)
    requires MembersWf(db) && NothingPendingForMembers(db) && EmailsFollow(db, emailOf) && g.email == emailOf(g.sub)
    requires Listed(db, g.email, orgRows, rows)
    ensures UserWithSub(db, g.sub).Some? && HasMembership(db, UserWithSub(db, g.sub).value)
            ==> orgRows == [] && rows == []
  {
    RowsEmpty(orgRows, OrgInvitesFor(db, g.email));
    RowsEmpty(rows, InvitesFor(db, g.email));
  }

  /** An invitation for someone who has no membership leaves members' emails free of invitations. */
  lemma InvitingOutsiders(db: Db, db': Db, email: string)
    requires MembersWf(db) && NothingPendingForMembers(db) && !HasMembershipByEmail(db, email)
    requires db'.users == db.users && db'.members == db.members
    requires forall i :: i in db'.invites && db'.invites[i].email != email ==>
               i in db.invites && db.invites[i].email == db'.invites[i].email
    requires forall i :: i in db'.orgInvites && db'.orgInvites[i].email != email ==>
               i in db.orgInvites && db.orgInvites[i].email == db'.orgInvites[i].email
    ensures NothingPendingForMembers(db')
  {
    forall m | m in db'.members && db'.members[m].user in db'.users
      ensures !SomethingPending(db', db'.users[db'.members[m].user].email)
    {
      PendingElsewhere(db, db', db'.users[db'.members[m].user].email);
    }
  }

  lemma FewerMembers(db: Db, db': Db)
    requires NothingPendingForMembers(db)
    requires db'.users == db.users && db'.invites == db.invites && db'.orgInvites == db.orgInvites
    requires forall m :: m in db'.members ==> m in db.members && db.members[m].user == db'.members[m].user
    ensures NothingPendingForMembers(db')
  {
    forall m | m in db'.members && db'.members[m].user in db'.users
      ensures !SomethingPending(db', db'.users[db'.members[m].user].email)
    {
      PendingElsewhere(db, db', db'.users[db'.members[m].user].email);
    }
  }

  lemma NextSteady(a: Slug.Alphabet, db: Db, s: Step, emailOf: string -> string)
    requires Wf(db) && NothingPendingForMembers(db) && EmailsFollow(db, emailOf) && Steady(s, emailOf)
    ensures NothingPendingForMembers(Next(a, db, s)) && EmailsFollow(Next(a, db, s), emailOf)
  {
    if Apply(a, db, s).Ok? {
      match s
      case LoginStep(adminEmail, g, ids, orgRows, rows) =>
        LoginSteady(a, adminEmail, db, g, ids, orgRows, rows, emailOf);
      case InviteStep(actor, slug, email, role, id) => NextFrame(a, db, s); InviteSteady(a, db, s);
      case RevokeStep(_, _, id) => NextFrame(a, db, s); RevokeSteady(a, db, s);
      case ApproveStep(_, id, inviteId, _) => NextFrame(a, db, s); ApproveSteady(a, db, s);
      case BootstrapStep(_, _, _, _) => NextFrame(a, db, s); BootstrapSteady(a, db, s);
      case RemoveStep(_, _, _) => NextFrame(a, db, s); MembershipSteady(a, db, s);
      case RoleStep(_, _, _, _) => NextFrame(a, db, s); MembershipSteady(a, db, s);
      case SubmitStep(_, _, _, _, _) => NextFrame(a, db, s); FewerMembers(db, Next(a, db, s));
      case RejectStep(_, _, _) => NextFrame(a, db, s); FewerMembers(db, Next(a, db, s));
    }
  }

  lemma InviteSteady(a: Slug.Alphabet, db: Db, s: Step)
    requires Wf(db) && NothingPendingForMembers(db) && s.InviteStep? && Apply(a, db, s).Ok?
    ensures NothingPendingForMembers(Apply(a, db, s).value)
  {
    CreateInviteTouchesOneEmail(db, s.newId, RequireAdmin(db, s.actor, s.slug).value, s.email, s.role);
    InvitingOutsiders(db, Apply(a, db, s).value, s.email);
  }

  lemma RevokeSteady(a: Slug.Alphabet, db: Db, s: Step)
    requires NothingPendingForMembers(db) && s.RevokeStep? && Apply(a, db, s).Ok?
    ensures NothingPendingForMembers(Apply(a, db, s).value)
  {
    var db' := Apply(a, db, s).value;
    forall m | m in db'.members && db'.members[m].user in db'.users
      ensures !SomethingPending(db', db'.users[db'.members[m].user].email)
    {
      PendingElsewhere(db, db', db'.users[db'.members[m].user].email);
    }
  }

  lemma ApproveSteady(a: Slug.Alphabet, db: Db, s: Step)
    requires Wf(db) && NothingPendingForMembers(db) && s.ApproveStep? && Apply(a, db, s).Ok?
    ensures NothingPendingForMembers(Apply(a, db, s).value)
  {
    InvitingOutsiders(db, Apply(a, db, s).value, db.signups[s.signup].email);
  }

  lemma BootstrapSteady(a: Slug.Alphabet, db: Db, s: Step)
    requires Wf(db) && NothingPendingForMembers(db) && s.BootstrapStep? && Apply(a, db, s).Ok?
    ensures NothingPendingForMembers(Apply(a, db, s).value)
  {
    if db.orgs == map[] {
      assert forall m :: m !in db.members;
    } else {
      assert |db.orgs| > 0;
    }
  }

  lemma MembershipSteady(a: Slug.Alphabet, db: Db, s: Step)
    requires NothingPendingForMembers(db) && (s.RoleStep? || s.RemoveStep?) && Apply(a, db, s).Ok?
    ensures NothingPendingForMembers(Apply(a, db, s).value)
  {
    FewerMembers(db, Apply(a, db, s).value);
  }

  /** An invitation is sent only to an outsider with nothing pending elsewhere, and changes that one row. */
  lemma CreateInviteTouchesOneEmail(db: Db, id: Id, m: Membership, email: string, role: Role)
    requires CreateInvite(db, id, m.org, email, role, Some(m.user), Some(m.role)).Ok?
    ensures var db' := CreateInvite(db, id, m.org, email, role, Some(m.user), Some(m.role)).value;
      var row := InviteOf(db, m.org, email);
      && !HasMembershipByEmail(db, email) && Rank(role) <= Rank(m.role)
      && (forall i :: i in db.orgInvites ==> db.orgInvites[i].email != email)
      && (forall i :: i in db.invites && db.invites[i].email == email ==> db.invites[i].org == m.org)
      && (row.None? ==> id !in db.invites && forall i :: i in db.invites ==> db.invites[i].email != email)
      && db'.invites == db.invites[(if row.Some? then row.value else id) := Invite(m.org, email, role, Some(m.user))]
  {
  }

  lemma {:induction false} ExecSteady(a: Slug.Alphabet, db: Db, steps: seq<Step>, emailOf: string -> string)
    requires Wf(db) && NothingPendingForMembers(db) && EmailsFollow(db, emailOf) && AllSteady(steps, emailOf)
    ensures var db' := Exec(a, db, steps);
      Wf(db') && NothingPendingForMembers(db') && EmailsFollow(db', emailOf)
    decreases |steps|
  {
    if steps != [] {
      assert steps[0] in steps;
      NextWf(a, db, steps[0]);
      NextSteady(a, db, steps[0], emailOf);
      assert forall s :: s in steps[1..] ==> s in steps;
      ExecSteady(a, Next(a, db, steps[0]), steps[1..], emailOf);
    }
  }

  /** In every run where emails follow subjects, nothing is pending for a member; and the next login, with
      new uuids, commits unless its email belongs to another subject, the visitor is a stranger, or no slug
      is free. It never meets the one-membership-per-user constraint. */
  lemma RegistrationNeverClashes(a: Slug.Alphabet, steps: seq<Step>, emailOf: string -> string,
                                 adminEmail: string, g: Google, ids: Fresh, orgRows: seq<Id>, rows: seq<Id>)
    requires AllSteady(steps, emailOf) && g.email == emailOf(g.sub)
    requires var db := Exec(a, EMPTY, steps); Listed(db, g.email, orgRows, rows) && Unused(db, ids)
    ensures var db := Exec(a, EMPTY, steps);
      && NothingPendingForMembers(db)
      && (Login(a, adminEmail, db, g, ids, orgRows, rows).Ok?
          <==> EmailFree(db, g) && g.name != Null && (UserWithSub(db, g.sub).Some? || orgRows != [] || rows != [])
               && SlugAvailable(a, db, orgRows))
  {
    var db := Exec(a, EMPTY, steps);
    ExecSteady(a, EMPTY, steps, emailOf);
    LoginCommitsExactlyWhen(a, adminEmail, db, g, ids, orgRows, rows);
    MembersHaveNothingToRedeem(db, g, orgRows, rows, emailOf);
  }

  /** Without that assumption the rule fails in two requests from any state with an organization admin:
      invite an unused email, then log in again as that admin under it. */
  lemma DriftingEmailBreaksTheRule(a: Slug.Alphabet, adminEmail: string, db: Db, actor: Id, slug: string,
                                   email: string, newId: Id, g: Google, ids: Fresh)
    requires Wf(db) && NothingPendingForMembers(db) && RequireAdmin(db, actor, slug).Some?
    requires !SomethingPending(db, email) && newId !in db.invites
    requires forall u :: u in db.users ==> db.users[u].email != email
    requires g.email == email && g.sub == db.users[actor].sub && g.name != Null
    ensures var invite, login := InviteStep(actor, slug, email, Member, newId),
                                 LoginStep(adminEmail, g, ids, [], [newId]);
      && Apply(a, db, invite).Ok? && Apply(a, Next(a, db, invite), login).Ok?
      && !NothingPendingForMembers(Exec(a, db, [invite, login]))
  {
    var m := RequireAdmin(db, actor, slug).value;
    var invite, login := InviteStep(actor, slug, email, Member, newId), LoginStep(adminEmail, g, ids, [], [newId]);
    var db1 := FirstInvite(db, m, email, newId);
    CreateInviteWf(db, newId, m.org, email, Member, Some(m.user), Some(m.role));
    var db2 := ReturnUnder(a, adminEmail, db1, actor, g, ids, [newId]);
    ApplyInvite(a, db, m, invite, db1);
    ApplyLogin(a, db1, login, LoggedIn(db2, actor, None));
    ExecTwo(a, db, invite, login);
    var k :| k in db.members && db.members[k].user == actor;
    MemberWithPending(db2, k, newId);
  }

  lemma ApplyInvite(a: Slug.Alphabet, db: Db, m: Membership, s: Step, db': Db)
    requires s.InviteStep? && RequireAdmin(db, s.actor, s.slug) == Some(m)
    requires CreateInvite(db, s.newId, m.org, s.email, s.role, Some(m.user), Some(m.role)) == Ok(db')
    ensures Apply(a, db, s) == Ok(db')
  {
  }

  lemma ApplyLogin(a: Slug.Alphabet, db: Db, s: Step, r: LoggedIn)
    requires s.LoginStep? && Listed(db, s.g.email, s.orgRows, s.rows)
    requires Login(a, s.adminEmail, db, s.g, s.ids, s.orgRows, s.rows) == Ok(r)
    ensures Apply(a, db, s) == Ok(r.db)
  {
  }

  lemma MemberWithPending(db: Db, member: Id, invite: Id)
    requires member in db.members && db.members[member].user in db.users
    requires invite in db.invites && db.invites[invite].email == db.users[db.members[member].user].email
    ensures !NothingPendingForMembers(db)
  {
    assert invite in InvitesFor(db, db.invites[invite].email);
  }

  lemma ExecTwo(a: Slug.Alphabet, db: Db, s: Step, t: Step)
    ensures Exec(a, db, [s, t]) == Next(a, Next(a, db, s), t)
  {
    var db1 := Next(a, db, s);
    assert [s, t][1..] == [t] && [t][1..] == [];
    assert Exec(a, db1, [t]) == Exec(a, Next(a, db1, t), []);
  }

  lemma FirstInvite(db: Db, m: Membership, email: string, newId: Id) returns (db1: Db)
    requires MembersWf(db) && m.org in db.orgs && m.user in db.users && m.role != Member
    requires !SomethingPending(db, email) && newId !in db.invites
    requires forall u :: u in db.users ==> db.users[u].email != email
    ensures db1 == db.(invites := db.invites[newId := Invite(m.org, email, Member, Some(m.user))])
    ensures CreateInvite(db, newId, m.org, email, Member, Some(m.user), Some(m.role)) == Ok(db1)
    ensures Listed(db1, email, [], [newId])
  {
    NoInviteRows(db, email);
    db1 := db.(invites := db.invites[newId := Invite(m.org, email, Member, Some(m.user))]);
    assert InviteOf(db, m.org, email).None?;
    assert InvitesFor(db1, email) == {newId} && OrgInvitesFor(db1, email) == {};
  }

  lemma ReturnUnder(a: Slug.Alphabet, adminEmail: string, db: Db, user: Id, g: Google, ids: Fresh, rows: seq<Id>)
    returns (db1: Db)
    requires Wf(db) && user in db.users && g.sub == db.users[user].sub && g.name != Null
    requires forall u :: u in db.users ==> db.users[u].email != g.email
    requires Listed(db, g.email, [], rows)
    ensures Login(a, adminEmail, db, g, ids, [], rows) == Ok(LoggedIn(db1, user, None))
    ensures db1 == db.(users := db1.users) && user in db1.users && db1.users[user].email == g.email
  {
    SameSubSameUser(db, user, g.sub);
    var r := Login(a, adminEmail, db, g, ids, [], rows);
    assert r.Ok?;
    db1 := r.value.db;
    UpsertEffect(a, adminEmail, db, g, ids.user, db1);
  }

  lemma NoInviteRows(db: Db, email: string)
    requires !SomethingPending(db, email)
    ensures forall k :: k in db.invites ==> db.invites[k].email != email
    ensures forall k :: k in db.orgInvites ==> db.orgInvites[k].email != email
  {
    forall k | k in db.invites ensures db.invites[k].email != email {
      assert k !in InvitesFor(db, email);
    }
    forall k | k in db.orgInvites ensures db.orgInvites[k].email != email {
      assert k !in OrgInvitesFor(db, email);
    }
  }
}
