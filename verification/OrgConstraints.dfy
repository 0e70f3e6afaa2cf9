/** Every request keeps the declared constraints, and the slugs of organizations in normal form. */
module OrgConstraints {
  import opened Wrappers
  import opened OrgModel
  import Slug

  lemma PutUserWf(db: Db, id: Id, u: User)
    requires Wf(db) && PutUser(db, id, u).Ok?
    ensures Wf(PutUser(db, id, u).value)
  {
  }

  lemma AddOrgWf(db: Db, id: Id, o: Org)
    requires Wf(db) && AddOrg(db, id, o).Ok?
    ensures Wf(AddOrg(db, id, o).value)
  {
  }

  lemma MemberRowWf(db: Db, id: Id, m: Membership)
    requires MembersWf(db) && AddMember(db, id, m).Ok?
    ensures MembersWf(AddMember(db, id, m).value)
  {
  }

  lemma AddMemberWf(db: Db, id: Id, m: Membership)
    requires Wf(db) && AddMember(db, id, m).Ok?
    ensures Wf(AddMember(db, id, m).value)
  {
    MemberRowWf(db, id, m);
  }

  lemma AddInviteWf(db: Db, id: Id, i: Invite)
    requires Wf(db) && AddInvite(db, id, i).Ok?
    ensures Wf(AddInvite(db, id, i).value)
  {
  }

  lemma OrgInviteRowWf(db: Db, id: Id, i: OrgInvite)
    requires OrgInvitesWf(db) && AddOrgInvite(db, id, i).Ok?
    ensures OrgInvitesWf(AddOrgInvite(db, id, i).value)
  {
  }

  lemma AddOrgInviteWf(db: Db, id: Id, i: OrgInvite)
    requires Wf(db) && AddOrgInvite(db, id, i).Ok?
    ensures Wf(AddOrgInvite(db, id, i).value)
  {
    OrgInviteRowWf(db, id, i);
  }

  lemma PutSignupWf(db: Db, id: Id, s: Signup)
    requires Wf(db) && PutSignup(db, id, s).Ok?
    ensures Wf(PutSignup(db, id, s).value)
  {
  }

  lemma AcceptInviteWf(db: Db, row: Id, user: Id, memberId: Id)
    requires Wf(db) && row in db.invites && AcceptInvite(db, row, user, memberId).Ok?
    ensures Wf(AcceptInvite(db, row, user, memberId).value)
  {
    AddMemberWf(db, memberId, Membership(db.invites[row].org, user, db.invites[row].role));
  }

  lemma FoundOrgWf(db: Db, row: Id, slug: string, user: Id, ids: Fresh)
    requires Wf(db) && row in db.orgInvites && FoundOrg(db, row, slug, user, ids).Ok?
    ensures Wf(FoundOrg(db, row, slug, user, ids).value)
  {
    var o := Org(db.orgInvites[row].orgName, slug);
    AddOrgWf(db, ids.org, o);
    AddMemberWf(AddOrg(db, ids.org, o).value, ids.member, Membership(ids.org, user, Owner));
  }

  lemma DropLeftoversWf(db: Db, orgRows: seq<Id>, rows: seq<Id>)
    requires Wf(db)
    ensures Wf(DropLeftovers(db, orgRows, rows))
  {
  }

  lemma RedeemWf(a: Slug.Alphabet, db: Db, user: Id, ids: Fresh, orgRows: seq<Id>, rows: seq<Id>)
    requires Wf(db)
    requires orgRows != [] || rows != []
    requires orgRows != [] ==> orgRows[0] in db.orgInvites
    requires rows != [] ==> rows[0] in db.invites
    requires Redeem(a, db, user, ids, orgRows, rows).Ok?
    ensures Wf(Redeem(a, db, user, ids, orgRows, rows).value)
  {
    if orgRows != [] {
      var slug := Slug.UniqueSlug(a, Slugs(db), db.orgInvites[orgRows[0]].orgName, MAX_SLUG_ATTEMPTS).value;
      FoundOrgWf(db, orgRows[0], slug, user, ids);
      DropLeftoversWf(FoundOrg(db, orgRows[0], slug, user, ids).value, orgRows[1..], rows);
    } else {
      AcceptInviteWf(db, rows[0], user, ids.member);
      DropLeftoversWf(AcceptInvite(db, rows[0], user, ids.member).value, [], rows[1..]);
    }
  }

  lemma UpsertUserWf(a: Slug.Alphabet, adminEmail: string, db: Db, g: Google, existing: Option<Id>, newId: Id)
    requires Wf(db) && (existing.Some? ==> existing.value in db.users)
    requires UpsertUser(a, adminEmail, db, g, existing, newId).Ok?
    ensures Wf(UpsertUser(a, adminEmail, db, g, existing, newId).value)
  {
    var u := if existing.Some? then UpdatedProfile(db.users[existing.value], g).value else NewProfile(g).value;
    PutUserWf(db, if existing.Some? then existing.value else newId,
              u.(platformAdmin := u.platformAdmin || IsAdminEmail(a, adminEmail, g.email)));
  }

  /** The two ways a login can commit. */
  lemma LoginUnfolds(a: Slug.Alphabet, adminEmail: string, db: Db, g: Google, ids: Fresh,
                     orgRows: seq<Id>, rows: seq<Id>) returns (db1: Db)
    requires Listed(db, g.email, orgRows, rows)
    requires Login(a, adminEmail, db, g, ids, orgRows, rows).Ok?
    ensures var existing := UserWithSub(db, g.sub);
      var r := Login(a, adminEmail, db, g, ids, orgRows, rows).value;
      && UpsertUser(a, adminEmail, db, g, existing, ids.user) == Ok(db1)
      && db1 == db.(users := db1.users)
      && r.user == (if existing.Some? then existing.value else ids.user)
      && (existing.Some? && orgRows == [] ==> r.membership == None && r.db == db1)
      && (existing.None? || orgRows != [] ==>
           && r.membership == Some(ids.member)
           && (orgRows != [] || rows != [])
           && (orgRows != [] ==> orgRows[0] in db.orgInvites && db.orgInvites[orgRows[0]].email == g.email)
           && (rows != [] ==> rows[0] in db.invites && db.invites[rows[0]].email == g.email)
           && Redeem(a, db1, r.user, ids, orgRows, rows) == Ok(r.db))
  {
    db1 := UpsertUser(a, adminEmail, db, g, UserWithSub(db, g.sub), ids.user).value;
    assert orgRows != [] ==> orgRows[0] in orgRows;
    assert rows != [] ==> rows[0] in rows;
  }

  lemma LoginWf(a: Slug.Alphabet, adminEmail: string, db: Db, g: Google, ids: Fresh, orgRows: seq<Id>, rows: seq<Id>)
    requires Wf(db) && Listed(db, g.email, orgRows, rows)
    requires Login(a, adminEmail, db, g, ids, orgRows, rows).Ok?
    ensures Wf(Login(a, adminEmail, db, g, ids, orgRows, rows).value.db)
  {
    var existing := UserWithSub(db, g.sub);
    var db1 := LoginUnfolds(a, adminEmail, db, g, ids, orgRows, rows);
    UpsertUserWf(a, adminEmail, db, g, existing, ids.user);
    if existing.None? || orgRows != [] {
      var r := Login(a, adminEmail, db, g, ids, orgRows, rows).value;
      RedeemWf(a, db1, r.user, ids, orgRows, rows);
    }
  }

  lemma BootstrapWf(a: Slug.Alphabet, db: Db, adminEmail: string, orgName: string, orgId: Id, inviteId: Id)
    requires Wf(db) && Bootstrap(a, db, adminEmail, orgName, orgId, inviteId).Ok?
    ensures Wf(Bootstrap(a, db, adminEmail, orgName, orgId, inviteId).value)
  {
    if adminEmail != "" && |db.orgs| == 0 {
      var o := Org(orgName, Slug.Slugify(a, orgName));
      AddOrgWf(db, orgId, o);
      var i := Invite(orgId, adminEmail, Owner, None);
      var db1 := AddOrg(db, orgId, o).value;
      if AddInvite(db1, inviteId, i).Ok? {
        AddInviteWf(db1, inviteId, i);
      }
    }
  }

  lemma ReplacedRowWf(db: Db, id: Id, i: Invite)
    requires InvitesWf(db) && id in db.invites && db.invites[id].org == i.org && db.invites[id].email == i.email
    requires i.invitedBy.Some? ==> i.invitedBy.value in db.users
    ensures InvitesWf(db.(invites := db.invites[id := i]))
  {
  }

  lemma ReplaceInviteWf(db: Db, id: Id, i: Invite)
    requires Wf(db) && id in db.invites && db.invites[id].org == i.org && db.invites[id].email == i.email
    requires i.invitedBy.Some? ==> i.invitedBy.value in db.users
    ensures Wf(db.(invites := db.invites[id := i]))
  {
    assert InvitesWf(db.(invites := db.invites[id := i])) by {
      ReplacedRowWf(db, id, i);
    }
  }

  lemma CreateInviteWf(db: Db, id: Id, org: Id, email: string, role: Role, inviter: Option<Id>, inviterRole: Option<Role>)
    requires Wf(db) && CreateInvite(db, id, org, email, role, inviter, inviterRole).Ok?
    ensures Wf(CreateInvite(db, id, org, email, role, inviter, inviterRole).value)
  {
    match InviteOf(db, org, email)
    case Some(k) => ReplaceInviteWf(db, k, Invite(org, email, role, inviter));
    case None => AddInviteWf(db, id, Invite(org, email, role, inviter));
  }

  lemma RevokeInviteWf(db: Db, id: Id, org: Id)
    requires Wf(db) && RevokeInvite(db, id, org).Ok?
    ensures Wf(RevokeInvite(db, id, org).value)
  {
    DropLeftoversWf(db, [], [id]);
    assert Without(db.orgInvites, []) == db.orgInvites;
  }

  lemma UpdatedRoleWf(db: Db, id: Id, newRole: Role)
    requires MembersWf(db) && id in db.members
    ensures MembersWf(db.(members := db.members[id := db.members[id].(role := newRole)]))
  {
  }

  lemma UpdateRoleWf(db: Db, id: Id, org: Id, newRole: Role, actorRole: Role)
    requires Wf(db) && UpdateRole(db, id, org, newRole, actorRole).Ok?
    ensures Wf(UpdateRole(db, id, org, newRole, actorRole).value)
  {
    UpdatedRoleWf(db, id, newRole);
  }

  lemma RemoveMemberWf(db: Db, id: Id, org: Id, actorRole: Role)
    requires Wf(db) && RemoveMember(db, id, org, actorRole).Ok?
    ensures Wf(RemoveMember(db, id, org, actorRole).value)
  {
  }

  lemma SubmitWf(db: Db, id: Id, name: string, email: string, orgName: string, reason: string)
    requires Wf(db) && SubmitSignup(db, id, name, email, orgName, reason).Ok?
    ensures Wf(SubmitSignup(db, id, name, email, orgName, reason).value)
  {
    PutSignupWf(db, id, Signup(name, email, orgName, reason, Pending, None, None));
  }

  lemma ApproveWf(db: Db, id: Id, reviewer: Id, inviteId: Id, now: Time)
    requires Wf(db) && ApproveSignup(db, id, reviewer, inviteId, now).Ok?
    ensures Wf(ApproveSignup(db, id, reviewer, inviteId, now).value)
  {
    var s := db.signups[id];
    var s' := s.(status := Approved, reviewer := Some(reviewer), reviewedAt := Some(now));
    PutSignupWf(db, id, s');
    AddOrgInviteWf(PutSignup(db, id, s').value, inviteId, OrgInvite(s.email, s.orgName, id, reviewer));
  }

  lemma RejectWf(db: Db, id: Id, reviewer: Id, now: Time)
    requires Wf(db) && RejectSignup(db, id, reviewer, now).Ok?
    ensures Wf(RejectSignup(db, id, reviewer, now).value)
  {
    PutSignupWf(db, id, db.signups[id].(status := Rejected, reviewer := Some(reviewer), reviewedAt := Some(now)));
  }

  lemma NextWf(a: Slug.Alphabet, db: Db, s: Step)
    requires Wf(db)
    ensures Wf(Next(a, db, s))
  {
    if Apply(a, db, s).Ok? {
      match s
      case BootstrapStep(adminEmail, orgName, orgId, inviteId) =>
        BootstrapWf(a, db, adminEmail, orgName, orgId, inviteId);
      case LoginStep(adminEmail, g, ids, orgRows, rows) => LoginWf(a, adminEmail, db, g, ids, orgRows, rows);
      case SubmitStep(id, name, email, orgName, reason) => SubmitWf(db, id, name, email, orgName, reason);
      case ApproveStep(actor, id, inviteId, now) => ApproveWf(db, id, actor, inviteId, now);
      case RejectStep(actor, id, now) => RejectWf(db, id, actor, now);
      case _ => MemberStepWf(a, db, s, RequireAdmin(db, s.actor, s.slug).value);
    }
  }

  lemma MemberStepWf(a: Slug.Alphabet, db: Db, s: Step, m: Membership)
    requires Wf(db)
    requires s.InviteStep? || s.RevokeStep? || s.RoleStep? || s.RemoveStep?
    requires RequireAdmin(db, s.actor, s.slug) == Some(m) && Apply(a, db, s).Ok?
    ensures Wf(Apply(a, db, s).value)
  {
    match s
    case InviteStep(_, _, email, role, id) => CreateInviteWf(db, id, m.org, email, role, Some(m.user), Some(m.role));
    case RevokeStep(_, _, id) => RevokeInviteWf(db, id, m.org);
    case RoleStep(_, _, id, newRole) => UpdateRoleWf(db, id, m.org, newRole, m.role);
    case RemoveStep(_, _, id) => RemoveMemberWf(db, id, m.org, m.role);
  }

  lemma {:induction false} ExecWf(a: Slug.Alphabet, db: Db, steps: seq<Step>)
    requires Wf(db)
    ensures Wf(Exec(a, db, steps))
    decreases |steps|
  {
    if steps != [] {
      NextWf(a, db, steps[0]);
      ExecWf(a, Next(a, db, steps[0]), steps[1..]);
    }
  }

  /** Which tables a request other than a login may change. */
  lemma NextFrame(a: Slug.Alphabet, db: Db, s: Step)
    requires !s.LoginStep?
    ensures var db' := Next(a, db, s);
      && db'.users == db.users
      && (!s.BootstrapStep? ==> db'.orgs == db.orgs)
      && (!s.RoleStep? && !s.RemoveStep? ==> db'.members == db.members)
      && (!s.BootstrapStep? && !s.InviteStep? && !s.RevokeStep? ==> db'.invites == db.invites)
      && (!s.ApproveStep? ==> db'.orgInvites == db.orgInvites)
      && (!s.SubmitStep? && !s.ApproveStep? && !s.RejectStep? ==> db'.signups == db.signups)
  {
    if Apply(a, db, s).Ok? {
      match s
      case BootstrapStep(_, _, _, _) =>
      case SubmitStep(_, _, _, _, _) =>
      case ApproveStep(_, _, _, _) =>
      case RejectStep(_, _, _) =>
      case LoginStep(_, _, _, _, _) =>
      case _ => MemberStepFrame(a, db, s, RequireAdmin(db, s.actor, s.slug).value);
    }
  }

  lemma MemberStepFrame(a: Slug.Alphabet, db: Db, s: Step, m: Membership)
    requires s.InviteStep? || s.RevokeStep? || s.RoleStep? || s.RemoveStep?
    requires RequireAdmin(db, s.actor, s.slug) == Some(m) && Apply(a, db, s).Ok?
    ensures var db' := Apply(a, db, s).value;
      if s.InviteStep? || s.RevokeStep? then db' == db.(invites := db'.invites) else db' == db.(members := db'.members)
  {
  }
}
