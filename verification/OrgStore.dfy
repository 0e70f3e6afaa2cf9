/**
 * The services and request handlers as they run: statement by statement on the tables of an open
 * transaction, committed when they return and rolled back when they fail. Each is proved to do what
 * `OrgModel` says.
 */
module OrgStore {
  import opened Wrappers
  import opened OrgModel
  import OrgConstraints
  import Slug

  /** A service that returned None succeeded; after a failure the transaction is only fit to be rolled back. */
  ghost predicate Does(outcome: Option<Failure>, now: Db, spec: Result<Db, Failure>) {
    match spec
    case Ok(db) => outcome == None && now == db
    case Err(e) => outcome == Some(e)
  }

  class Store {
    var users: map<Id, User>
    var orgs: map<Id, Org>
    var members: map<Id, Membership>
    var invites: map<Id, Invite>
    var orgInvites: map<Id, OrgInvite>
    var signups: map<Id, Signup>

    function Tables(): Db
      reads this
    {
      Db(users, orgs, members, invites, orgInvites, signups)
    }

    constructor ()
      ensures Tables() == EMPTY
    {
      users, orgs, members, invites, orgInvites, signups := map[], map[], map[], map[], map[], map[];
    }

    /** `session.rollback()`. */
    method Rollback(saved: Db)
      modifies this
      ensures Tables() == saved
    {
      users, orgs, members := saved.users, saved.orgs, saved.members;
      invites, orgInvites, signups := saved.invites, saved.orgInvites, saved.signups;
    }

    // ----- Rows -----

    method InsertOrg(id: Id, o: Org) returns (r: Option<Failure>)
      modifies this`orgs
      ensures Does(r, Tables(), AddOrg(old(Tables()), id, o))
    {
      if id in orgs || exists k :: k in orgs && orgs[k].slug == o.slug {
        return Some(Constraint);
      }
      orgs := orgs[id := o];
      return None;
    }

    method InsertMember(id: Id, m: Membership) returns (r: Option<Failure>)
      modifies this`members
      ensures Does(r, Tables(), AddMember(old(Tables()), id, m))
    {
      if id in members || m.org !in orgs || m.user !in users
         || exists k :: k in members && members[k].user == m.user {
        return Some(Constraint);
      }
      members := members[id := m];
      return None;
    }

    method InsertInvite(id: Id, i: Invite) returns (r: Option<Failure>)
      modifies this`invites
      ensures Does(r, Tables(), AddInvite(old(Tables()), id, i))
    {
      if id in invites || i.org !in orgs || (i.invitedBy.Some? && i.invitedBy.value !in users)
         || exists k :: k in invites && invites[k].org == i.org && invites[k].email == i.email {
        return Some(Constraint);
      }
      invites := invites[id := i];
      return None;
    }

    // ----- oopsie/auth.py -----

    method FindUser(sub: string) returns (r: Option<Id>)
      requires UsersWf(Tables())
      ensures r == UserWithSub(Tables(), sub)
    {
      if exists k :: k in users && users[k].sub == sub {
        var k :| k in users && users[k].sub == sub;
        r := Some(k);
      } else {
        r := None;
      }
    }

    method UpsertUser(a: Slug.Alphabet, adminEmail: string, g: Google, existing: Option<Id>, newId: Id)
      returns (r: Option<Failure>)
      requires existing.Some? ==> existing.value in users
      modifies this`users
      ensures Does(r, Tables(), OrgModel.UpsertUser(a, adminEmail, old(Tables()), g, existing, newId))
    {
      var user := newId;
      var profile := NewProfile(g);
      if existing.Some? {
        user := existing.value;
        profile := UpdatedProfile(users[user], g);
      } else if newId in users {
        return Some(Constraint);
      }
      if profile.None? || UserClash(Tables(), user, profile.value) {
        return Some(Constraint);
      }
      users := users[user := profile.value];
      if IsAdminEmail(a, adminEmail, g.email) {
        users := users[user := users[user].(platformAdmin := true)];
      }
      return None;
    }

    method AcceptInvite(row: Id, user: Id, memberId: Id) returns (r: Option<Failure>)
      requires row in invites
      modifies this`members, this`invites
      ensures Does(r, Tables(), OrgModel.AcceptInvite(old(Tables()), row, user, memberId))
    {
      r := InsertMember(memberId, Membership(invites[row].org, user, invites[row].role));
      if r == None {
        invites := Without(invites, [row]);
      }
    }

    method AcceptOrgInvite(a: Slug.Alphabet, row: Id, user: Id, ids: Fresh) returns (r: Option<Failure>)
      requires row in orgInvites
      modifies this`orgs, this`members, this`orgInvites
      ensures Does(r, Tables(), OrgModel.AcceptOrgInvite(a, old(Tables()), row, user, ids))
    {
      var slug := Slug.GenerateUniqueSlug(a, Slugs(Tables()), orgInvites[row].orgName, MAX_SLUG_ATTEMPTS);
      if slug.None? {
        return Some(SlugExhausted);
      }
      r := InsertOrg(ids.org, Org(orgInvites[row].orgName, slug.value));
      if r.Some? {
        return;
      }
      r := InsertMember(ids.member, Membership(ids.org, user, Owner));
      if r.Some? {
        return;
      }
      orgInvites := Without(orgInvites, [row]);
    }

    method DeleteOrgInvites(rows: seq<Id>)
      modifies this`orgInvites
      ensures orgInvites == Without(old(orgInvites), rows)
    {
      for n := 0 to |rows|
        invariant orgInvites == Without(old(orgInvites), rows[..n])
      {
        assert rows[..n + 1] == rows[..n] + [rows[n]];
        orgInvites := orgInvites - {rows[n]};
      }
      assert rows[..|rows|] == rows;
    }

    method DeleteInvites(rows: seq<Id>)
      modifies this`invites
      ensures invites == Without(old(invites), rows)
    {
      for n := 0 to |rows|
        invariant invites == Without(old(invites), rows[..n])
      {
        assert rows[..n + 1] == rows[..n] + [rows[n]];
        invites := invites - {rows[n]};
      }
      assert rows[..|rows|] == rows;
    }

    method Redeem(a: Slug.Alphabet, user: Id, ids: Fresh, orgRows: seq<Id>, rows: seq<Id>)
      returns (r: Option<Failure>)
      requires orgRows != [] || rows != []
      requires orgRows != [] ==> orgRows[0] in orgInvites
      requires rows != [] ==> rows[0] in invites
      modifies this`orgs, this`members, this`orgInvites, this`invites
      ensures Does(r, Tables(), OrgModel.Redeem(a, old(Tables()), user, ids, orgRows, rows))
    {
      if orgRows != [] {
        r := AcceptOrgInvite(a, orgRows[0], user, ids);
        if r.Some? {
          return;
        }
        DeleteOrgInvites(orgRows[1..]);
      } else {
        r := AcceptInvite(rows[0], user, ids.member);
        if r.Some? {
          return;
        }
        assert Without(orgInvites, []) == orgInvites;
      }
      DeleteInvites(if orgRows != [] then rows else rows[1..]);
    }

    /** `resolve_or_register_user`, given what its two invitation queries return. */
    method ResolveOrRegister(a: Slug.Alphabet, adminEmail: string, g: Google, ids: Fresh,
                             orgRows: seq<Id>, rows: seq<Id>)
      returns (r: Option<Failure>, user: Id, membership: Option<Id>)
      requires Wf(Tables()) && Listed(Tables(), g.email, orgRows, rows)
      modifies this
      ensures match Login(a, adminEmail, old(Tables()), g, ids, orgRows, rows)
        case Ok(done) => r == None && Tables() == done.db && user == done.user && membership == done.membership
        case Err(e) => r == Some(e)
    {
      membership := None;
      var existing := FindUser(g.sub);
      user := if existing.Some? then existing.value else ids.user;
      if existing.None? && rows == [] && orgRows == [] {
        return Some(NoInvitation), user, None;
      }
      assert orgRows != [] ==> orgRows[0] in orgRows;
      assert rows != [] ==> rows[0] in rows;
      r := UpsertUser(a, adminEmail, g, existing, ids.user);
      if r.Some? || (existing.Some? && orgRows == []) {
        return;
      }
      r := Redeem(a, user, ids, orgRows, rows);
      membership := Some(ids.member);
    }

    // ----- oopsie/services -----

    method Bootstrap(a: Slug.Alphabet, adminEmail: string, orgName: string, orgId: Id, inviteId: Id)
      returns (r: Option<Failure>)
      modifies this`orgs, this`invites
      ensures Does(r, Tables(), OrgModel.Bootstrap(a, old(Tables()), adminEmail, orgName, orgId, inviteId))
    {
      if adminEmail == "" || |orgs| > 0 {
        return None;
      }
      r := InsertOrg(orgId, Org(orgName, Slug.Slugify(a, orgName)));
      if r.Some? || exists k :: k in invites && invites[k].org == orgId && invites[k].email == adminEmail {
        return;
      }
      r := InsertInvite(inviteId, Invite(orgId, adminEmail, Owner, None));
    }

    method FindInvite(org: Id, email: string) returns (r: Option<Id>)
      requires InvitesWf(Tables())
      ensures r == InviteOf(Tables(), org, email)
    {
      if exists k :: k in invites && invites[k].org == org && invites[k].email == email {
        var k :| k in invites && invites[k].org == org && invites[k].email == email;
        r := Some(k);
      } else {
        r := None;
      }
    }

    method CreateInvite(id: Id, org: Id, email: string, role: Role, invitedBy: Option<Id>, inviterRole: Option<Role>)
      returns (r: Option<Failure>)
      requires InvitesWf(Tables())
      modifies this`invites
      ensures Does(r, Tables(), OrgModel.CreateInvite(old(Tables()), id, org, email, role, invitedBy, inviterRole))
    {
      if inviterRole.Some? && Rank(role) > Rank(inviterRole.value) {
        return Some(Forbidden);
      }
      if HasMembershipByEmail(Tables(), email) {
        return Some(HasOrganization);
      }
      if exists k :: k in invites && invites[k].email == email && invites[k].org != org {
        return Some(DuplicateInvitation);
      }
      if exists k :: k in orgInvites && orgInvites[k].email == email {
        return Some(DuplicateInvitation);
      }
      var existing := FindInvite(org, email);
      if existing.None? {
        r := InsertInvite(id, Invite(org, email, role, invitedBy));
        return;
      }
      if invitedBy.Some? && invitedBy.value !in users {
        return Some(Constraint);
      }
      var row := invites[existing.value];
      invites := invites[existing.value := row.(role := role, invitedBy := invitedBy)];
      return None;
    }

    method RevokeInvite(id: Id, org: Id) returns (r: Option<Failure>)
      modifies this`invites
      ensures Does(r, Tables(), OrgModel.RevokeInvite(old(Tables()), id, org))
    {
      if id !in invites || invites[id].org != org {
        return Some(NotFound);
      }
      invites := Without(invites, [id]);
      return None;
    }

    method UpdateMemberRole(id: Id, org: Id, newRole: Role, actorRole: Role) returns (r: Option<Failure>)
      modifies this`members
      ensures Does(r, Tables(), UpdateRole(old(Tables()), id, org, newRole, actorRole))
    {
      if id !in members || members[id].org != org {
        return Some(NotFound);
      }
      if actorRole != Owner {
        if Rank(actorRole) <= Rank(members[id].role) {
          return Some(Forbidden);
        }
        if Rank(actorRole) <= Rank(newRole) {
          return Some(Forbidden);
        }
      }
      if members[id].role == Owner && newRole != Owner {
        var ownerCount := |Owners(Tables(), org)|;
        if ownerCount <= 1 {
          return Some(LastOwner);
        }
      }
      members := members[id := members[id].(role := newRole)];
      return None;
    }

    method RemoveMember(id: Id, org: Id, actorRole: Role) returns (r: Option<Failure>)
      modifies this`members
      ensures Does(r, Tables(), OrgModel.RemoveMember(old(Tables()), id, org, actorRole))
    {
      if id !in members || members[id].org != org {
        return Some(NotFound);
      }
      if actorRole != Owner && Rank(actorRole) <= Rank(members[id].role) {
        return Some(Forbidden);
      }
      if members[id].role == Owner {
        var ownerCount := |Owners(Tables(), org)|;
        if ownerCount <= 1 {
          return Some(LastOwner);
        }
      }
      members := Without(members, [id]);
      return None;
    }

    method SubmitSignup(id: Id, name: string, email: string, orgName: string, reason: string)
      returns (r: Option<Failure>)
      modifies this`signups
      ensures Does(r, Tables(), OrgModel.SubmitSignup(old(Tables()), id, name, email, orgName, reason))
    {
      if HasMembershipByEmail(Tables(), email) {
        return Some(HasOrganization);
      }
      if exists k :: k in signups && signups[k].email == email && signups[k].status == Pending {
        return Some(AlreadyPending);
      }
      if id in signups {
        return Some(Constraint);
      }
      signups := signups[id := Signup(name, email, orgName, reason, Pending, None, None)];
      return None;
    }

    method ApproveSignup(id: Id, reviewer: Id, inviteId: Id, now: Time) returns (r: Option<Failure>)
      modifies this`signups, this`orgInvites
      ensures Does(r, Tables(), OrgModel.ApproveSignup(old(Tables()), id, reviewer, inviteId, now))
    {
      if id !in signups {
        return Some(NotFound);
      }
      var s := signups[id];
      if s.status != Pending {
        return Some(AlreadyReviewed);
      }
      if HasMembershipByEmail(Tables(), s.email) {
        return Some(HasOrganization);
      }
      if reviewer !in users || inviteId in orgInvites || exists k :: k in orgInvites && orgInvites[k].signup == id {
        return Some(Constraint);
      }
      signups := signups[id := s.(status := Approved, reviewer := Some(reviewer), reviewedAt := Some(now))];
      orgInvites := orgInvites[inviteId := OrgInvite(s.email, s.orgName, id, reviewer)];
      return None;
    }

    method RejectSignup(id: Id, reviewer: Id, now: Time) returns (r: Option<Failure>)
      modifies this`signups
      ensures Does(r, Tables(), OrgModel.RejectSignup(old(Tables()), id, reviewer, now))
    {
      if id !in signups {
        return Some(NotFound);
      }
      if signups[id].status != Pending {
        return Some(AlreadyReviewed);
      }
      if reviewer !in users {
        return Some(Constraint);
      }
      signups := signups[id := signups[id].(status := Rejected, reviewer := Some(reviewer), reviewedAt := Some(now))];
      return None;
    }

    // ----- Requests -----

    /** `RequireRole(admin)`. */
    method AuthenticatedAdmin(actor: Id, slug: string) returns (r: Option<Membership>)
      requires MembersWf(Tables())
      ensures r == RequireAdmin(Tables(), actor, slug)
    {
      if exists m :: m in members && members[m].user == actor && members[m].org in orgs
                     && orgs[members[m].org].slug == slug {
        var m :| m in members && members[m].user == actor && members[m].org in orgs
                 && orgs[members[m].org].slug == slug;
        r := if Rank(members[m].role) < Rank(Admin) then None else Some(members[m]);
      } else {
        r := None;
      }
    }

    method MemberRequest(a: Slug.Alphabet, s: Step) returns (r: Option<Failure>)
      requires Wf(Tables()) && (s.InviteStep? || s.RevokeStep? || s.RoleStep? || s.RemoveStep?)
      modifies this
      ensures Does(r, Tables(), Apply(a, old(Tables()), s))
    {
      var m := AuthenticatedAdmin(s.actor, s.slug);
      if m.None? {
        return Some(Forbidden);
      }
      match s
      case InviteStep(_, _, email, role, id) =>
        r := CreateInvite(id, m.value.org, email, role, Some(m.value.user), Some(m.value.role));
      case RevokeStep(_, _, id) => r := RevokeInvite(id, m.value.org);
      case RoleStep(_, _, id, newRole) => r := UpdateMemberRole(id, m.value.org, newRole, m.value.role);
      case RemoveStep(_, _, id) => r := RemoveMember(id, m.value.org, m.value.role);
    }

    method Dispatch(a: Slug.Alphabet, s: Step) returns (r: Option<Failure>)
      requires Wf(Tables())
      requires s.LoginStep? ==> Listed(Tables(), s.g.email, s.orgRows, s.rows)
      modifies this
      ensures Does(r, Tables(), Apply(a, old(Tables()), s))
    {
      match s
      case BootstrapStep(adminEmail, orgName, orgId, inviteId) =>
        r := Bootstrap(a, adminEmail, orgName, orgId, inviteId);
      case LoginStep(adminEmail, g, ids, orgRows, rows) =>
        var user, membership;
        r, user, membership := ResolveOrRegister(a, adminEmail, g, ids, orgRows, rows);
      case SubmitStep(id, name, email, orgName, reason) => r := SubmitSignup(id, name, email, orgName, reason);
      case ApproveStep(actor, id, inviteId, now) =>
        if !IsPlatformAdmin(Tables(), actor) {
          return Some(Forbidden);
        }
        r := ApproveSignup(id, actor, inviteId, now);
      case RejectStep(actor, id, now) =>
        if !IsPlatformAdmin(Tables(), actor) {
          return Some(Forbidden);
        }
        r := RejectSignup(id, actor, now);
      case _ => r := MemberRequest(a, s);
    }

    /** One request in its own session: commit on success, roll back on failure. */
    method Request(a: Slug.Alphabet, s: Step) returns (r: Option<Failure>)
      requires Wf(Tables())
      requires s.LoginStep? ==> Listed(Tables(), s.g.email, s.orgRows, s.rows)
      modifies this
      ensures Tables() == Next(a, old(Tables()), s) && Wf(Tables())
      ensures r == match Apply(a, old(Tables()), s) case Ok(_) => None case Err(e) => Some(e)
      ensures r.Some? ==> Tables() == old(Tables())
    {
      var saved := Tables();
      r := Dispatch(a, s);
      if r.Some? {
        Rollback(saved);
      }
      OrgConstraints.NextWf(a, old(Tables()), s);
    }
  }
}
