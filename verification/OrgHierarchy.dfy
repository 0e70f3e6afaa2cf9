/** Who may act on whom: memberships change only from above, over every run; and when each request goes through. */
module OrgHierarchy {
  import opened Wrappers
  import opened OrgModel
  import opened OrgConstraints
  import opened OrgLogin
  import OrgClaims
  import OrgPhases
  import OrgSignups
  import Slug

  /** An owner may act on anyone and make anyone anything, an admin only where plain members are concerned. */
  predicate Above(actor: Role, target: Role) {
    match actor
    case Owner => true
    case Admin => target == Member
    case Member => false
  }

  /** Who may invite whom: an owner anyone, an admin everyone but owners. */
  predicate MayGrant(inviter: Role, role: Role) {
    match inviter
    case Owner => true
    case Admin => role != Owner
    case Member => role == Member
  }

  /** The actor's membership in the organization with this slug. */
  ghost predicate MemberOf(db: Db, actor: Id, slug: string, m: Id) {
    && m in db.members && db.members[m].user == actor
    && db.members[m].org in db.orgs && db.orgs[db.members[m].org].slug == slug
  }

  /** The guard of the member routes lets in exactly the admins and owners of the organization in the path. */
  lemma GuardExactlyWhen(db: Db, actor: Id, slug: string)
    requires MembersWf(db)
    ensures RequireAdmin(db, actor, slug).Some? <==>
              exists m :: MemberOf(db, actor, slug, m) && (db.members[m].role == Admin || db.members[m].role == Owner)
    ensures forall m :: MemberOf(db, actor, slug, m) && RequireAdmin(db, actor, slug).Some? ==>
              RequireAdmin(db, actor, slug).value == db.members[m]
  {
    var found := ActorMembership(db, actor, slug);
    if found.Some? {
      assert MemberOf(db, actor, slug, found.value);
      forall m | MemberOf(db, actor, slug, m) ensures m == found.value {
      }
    }
  }

  /** Plain members and outsiders are refused, whatever they ask of the organization. */
  lemma OthersAreForbidden(a: Slug.Alphabet, db: Db, s: Step)
    requires MembersWf(db) && (s.InviteStep? || s.RevokeStep? || s.RoleStep? || s.RemoveStep?)
    requires forall m :: MemberOf(db, s.actor, s.slug, m) ==> db.members[m].role == Member
    ensures Apply(a, db, s) == Err(Forbidden) && Next(a, db, s) == db
  {
    GuardExactlyWhen(db, s.actor, s.slug);
  }

  /** The request is by somebody of the member's organization who stands above the member. */
  ghost predicate FromAbove(db: Db, s: Step, k: Id)
    requires k in db.members
  {
    && (s.RoleStep? || s.RemoveStep?) && s.member == k
    && RequireAdmin(db, s.actor, s.slug).Some?
    && RequireAdmin(db, s.actor, s.slug).value.org == db.members[k].org
    && Above(RequireAdmin(db, s.actor, s.slug).value.role, db.members[k].role)
  }

  lemma LoginKeepsMember(a: Slug.Alphabet, db: Db, s: Step, k: Id)
    requires Wf(db) && s.LoginStep? && k in db.members
    ensures k in Next(a, db, s).members && Next(a, db, s).members[k] == db.members[k]
  {
    var user, member := LoginNext(a, db, s);
  }

  lemma MemberStepKeepsMember(a: Slug.Alphabet, db: Db, s: Step, k: Id)
    requires (s.RoleStep? || s.RemoveStep?) && k in db.members && !FromAbove(db, s, k)
    ensures k in Next(a, db, s).members && Next(a, db, s).members[k] == db.members[k]
  {
  }

  /** A membership is changed or removed only from above, never by its bearer's login or anything else. */
  lemma NextKeepsMember(a: Slug.Alphabet, db: Db, s: Step, k: Id)
    requires Wf(db) && k in db.members && !FromAbove(db, s, k)
    ensures k in Next(a, db, s).members && Next(a, db, s).members[k] == db.members[k]
  {
    if s.LoginStep? {
      LoginKeepsMember(a, db, s, k);
    } else if s.RoleStep? || s.RemoveStep? {
      MemberStepKeepsMember(a, db, s, k);
    } else {
      NextFrame(a, db, s);
    }
  }

  /** Nobody above the member acts on the membership in the whole run. */
  ghost predicate LeftAlone(a: Slug.Alphabet, db: Db, steps: seq<Step>, k: Id)
    decreases |steps|
  {
    steps != [] ==>
      && (k in db.members ==> !FromAbove(db, steps[0], k))
      && LeftAlone(a, Next(a, db, steps[0]), steps[1..], k)
  }

  lemma {:induction false} MembersChangeOnlyFromAbove(a: Slug.Alphabet, db: Db, steps: seq<Step>, k: Id)
    requires Wf(db) && k in db.members && LeftAlone(a, db, steps, k)
    ensures k in Exec(a, db, steps).members && Exec(a, db, steps).members[k] == db.members[k]
    decreases |steps|
  {
    if steps != [] {
      NextWf(a, db, steps[0]);
      NextKeepsMember(a, db, steps[0], k);
      MembersChangeOnlyFromAbove(a, Next(a, db, steps[0]), steps[1..], k);
    }
  }

  /** A role change or removal in one's own organization goes through exactly when the actor stands above the
      member and above the new role, and the organization keeps another owner or this one. */
  lemma RoleChangesExactlyWhen(a: Slug.Alphabet, db: Db, actor: Id, slug: string, m: Membership, k: Id, newRole: Role)
    requires RequireAdmin(db, actor, slug) == Some(m)
    ensures Apply(a, db, RoleStep(actor, slug, k, newRole)).Ok? <==>
              && k in db.members && db.members[k].org == m.org
              && Above(m.role, db.members[k].role) && Above(m.role, newRole)
              && (newRole != Owner ==> !OrgPhases.OnlyOwner(db, m.org, k))
    ensures Apply(a, db, RoleStep(actor, slug, k, newRole)).Ok? ==>
              Next(a, db, RoleStep(actor, slug, k, newRole))
              == db.(members := db.members[k := Membership(m.org, db.members[k].user, newRole)])
    ensures Apply(a, db, RemoveStep(actor, slug, k)).Ok? <==>
              && k in db.members && db.members[k].org == m.org
              && Above(m.role, db.members[k].role) && !OrgPhases.OnlyOwner(db, m.org, k)
    ensures Apply(a, db, RemoveStep(actor, slug, k)).Ok? ==>
              Next(a, db, RemoveStep(actor, slug, k)) == db.(members := db.members - {k})
  {
    OrgPhases.SoleOwner(db, m.org, k);
    if k in db.members {
      assert Without(db.members, [k]) == db.members - {k};
    }
  }

  lemma CreateInviteCommits(db: Db, id: Id, m: Membership, email: string, role: Role)
    requires InvitesWf(db) && m.org in db.orgs && m.user in db.users && id !in db.invites
    ensures CreateInvite(db, id, m.org, email, role, Some(m.user), Some(m.role)).Ok? <==>
              && MayGrant(m.role, role) && !HasMembershipByEmail(db, email)
              && OrgInvitesFor(db, email) == {}
              && (forall i :: i in InvitesFor(db, email) ==> db.invites[i].org == m.org)
  {
    NothingElsewhere(db, m.org, email);
  }

  lemma CreateInviteEffect(db: Db, id: Id, m: Membership, email: string, role: Role) returns (i: Id)
    requires InvitesWf(db) && CreateInvite(db, id, m.org, email, role, Some(m.user), Some(m.role)).Ok?
    ensures var db' := CreateInvite(db, id, m.org, email, role, Some(m.user), Some(m.role)).value;
      && InvitesFor(db', email) == {i}
      && (i == id || InvitesFor(db, email) == {i})
      && db' == db.(invites := db.invites[i := Invite(m.org, email, role, Some(m.user))])
  {
    var row := InviteOf(db, m.org, email);
    var db' := CreateInvite(db, id, m.org, email, role, Some(m.user), Some(m.role)).value;
    i := if row.Some? then row.value else id;
    assert db' == db.(invites := db.invites[i := Invite(m.org, email, role, Some(m.user))]);
    NothingElsewhere(db, m.org, email);
    OnlyInvite(db, db', m.org, email, i, row);
  }

  lemma InviteStepIs(a: Slug.Alphabet, db: Db, m: Membership, s: Step)
    requires s.InviteStep? && RequireAdmin(db, s.actor, s.slug) == Some(m)
    ensures Apply(a, db, s) == CreateInvite(db, s.newId, m.org, s.email, s.role, Some(m.user), Some(m.role))
    ensures MembersWf(db) ==> m.org in db.orgs && m.user in db.users
  {
  }

  /** An invitation goes through exactly when it does not outrank its sender, the invited person is in no
      organization, and nothing is pending for them elsewhere. Then it is the only one they have. */
  lemma InvitesExactlyWhen(a: Slug.Alphabet, db: Db, s: Step, m: Membership)
    requires Wf(db) && s.InviteStep? && RequireAdmin(db, s.actor, s.slug) == Some(m) && s.newId !in db.invites
    ensures Apply(a, db, s).Ok? <==>
              && MayGrant(m.role, s.role) && !HasMembershipByEmail(db, s.email)
              && OrgInvitesFor(db, s.email) == {}
              && (forall i :: i in InvitesFor(db, s.email) ==> db.invites[i].org == m.org)
    ensures Apply(a, db, s).Ok? ==>
              exists i :: && InvitesFor(Next(a, db, s), s.email) == {i}
                          && (i == s.newId || InvitesFor(db, s.email) == {i})
                          && Next(a, db, s) == db.(invites := db.invites[i := Invite(m.org, s.email, s.role, Some(m.user))])
  {
    InviteStepIs(a, db, m, s);
    CreateInviteCommits(db, s.newId, m, s.email, s.role);
    if Apply(a, db, s).Ok? {
      var i := CreateInviteEffect(db, s.newId, m, s.email, s.role);
    }
  }

  lemma NothingElsewhere(db: Db, org: Id, email: string)
    ensures (exists k :: k in db.orgInvites && db.orgInvites[k].email == email) <==> OrgInvitesFor(db, email) != {}
    ensures (exists k :: k in db.invites && db.invites[k].email == email && db.invites[k].org != org) <==>
            !(forall i :: i in InvitesFor(db, email) ==> db.invites[i].org == org)
  {
    if k :| k in db.orgInvites && db.orgInvites[k].email == email {
      assert k in OrgInvitesFor(db, email);
    }
    if k :| k in db.invites && db.invites[k].email == email && db.invites[k].org != org {
      assert k in InvitesFor(db, email);
    }
  }

  lemma OnlyInvite(db: Db, db': Db, org: Id, email: string, i: Id, row: Option<Id>)
    requires InvitesWf(db) && row == InviteOf(db, org, email) && (row.Some? ==> i == row.value)
    requires forall k :: k in InvitesFor(db, email) ==> db.invites[k].org == org
    requires i in db'.invites && db'.invites == db.invites[i := db'.invites[i]] && db'.invites[i].email == email
    ensures InvitesFor(db', email) == {i} && (row.Some? ==> InvitesFor(db, email) == {i})
  {
    forall k | k in db.invites && db.invites[k].email == email ensures k == i {
      assert k in InvitesFor(db, email);
      assert row.Some? && db.invites[row.value].org == db.invites[k].org;
    }
  }

  lemma ApproveCommits(db: Db, id: Id, reviewer: Id, newId: Id, now: Time)
    requires reviewer in db.users && newId !in db.orgInvites && id in db.signups && db.signups[id].status == Pending
    requires forall i :: i in db.orgInvites ==> db.orgInvites[i].signup != id
    ensures var r := ApproveSignup(db, id, reviewer, newId, now);
      if HasMembershipByEmail(db, db.signups[id].email) then r.Err?
      else r == Ok(db.(signups := db.signups[id := Reviewed(db.signups[id], Approved, reviewer, now)],
                       orgInvites := db.orgInvites[newId := OrgInvite(db.signups[id].email, db.signups[id].orgName, id, reviewer)]))
  {
    var s := Reviewed(db.signups[id], Approved, reviewer, now);
    assert PutSignup(db, id, s) == Ok(db.(signups := db.signups[id := s]));
  }

  function Reviewed(s: Signup, status: SignupStatus, reviewer: Id, now: Time): Signup {
    s.(status := status, reviewer := Some(reviewer), reviewedAt := Some(now))
  }

  /** In a reachable state an approval goes through exactly when a platform admin sends it, the request is
      pending and its author is in no organization; it settles the request and sends the author one
      organization invitation. */
  lemma ApprovesExactlyWhen(a: Slug.Alphabet, db: Db, actor: Id, id: Id, newId: Id, now: Time)
    requires Wf(db) && OrgSignups.OrgInvitesApproved(db) && newId !in db.orgInvites
    ensures Apply(a, db, ApproveStep(actor, id, newId, now)).Ok? <==>
              && IsPlatformAdmin(db, actor) && id in db.signups && db.signups[id].status == Pending
              && !HasMembershipByEmail(db, db.signups[id].email)
    ensures Apply(a, db, ApproveStep(actor, id, newId, now)).Ok? ==>
              Next(a, db, ApproveStep(actor, id, newId, now))
              == db.(signups := db.signups[id := Reviewed(db.signups[id], Approved, actor, now)],
                     orgInvites := db.orgInvites[newId := OrgInvite(db.signups[id].email, db.signups[id].orgName, id, actor)])
  {
    if IsPlatformAdmin(db, actor) && id in db.signups && db.signups[id].status == Pending {
      ApproveCommits(db, id, actor, newId, now);
    }
  }

  /** A request is accepted exactly when its author is in no organization and has none pending. */
  lemma SubmitsExactlyWhen(a: Slug.Alphabet, db: Db, s: Step)
    requires s.SubmitStep? && s.signup !in db.signups
    ensures Apply(a, db, s).Ok? <==> !HasMembershipByEmail(db, s.email) && !Asking(db, s.email)
    ensures Apply(a, db, s).Ok? ==>
              Next(a, db, s) == db.(signups := db.signups[s.signup :=
                Signup(s.name, s.email, s.orgName, s.reason, Pending, None, None)])
  {
  }

  /** A request for an organization is pending for the email. */
  predicate Asking(db: Db, email: string) {
    exists k :: k in db.signups && db.signups[k].email == email && db.signups[k].status == Pending
  }

  /** A rejection goes through exactly when a platform admin sends it and the request is pending; it settles
      that request, and its author may ask again. */
  lemma RejectsExactlyWhen(a: Slug.Alphabet, db: Db, actor: Id, id: Id, now: Time)
    requires Wf(db)
    ensures Apply(a, db, RejectStep(actor, id, now)).Ok? <==>
              IsPlatformAdmin(db, actor) && id in db.signups && db.signups[id].status == Pending
    ensures Apply(a, db, RejectStep(actor, id, now)).Ok? ==>
              var db' := Next(a, db, RejectStep(actor, id, now));
              && db' == db.(signups := db.signups[id := Reviewed(db.signups[id], Rejected, actor, now)])
              && !Asking(db', db.signups[id].email)
  {
    if IsPlatformAdmin(db, actor) && id in db.signups && db.signups[id].status == Pending {
      var s := Reviewed(db.signups[id], Rejected, actor, now);
      assert PutSignup(db, id, s) == Ok(db.(signups := db.signups[id := s]));
      assert SignupsWf(db);
    }
  }

  /** A revocation goes through exactly when the invitation is one of the admin's organization; in a reachable
      state nothing regular is pending for its email any more. */
  lemma RevokesExactlyWhen(a: Slug.Alphabet, db: Db, actor: Id, slug: string, m: Membership, i: Id)
    requires RequireAdmin(db, actor, slug) == Some(m)
    ensures Apply(a, db, RevokeStep(actor, slug, i)).Ok? <==> i in db.invites && db.invites[i].org == m.org
    ensures Apply(a, db, RevokeStep(actor, slug, i)).Err? ==> Apply(a, db, RevokeStep(actor, slug, i)) == Err(NotFound)
    ensures Apply(a, db, RevokeStep(actor, slug, i)).Ok? ==>
              var db' := Next(a, db, RevokeStep(actor, slug, i));
              && db' == db.(invites := db.invites - {i})
              && (OrgClaims.OneInvitePerEmail(db) ==> InvitesFor(db', db.invites[i].email) == {})
  {
    if i in db.invites {
      assert Without(db.invites, [i]) == db.invites - {i};
    }
  }

  // ----- Members and outsiders -----

  /** Nobody who bears the email has a membership. */
  ghost predicate Outsider(db: Db, email: string) {
    forall m :: m in db.members && db.members[m].user in db.users ==> db.users[db.members[m].user].email != email
  }

  /** Whoever is in no organization may ask for one, registered or not; so may somebody who was removed. */
  lemma OutsidersMayAsk(a: Slug.Alphabet, db: Db, s: Step)
    requires s.SubmitStep? && s.signup !in db.signups && Outsider(db, s.email) && !Asking(db, s.email)
    ensures Apply(a, db, s).Ok?
  {
    SubmitsExactlyWhen(a, db, s);
  }

  lemma RemovedMayAsk(a: Slug.Alphabet, db: Db, remove: Step, s: Step)
    requires Wf(db) && remove.RemoveStep? && remove.member in db.members && Apply(a, db, remove).Ok?
    requires s.SubmitStep? && s.signup !in db.signups && !Asking(db, s.email)
    requires s.email == db.users[db.members[remove.member].user].email
    ensures Apply(a, Next(a, db, remove), s).Ok?
  {
    var db1 := Next(a, db, remove);
    NextFrame(a, db, remove);
    RemovedIsOutsider(a, db, remove);
    OutsidersMayAsk(a, db1, s);
  }

  lemma RemovedIsOutsider(a: Slug.Alphabet, db: Db, remove: Step)
    requires Wf(db) && remove.RemoveStep? && remove.member in db.members && Apply(a, db, remove).Ok?
    ensures Outsider(Next(a, db, remove), db.users[db.members[remove.member].user].email)
  {
    NextFrame(a, db, remove);
    RemovesRow(a, db, remove);
    OutsiderWithout(db, Next(a, db, remove), remove.member);
  }

  lemma RemovesRow(a: Slug.Alphabet, db: Db, remove: Step)
    requires remove.RemoveStep? && Apply(a, db, remove).Ok?
    ensures Next(a, db, remove).members == db.members - {remove.member}
  {
  }

  lemma OutsiderWithout(db: Db, db': Db, k: Id)
    requires MembersWf(db) && UsersWf(db) && k in db.members && db'.users == db.users && db'.members == db.members - {k}
    ensures Outsider(db', db.users[db.members[k].user].email)
  {
    forall m | m in db.members && m != k
      ensures db.users[db.members[m].user].email != db.users[db.members[k].user].email
    {
      assert db.members[m].user != db.members[k].user;
    }
  }

  /** A member's email can neither ask for an organization, nor be approved one, nor be invited to another. */
  lemma MembersMayNotAsk(a: Slug.Alphabet, db: Db, s: Step, m: Id)
    requires Wf(db) && m in db.members
    requires var email := db.users[db.members[m].user].email;
      || (s.SubmitStep? && s.email == email)
      || (s.InviteStep? && s.email == email)
      || (s.ApproveStep? && s.signup in db.signups && db.signups[s.signup].email == email)
    ensures Apply(a, db, s).Err?
    ensures s.SubmitStep? ==> Apply(a, db, s) == Err(HasOrganization)
  {
  }

  // ----- Why a request is refused -----

  lemma MemberRefusals(a: Slug.Alphabet, db: Db, actor: Id, slug: string, m: Membership, k: Id, newRole: Role)
    requires RequireAdmin(db, actor, slug) == Some(m)
    ensures var r := Apply(a, db, RoleStep(actor, slug, k, newRole));
      r.Err? ==> r.error == if k !in db.members || db.members[k].org != m.org then NotFound
                            else if !Above(m.role, db.members[k].role) || !Above(m.role, newRole) then Forbidden
                            else LastOwner
    ensures var r := Apply(a, db, RemoveStep(actor, slug, k));
      r.Err? ==> r.error == if k !in db.members || db.members[k].org != m.org then NotFound
                            else if !Above(m.role, db.members[k].role) then Forbidden
                            else LastOwner
  {
  }

  lemma InviteRefusals(a: Slug.Alphabet, db: Db, s: Step, m: Membership)
    requires Wf(db) && s.InviteStep? && RequireAdmin(db, s.actor, s.slug) == Some(m) && s.newId !in db.invites
    ensures Apply(a, db, s).Err? ==>
              Apply(a, db, s).error == if !MayGrant(m.role, s.role) then Forbidden
                                       else if !Outsider(db, s.email) then HasOrganization
                                       else DuplicateInvitation
  {
    InviteStepIs(a, db, m, s);
    CreateInviteCommits(db, s.newId, m, s.email, s.role);
    NothingElsewhere(db, m.org, s.email);
  }

  lemma ReviewRefusals(a: Slug.Alphabet, db: Db, actor: Id, id: Id, newId: Id, now: Time)
    requires Wf(db) && OrgSignups.OrgInvitesApproved(db) && newId !in db.orgInvites
    ensures var r := Apply(a, db, ApproveStep(actor, id, newId, now));
      r.Err? ==> r.error == if !IsPlatformAdmin(db, actor) then Forbidden
                            else if id !in db.signups then NotFound
                            else if db.signups[id].status != Pending then AlreadyReviewed
                            else HasOrganization
    ensures var r := Apply(a, db, RejectStep(actor, id, now));
      r.Err? ==> r.error == if !IsPlatformAdmin(db, actor) then Forbidden
                            else if id !in db.signups then NotFound
                            else AlreadyReviewed
  {
    if IsPlatformAdmin(db, actor) && id in db.signups && db.signups[id].status == Pending {
      ApproveCommits(db, id, actor, newId, now);
      RejectsExactlyWhen(a, db, actor, id, now);
    }
  }

  lemma SubmitRefusals(a: Slug.Alphabet, db: Db, s: Step)
    requires s.SubmitStep? && s.signup !in db.signups
    ensures Apply(a, db, s).Err? ==>
              Apply(a, db, s).error == if !Outsider(db, s.email) then HasOrganization else AlreadyPending
  {
  }
}
