/** Where invitations come from and where they go, over every run. */
module OrgInvitations {
  import opened Wrappers
  import opened OrgModel
  import opened OrgConstraints
  import opened OrgLogin
  import OrgHierarchy
  import OrgSingle
  import Slug

  /** The request was sent by an admin or owner of the organization. */
  ghost predicate ByAdminOf(db: Db, s: Step, org: Id) {
    && (s.InviteStep? || s.RevokeStep? || s.RoleStep? || s.RemoveStep?)
    && RequireAdmin(db, s.actor, s.slug).Some? && RequireAdmin(db, s.actor, s.slug).value.org == org
  }

  /** The request may change or remove this invitation: it invites or revokes in its organization, or it is a
      login under its email. */
  ghost predicate MayTouch(db: Db, s: Step, i: Invite) {
    || ((s.InviteStep? || s.RevokeStep?) && ByAdminOf(db, s, i.org))
    || (s.LoginStep? && s.g.email == i.email)
  }

  /** The request wrote this invitation: bootstrap did, or an admin of the organization whom it does not outrank. */
  ghost predicate Wrote(db: Db, s: Step, i: Invite) {
    || (s.BootstrapStep? && i.email == s.adminEmail && i.role == Owner && i.invitedBy == None)
    || (&& s.InviteStep? && ByAdminOf(db, s, i.org) && i.email == s.email && i.role == s.role
        && i.invitedBy == Some(s.actor) && OrgHierarchy.MayGrant(RequireAdmin(db, s.actor, s.slug).value.role, i.role))
  }

  lemma InviteStepWrites(a: Slug.Alphabet, db: Db, s: Step, i: Id)
    requires s.InviteStep?
    ensures i in db.invites && !MayTouch(db, s, db.invites[i]) ==>
              i in Next(a, db, s).invites && Next(a, db, s).invites[i] == db.invites[i]
    ensures i in Next(a, db, s).invites ==>
              || (i in db.invites && Next(a, db, s).invites[i] == db.invites[i])
              || Wrote(db, s, Next(a, db, s).invites[i])
  {
    if Apply(a, db, s).Ok? {
      var m := RequireAdmin(db, s.actor, s.slug).value;
      OrgSingle.CreateInviteTouchesOneEmail(db, s.newId, m, s.email, s.role);
    }
  }

  lemma BootstrapWrites(a: Slug.Alphabet, db: Db, s: Step, i: Id)
    requires s.BootstrapStep?
    ensures i in db.invites ==> i in Next(a, db, s).invites && Next(a, db, s).invites[i] == db.invites[i]
    ensures i in Next(a, db, s).invites ==>
              || (i in db.invites && Next(a, db, s).invites[i] == db.invites[i])
              || Wrote(db, s, Next(a, db, s).invites[i])
  {
  }

  lemma RevokeOrLoginRemoves(a: Slug.Alphabet, db: Db, s: Step, i: Id)
    requires Wf(db) && (s.RevokeStep? || s.LoginStep?)
    ensures i in db.invites && !MayTouch(db, s, db.invites[i]) ==> i in Next(a, db, s).invites
    ensures i in Next(a, db, s).invites ==> i in db.invites && Next(a, db, s).invites[i] == db.invites[i]
  {
    if s.LoginStep? {
      var user, member := LoginNext(a, db, s);
    }
  }

  /** One request: an invitation is changed or removed only by an invitation or revocation in its organization
      or a login under its email, and written only by bootstrap or an admin of its organization. */
  lemma NextInvite(a: Slug.Alphabet, db: Db, s: Step, i: Id)
    requires Wf(db)
    ensures i in db.invites && !MayTouch(db, s, db.invites[i]) ==>
              i in Next(a, db, s).invites && Next(a, db, s).invites[i] == db.invites[i]
    ensures i in Next(a, db, s).invites ==>
              || (i in db.invites && Next(a, db, s).invites[i] == db.invites[i])
              || Wrote(db, s, Next(a, db, s).invites[i])
  {
    if s.InviteStep? {
      InviteStepWrites(a, db, s, i);
    } else if s.BootstrapStep? {
      BootstrapWrites(a, db, s, i);
    } else if s.RevokeStep? || s.LoginStep? {
      RevokeOrLoginRemoves(a, db, s, i);
    } else {
      NextFrame(a, db, s);
    }
  }

  /** No request of the run may touch the invitation. */
  ghost predicate Untouched(a: Slug.Alphabet, db: Db, steps: seq<Step>, i: Invite)
    decreases |steps|
  {
    steps != [] ==> !MayTouch(db, steps[0], i) && Untouched(a, Next(a, db, steps[0]), steps[1..], i)
  }

  /** Over any run an invitation waits for its recipient unless its organization acts or they log in. */
  lemma {:induction false} InvitationsWait(a: Slug.Alphabet, db: Db, steps: seq<Step>, i: Id)
    requires Wf(db) && i in db.invites && Untouched(a, db, steps, db.invites[i])
    ensures i in Exec(a, db, steps).invites && Exec(a, db, steps).invites[i] == db.invites[i]
    decreases |steps|
  {
    if steps != [] {
      NextWf(a, db, steps[0]);
      NextInvite(a, db, steps[0], i);
      InvitationsWait(a, Next(a, db, steps[0]), steps[1..], i);
    }
  }

  ghost predicate WrittenIn(a: Slug.Alphabet, db: Db, steps: seq<Step>, i: Invite)
    decreases |steps|
  {
    steps != [] && (Wrote(db, steps[0], i) || WrittenIn(a, Next(a, db, steps[0]), steps[1..], i))
  }

  /** Over any run every invitation was there, or was written by bootstrap or by an admin of its organization
      whom it does not outrank. */
  lemma {:induction false} InvitationsHaveSenders(a: Slug.Alphabet, db: Db, steps: seq<Step>, i: Id)
    requires Wf(db)
    ensures i in Exec(a, db, steps).invites ==>
              || (i in db.invites && Exec(a, db, steps).invites[i] == db.invites[i])
              || WrittenIn(a, db, steps, Exec(a, db, steps).invites[i])
    decreases |steps|
  {
    if steps != [] {
      NextWf(a, db, steps[0]);
      NextInvite(a, db, steps[0], i);
      InvitationsHaveSenders(a, Next(a, db, steps[0]), steps[1..], i);
    }
  }
}
