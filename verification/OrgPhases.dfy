/** Every organization keeps an owner, over every run. */
module OrgPhases {
  import opened OrgModel
  import opened OrgConstraints
  import opened OrgLogin
  import Sets
  import Slug

  /** Nobody and nothing but signup requests. */
  ghost predicate NothingYet(db: Db) {
    db.users == map[] && db.orgs == map[] && db.members == map[] && db.invites == map[] && db.orgInvites == map[]
  }

  /** One organization, one invitation to own it, and nobody registered. */
  ghost predicate Bootstrapped(db: Db) {
    && db.users == map[] && db.members == map[] && db.orgInvites == map[]
    && |db.orgs| == 1 && |db.invites| == 1
    && forall i :: i in db.invites ==> db.invites[i].role == Owner && db.invites[i].org in db.orgs
  }

  /** There are organizations, and each has an owner. */
  ghost predicate Running(db: Db) {
    db.orgs != map[] && forall o :: o in db.orgs ==> Owners(db, o) != {}
  }

  /** The membership is that of an owner of the organization. */
  predicate IsOwner(db: Db, org: Id, m: Id) {
    m in db.members && db.members[m].org == org && db.members[m].role == Owner
  }

  /** The member owns the organization and nobody else does. */
  ghost predicate OnlyOwner(db: Db, org: Id, m: Id) {
    IsOwner(db, org, m) && forall k :: IsOwner(db, org, k) ==> k == m
  }

  ghost predicate InPhase(db: Db) {
    NothingYet(db) || Bootstrapped(db) || Running(db)
  }

  lemma LoginPhase(a: Slug.Alphabet, adminEmail: string, db: Db, g: Google, ids: Fresh, orgRows: seq<Id>, rows: seq<Id>)
    requires Wf(db) && InPhase(db) && Listed(db, g.email, orgRows, rows)
    requires Login(a, adminEmail, db, g, ids, orgRows, rows).Ok?
    ensures Running(Login(a, adminEmail, db, g, ids, orgRows, rows).value.db)
  {
    var r := Login(a, adminEmail, db, g, ids, orgRows, rows).value;
    LoginEffect(a, adminEmail, db, g, ids, orgRows, rows);
    if r.membership.None? {
      assert UserWithSub(db, g.sub).value in db.users;
      SameOwners(db, r.db);
    } else if Running(db) {
      GrantKeepsRunning(db, r.db, g.email, r.membership.value);
    } else {
      GrantStartsRunning(db, r.db, g.email, r.membership.value);
    }
  }

  lemma GrantKeepsRunning(db: Db, db': Db, email: string, m: Id)
    requires Running(db) && m !in db.members && m in db'.members
    requires db'.members == db.members[m := db'.members[m]]
    requires MembershipGranted(db, db', email, db'.members[m])
    ensures Running(db')
  {
    forall o | o in db'.orgs ensures Owners(db', o) != {} {
      if o in db.orgs {
        var k :| k in Owners(db, o);
        assert k in Owners(db', o);
      } else {
        assert m in Owners(db', o);
      }
    }
  }

  lemma GrantStartsRunning(db: Db, db': Db, email: string, m: Id)
    requires NothingYet(db) || Bootstrapped(db)
    requires m in db'.members
    requires MembershipGranted(db, db', email, db'.members[m])
    ensures Running(db')
  {
    assert OrgInvitesFor(db, email) == {};
    var o := db'.members[m].org;
    var i :| i in InvitesFor(db, email) && o == db.invites[i].org && db'.members[m].role == db.invites[i].role;
    Sets.OnlyElement(db.orgs.Keys, o);
    assert m in Owners(db', o);
  }

  lemma BootstrapPhase(a: Slug.Alphabet, db: Db, adminEmail: string, orgName: string, orgId: Id, inviteId: Id)
    requires Wf(db) && InPhase(db)
    ensures var r := Bootstrap(a, db, adminEmail, orgName, orgId, inviteId);
      r.Ok? ==> InPhase(r.value) && (r.value == db || (NothingYet(db) && Bootstrapped(r.value)))
  {
    if db.orgs != map[] {
      assert |db.orgs| > 0;
    } else {
      assert NothingYet(db);
    }
  }

  /** Who owns an organization after a role change. */
  lemma UpdateRoleOwners(db: Db, id: Id, org: Id, newRole: Role, actorRole: Role, o: Id)
    requires UpdateRole(db, id, org, newRole, actorRole).Ok?
    ensures Owners(UpdateRole(db, id, org, newRole, actorRole).value, o)
         == if o != org then Owners(db, o)
            else if newRole == Owner then Owners(db, o) + {id} else Owners(db, o) - {id}
  {
    var db' := UpdateRole(db, id, org, newRole, actorRole).value;
    assert db'.members == db.members[id := db.members[id].(role := newRole)];
  }

  lemma UpdateRolePhase(db: Db, id: Id, org: Id, newRole: Role, actorRole: Role)
    requires Wf(db) && Running(db) && UpdateRole(db, id, org, newRole, actorRole).Ok?
    ensures Running(UpdateRole(db, id, org, newRole, actorRole).value)
  {
    forall o | o in db.orgs ensures Owners(UpdateRole(db, id, org, newRole, actorRole).value, o) != {} {
      OwnersWithout(db, id, o);
      UpdateRoleOwners(db, id, org, newRole, actorRole, o);
    }
  }

  lemma RemoveMemberOwners(db: Db, id: Id, org: Id, actorRole: Role, o: Id)
    requires RemoveMember(db, id, org, actorRole).Ok?
    ensures Owners(RemoveMember(db, id, org, actorRole).value, o) == Owners(db, o) - {id}
  {
  }

  lemma RemoveMemberPhase(db: Db, id: Id, org: Id, actorRole: Role)
    requires Wf(db) && Running(db) && RemoveMember(db, id, org, actorRole).Ok?
    ensures Running(RemoveMember(db, id, org, actorRole).value)
  {
    forall o | o in db.orgs ensures Owners(RemoveMember(db, id, org, actorRole).value, o) != {} {
      OwnersWithout(db, id, o);
      RemoveMemberOwners(db, id, org, actorRole, o);
    }
  }

  /** An organization whose only owner is this member has just one owner. */
  lemma OwnersWithout(db: Db, id: Id, o: Id)
    requires Owners(db, o) != {}
    ensures Owners(db, o) - {id} == {} ==> id in Owners(db, o) && |Owners(db, o)| == 1
  {
    var k :| k in Owners(db, o);
    if Owners(db, o) - {id} == {} {
      assert Owners(db, o) == {id};
    }
  }

  /** A request keeps the phase or advances it. */
  lemma NextPhase(a: Slug.Alphabet, db: Db, s: Step)
    requires Wf(db) && InPhase(db)
    ensures InPhase(Next(a, db, s))
    ensures Running(db) ==> Running(Next(a, db, s))
  {
    if Apply(a, db, s).Ok? {
      match s
      case BootstrapStep(adminEmail, orgName, orgId, inviteId) =>
        BootstrapPhase(a, db, adminEmail, orgName, orgId, inviteId);
      case LoginStep(adminEmail, g, ids, orgRows, rows) => LoginPhase(a, adminEmail, db, g, ids, orgRows, rows);
      case RoleStep(actor, slug, id, newRole) =>
        var m := RequireAdmin(db, actor, slug).value;
        ActorRuns(db, actor, slug);
        UpdateRolePhase(db, id, m.org, newRole, m.role);
      case RemoveStep(actor, slug, id) =>
        var m := RequireAdmin(db, actor, slug).value;
        ActorRuns(db, actor, slug);
        RemoveMemberPhase(db, id, m.org, m.role);
      case _ => OtherStepPhase(a, db, s);
    }
  }

  lemma OtherStepPhase(a: Slug.Alphabet, db: Db, s: Step)
    requires InPhase(db)
    requires s.InviteStep? || s.RevokeStep? || s.SubmitStep? || s.ApproveStep? || s.RejectStep?
    ensures InPhase(Next(a, db, s))
    ensures Running(db) ==> Running(Next(a, db, s))
  {
    NextFrame(a, db, s);
    SameOwners(db, Next(a, db, s));
    if !Running(db) && (s.InviteStep? || s.RevokeStep?) && RequireAdmin(db, s.actor, s.slug).Some? {
      ActorRuns(db, s.actor, s.slug);
    }
  }

  /** Someone who passes the role guard is a member, so the first owner has registered. */
  lemma ActorRuns(db: Db, actor: Id, slug: string)
    requires InPhase(db) && RequireAdmin(db, actor, slug).Some?
    ensures Running(db)
  {
  }

  lemma SameOwners(db: Db, db': Db)
    requires db'.orgs == db.orgs && db'.members == db.members
    ensures Running(db) ==> Running(db')
  {
    if Running(db) {
      forall o | o in db.orgs ensures Owners(db', o) != {} {
        assert Owners(db', o) == Owners(db, o);
      }
    }
  }

  lemma {:induction false} ExecPhase(a: Slug.Alphabet, db: Db, steps: seq<Step>)
    requires Wf(db) && InPhase(db)
    ensures InPhase(Exec(a, db, steps))
    ensures Running(db) ==> Running(Exec(a, db, steps))
    decreases |steps|
  {
    if steps != [] {
      NextWf(a, db, steps[0]);
      NextPhase(a, db, steps[0]);
      ExecPhase(a, Next(a, db, steps[0]), steps[1..]);
    }
  }

  /** From an empty database, whatever requests arrive: nothing is registered, or the first owner's
      invitation is waiting, or every organization has an owner; and once owned, always owned. */
  lemma EveryOrganizationKeepsAnOwner(a: Slug.Alphabet, before: seq<Step>, after: seq<Step>)
    ensures InPhase(Exec(a, EMPTY, before))
    ensures Running(Exec(a, EMPTY, before)) ==>
              forall o :: o in Exec(a, EMPTY, before).orgs ==> exists m :: IsOwner(Exec(a, EMPTY, before), o, m)
    ensures Running(Exec(a, EMPTY, before)) ==> Running(Exec(a, Exec(a, EMPTY, before), after))
  {
    ExecWf(a, EMPTY, before);
    ExecPhase(a, EMPTY, before);
    ExecPhase(a, Exec(a, EMPTY, before), after);
    if Running(Exec(a, EMPTY, before)) {
      RunningHasOwners(Exec(a, EMPTY, before));
    }
  }

  lemma RunningHasOwners(db: Db)
    requires Running(db)
    ensures forall o :: o in db.orgs ==> exists m :: IsOwner(db, o, m)
  {
    forall o | o in db.orgs ensures exists m :: IsOwner(db, o, m) {
      var m :| m in Owners(db, o);
      assert IsOwner(db, o, m);
    }
  }

  /** The last-owner guard is exact: an owner's demotion or removal, by an owner, of a member of the
      organization fails precisely when nobody else owns it. */
  lemma LastOwnerGuardIsExact(db: Db, id: Id, org: Id, newRole: Role)
    requires id in db.members && db.members[id].org == org && db.members[id].role == Owner && newRole != Owner
    ensures RemoveMember(db, id, org, Owner).Err? <==> OnlyOwner(db, org, id)
    ensures UpdateRole(db, id, org, newRole, Owner).Err? <==> OnlyOwner(db, org, id)
  {
    SoleOwner(db, org, id);
  }

  lemma TwoOwners(db: Db, org: Id, k: Id)
    requires k in Owners(db, org) && |Owners(db, org)| > 1
    ensures !OnlyOwner(db, org, k)
  {
    assert |Owners(db, org) - {k}| > 0;
    var m :| m in Owners(db, org) - {k};
    assert IsOwner(db, org, m);
  }

  lemma SoleOwner(db: Db, org: Id, k: Id)
    ensures k in Owners(db, org) <==> IsOwner(db, org, k)
    ensures IsOwner(db, org, k) ==> (|Owners(db, org)| <= 1 <==> OnlyOwner(db, org, k))
  {
    assert forall m :: m in Owners(db, org) <==> IsOwner(db, org, m);
    if k in Owners(db, org) {
      if |Owners(db, org)| <= 1 {
        Sets.OnlyElement(Owners(db, org), k);
      } else {
        TwoOwners(db, org, k);
      }
    }
  }

  // ----- Slugs -----

  /** Every organization's slug is in normal form. */
  ghost predicate SlugsNormal(a: Slug.Alphabet, db: Db) {
    forall o :: o in db.orgs ==> Slug.IsSlug(a, db.orgs[o].slug)
  }

  lemma NextSlugsNormal(a: Slug.Alphabet, db: Db, s: Step)
    requires Slug.Lawful(a) && Wf(db) && SlugsNormal(a, db)
    ensures SlugsNormal(a, Next(a, db, s))
  {
    if s.LoginStep? {
      LoginSlug(a, db, s);
    } else {
      NextFrame(a, db, s);
      if s.BootstrapStep? {
        Slug.SlugifyIsSlug(a, s.orgName);
      }
    }
  }

  lemma FoundedSlug(a: Slug.Alphabet, db: Db, user: Id, ids: Fresh, orgRows: seq<Id>, rows: seq<Id>, email: string)
    requires Slug.Lawful(a) && SlugsNormal(a, db)
    requires orgRows != [] && Listed(db, email, orgRows, rows)
    requires orgRows[0] in db.orgInvites && (rows != [] ==> rows[0] in db.invites)
    requires Redeem(a, db, user, ids, orgRows, rows).Ok?
    ensures SlugsNormal(a, Redeem(a, db, user, ids, orgRows, rows).value)
  {
    RedeemOrgEffect(a, db, user, ids, orgRows, rows, email);
    Slug.UniqueSlugIsSlug(a, Slugs(db), db.orgInvites[orgRows[0]].orgName, MAX_SLUG_ATTEMPTS);
  }

  lemma LoginSlug(a: Slug.Alphabet, db: Db, s: Step)
    requires Slug.Lawful(a) && Wf(db) && SlugsNormal(a, db) && s.LoginStep?
    ensures SlugsNormal(a, Next(a, db, s))
  {
    if Apply(a, db, s).Ok? {
      var r := Login(a, s.adminEmail, db, s.g, s.ids, s.orgRows, s.rows).value;
      if s.orgRows != [] {
        var db1 := LoginUnfolds(a, s.adminEmail, db, s.g, s.ids, s.orgRows, s.rows);
        SameTables(db, db1, s.g.email);
        FoundedSlug(a, db1, r.user, s.ids, s.orgRows, s.rows, s.g.email);
      } else {
        LoginEffect(a, s.adminEmail, db, s.g, s.ids, s.orgRows, s.rows);
        RowsEmpty(s.orgRows, OrgInvitesFor(db, s.g.email));
      }
    }
  }

  /** In every reachable state the organizations' slugs are distinct and normalised. */
  lemma {:induction false} ReachableSlugs(a: Slug.Alphabet, db: Db, steps: seq<Step>)
    requires Slug.Lawful(a) && Wf(db) && SlugsNormal(a, db)
    ensures var db' := Exec(a, db, steps);
      && SlugsNormal(a, db')
      && (forall o, p :: o in db'.orgs && p in db'.orgs && db'.orgs[o].slug == db'.orgs[p].slug ==> o == p)
    decreases |steps|
  {
    if steps != [] {
      NextWf(a, db, steps[0]);
      NextSlugsNormal(a, db, steps[0]);
      ReachableSlugs(a, Next(a, db, steps[0]), steps[1..]);
    }
  }
}
