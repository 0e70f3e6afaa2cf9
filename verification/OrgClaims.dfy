/** Invitations per email, when row order matters, and who can hand out ownership. */
module OrgClaims {
  import opened Wrappers
  import opened OrgModel
  import opened OrgConstraints
  import opened OrgLogin
  import opened OrgSingle
  import OrgPhases
  import Sets
  import Slug

  // ----- At most one regular invitation per email, across organizations -----

  ghost predicate OneInvitePerEmail(db: Db) {
    forall i, j :: i in db.invites && j in db.invites && i != j ==> db.invites[i].email != db.invites[j].email
  }

  lemma NextOneInvite(a: Slug.Alphabet, db: Db, s: Step)
    requires Wf(db) && OneInvitePerEmail(db)
    ensures OneInvitePerEmail(Next(a, db, s))
  {
    if s.LoginStep? {
      var user, member := LoginNext(a, db, s);
    } else if s.InviteStep? || s.BootstrapStep? {
      if Apply(a, db, s).Ok? {
        if s.InviteStep? {
          InviteOneInvite(a, db, s);
        } else {
          BootstrapOneInvite(a, db, s);
        }
      }
    } else {
      OtherOneInvite(a, db, s);
    }
  }

  lemma InviteOneInvite(a: Slug.Alphabet, db: Db, s: Step)
    requires Wf(db) && OneInvitePerEmail(db) && s.InviteStep? && Apply(a, db, s).Ok?
    ensures OneInvitePerEmail(Apply(a, db, s).value)
  {
    CreateInviteTouchesOneEmail(db, s.newId, RequireAdmin(db, s.actor, s.slug).value, s.email, s.role);
  }

  lemma BootstrapOneInvite(a: Slug.Alphabet, db: Db, s: Step)
    requires Wf(db) && OneInvitePerEmail(db) && s.BootstrapStep? && Apply(a, db, s).Ok?
    ensures OneInvitePerEmail(Apply(a, db, s).value)
  {
    if db.orgs != map[] {
      assert |db.orgs| > 0;
    }
  }

  lemma OtherOneInvite(a: Slug.Alphabet, db: Db, s: Step)
    requires OneInvitePerEmail(db) && !s.LoginStep? && !s.InviteStep? && !s.BootstrapStep?
    ensures OneInvitePerEmail(Next(a, db, s))
  {
    NextFrame(a, db, s);
  }

  lemma {:induction false} ReachableOneInvite(a: Slug.Alphabet, db: Db, steps: seq<Step>)
    requires Wf(db) && OneInvitePerEmail(db)
    ensures var db' := Exec(a, db, steps);
      OneInvitePerEmail(db') && forall i :: i in db'.invites ==> db'.invites[i].org in db'.orgs
    decreases |steps|
  {
    if steps != [] {
      NextWf(a, db, steps[0]);
      NextOneInvite(a, db, steps[0]);
      ReachableOneInvite(a, Next(a, db, steps[0]), steps[1..]);
    }
  }

  /** In a reachable state a login with no organization to found has one possible outcome. */
  lemma RegularLoginIgnoresRowOrder(a: Slug.Alphabet, steps: seq<Step>, adminEmail: string, g: Google, ids: Fresh,
                                    rows: seq<Id>, rows': seq<Id>)
    requires var db := Exec(a, EMPTY, steps); Listed(db, g.email, [], rows) && Listed(db, g.email, [], rows')
    ensures var db := Exec(a, EMPTY, steps);
      Login(a, adminEmail, db, g, ids, [], rows) == Login(a, adminEmail, db, g, ids, [], rows')
  {
    var db := Exec(a, EMPTY, steps);
    ReachableOneInvite(a, EMPTY, steps);
    AtMostOneRow(db, g.email, rows);
    AtMostOneRow(db, g.email, rows');
    RowsEmpty(rows, InvitesFor(db, g.email));
    RowsEmpty(rows', InvitesFor(db, g.email));
    if rows != [] {
      assert rows[0] in rows && rows'[0] in rows';
      assert rows[0] in InvitesFor(db, g.email) && rows'[0] in InvitesFor(db, g.email);
      assert rows == [rows[0]] == rows';
    }
  }

  lemma AtMostOneRow(db: Db, email: string, rows: seq<Id>)
    requires OneInvitePerEmail(db) && Lists(rows, InvitesFor(db, email))
    ensures |rows| <= 1
  {
    if |rows| > 1 {
      TwoRowsTwoInvites(db, email, rows);
    }
  }

  lemma TwoRowsTwoInvites(db: Db, email: string, rows: seq<Id>)
    requires Lists(rows, InvitesFor(db, email)) && |rows| > 1
    ensures !OneInvitePerEmail(db)
  {
    assert rows[0] in rows && rows[1] in rows;
    assert rows[0] in InvitesFor(db, email) && rows[1] in InvitesFor(db, email);
  }

  /** A login that founds an organization does not depend on row order exactly when all the approved
      requests for the email name the same organization. */
  lemma FoundingLoginIgnoresRowOrderExactlyWhen(a: Slug.Alphabet, adminEmail: string, db: Db, g: Google, ids: Fresh,
                                                orgRows: seq<Id>, rows: seq<Id>)
    requires Listed(db, g.email, orgRows, rows) && orgRows != []
    requires Login(a, adminEmail, db, g, ids, orgRows, rows).Ok?
    ensures (forall orgRows', rows' :: Listed(db, g.email, orgRows', rows') ==>
               Login(a, adminEmail, db, g, ids, orgRows', rows') == Login(a, adminEmail, db, g, ids, orgRows, rows))
      <==> forall i, j :: i in OrgInvitesFor(db, g.email) && j in OrgInvitesFor(db, g.email) ==>
             db.orgInvites[i].orgName == db.orgInvites[j].orgName
  {
    assert orgRows[0] in orgRows;
    if i, j :| i in OrgInvitesFor(db, g.email) && j in OrgInvitesFor(db, g.email)
               && db.orgInvites[i].orgName != db.orgInvites[j].orgName {
      var k := if db.orgInvites[i].orgName != db.orgInvites[orgRows[0]].orgName then i else j;
      var swapped := Promote(orgRows, k, OrgInvitesFor(db, g.email));
      FoundedNames(a, adminEmail, db, g, ids, orgRows, rows);
      if Login(a, adminEmail, db, g, ids, swapped, rows).Ok? {
        FoundedNames(a, adminEmail, db, g, ids, swapped, rows);
      }
    } else {
      forall orgRows', rows' | Listed(db, g.email, orgRows', rows')
        ensures Login(a, adminEmail, db, g, ids, orgRows', rows') == Login(a, adminEmail, db, g, ids, orgRows, rows)
      {
        RowsEmpty(orgRows', OrgInvitesFor(db, g.email));
        assert orgRows'[0] in orgRows';
        SameNameSameLogin(a, adminEmail, db, g, ids, orgRows, rows, orgRows', rows');
      }
    }
  }

  /** The listing that puts a given row first. */
  lemma Promote(rows: seq<Id>, k: Id, ids: set<Id>) returns (swapped: seq<Id>)
    requires Lists(rows, ids) && k in ids
    ensures Lists(swapped, ids) && swapped != [] && swapped[0] == k
  {
    assert k in rows;
    var n :| 0 <= n < |rows| && rows[n] == k;
    swapped := rows[n := rows[0]][0 := k];
    assert forall r :: r in rows ==> r in swapped by {
      forall r | r in rows ensures r in swapped {
        var i :| 0 <= i < |rows| && rows[i] == r;
        assert swapped[if i == 0 then n else if i == n then 0 else i] == r;
      }
    }
  }

  lemma FoundedNames(a: Slug.Alphabet, adminEmail: string, db: Db, g: Google, ids: Fresh, orgRows: seq<Id>, rows: seq<Id>)
    requires Listed(db, g.email, orgRows, rows) && orgRows != []
    requires Login(a, adminEmail, db, g, ids, orgRows, rows).Ok?
    ensures orgRows[0] in db.orgInvites
    ensures var db' := Login(a, adminEmail, db, g, ids, orgRows, rows).value.db;
      ids.org in db'.orgs && db'.orgs[ids.org].name == db.orgInvites[orgRows[0]].orgName
  {
    var r := Login(a, adminEmail, db, g, ids, orgRows, rows).value;
    var db1 := LoginUnfolds(a, adminEmail, db, g, ids, orgRows, rows);
    SameListing(db, db1, g.email, orgRows, rows);
    RedeemOrgEffect(a, db1, r.user, ids, orgRows, rows, g.email);
  }

  lemma SameListing(db: Db, db1: Db, email: string, orgRows: seq<Id>, rows: seq<Id>)
    requires db1 == db.(users := db1.users) && Listed(db, email, orgRows, rows)
    ensures Listed(db1, email, orgRows, rows)
  {
    assert OrgInvitesFor(db1, email) == OrgInvitesFor(db, email);
    assert InvitesFor(db1, email) == InvitesFor(db, email);
  }

  lemma SameNameSameLogin(a: Slug.Alphabet, adminEmail: string, db: Db, g: Google, ids: Fresh,
                          orgRows: seq<Id>, rows: seq<Id>, orgRows': seq<Id>, rows': seq<Id>)
    requires Listed(db, g.email, orgRows, rows) && Listed(db, g.email, orgRows', rows')
    requires orgRows != [] && orgRows' != []
    requires orgRows[0] in db.orgInvites && orgRows'[0] in db.orgInvites
    requires db.orgInvites[orgRows[0]].orgName == db.orgInvites[orgRows'[0]].orgName
    requires Login(a, adminEmail, db, g, ids, orgRows, rows).Ok?
    ensures Login(a, adminEmail, db, g, ids, orgRows', rows') == Login(a, adminEmail, db, g, ids, orgRows, rows)
  {
    var r := Login(a, adminEmail, db, g, ids, orgRows, rows).value;
    var db1 := LoginUnfolds(a, adminEmail, db, g, ids, orgRows, rows);
    SameListing(db, db1, g.email, orgRows, rows);
    SameListing(db, db1, g.email, orgRows', rows');
    assert rows' != [] ==> rows'[0] in rows';
    RedeemOrgEffect(a, db1, r.user, ids, orgRows, rows, g.email);
    var slug := Slug.UniqueSlug(a, Slugs(db1), db.orgInvites[orgRows[0]].orgName, MAX_SLUG_ATTEMPTS).value;
    SameNameSameFounding(db1, slug, r.user, ids, orgRows[0], orgRows'[0]);
    RedeemOrgEffect(a, db1, r.user, ids, orgRows', rows', g.email);
  }

  lemma SameNameSameFounding(db: Db, slug: string, user: Id, ids: Fresh, row: Id, row': Id)
    requires row in db.orgInvites && row' in db.orgInvites
    requires db.orgInvites[row].orgName == db.orgInvites[row'].orgName
    ensures FoundOrg(db, row, slug, user, ids).Ok? <==> FoundOrg(db, row', slug, user, ids).Ok?
  {
  }

  // ----- Who can hand out ownership -----

  function OwnerInvites(db: Db, org: Id): set<Id> {
    set i | i in db.invites && db.invites[i].org == org && db.invites[i].role == Owner
  }

  /** Owners, and people holding a pending invitation to become one. */
  function OwnerClaims(db: Db, org: Id): nat {
    |OrgModel.Owners(db, org)| + |OwnerInvites(db, org)|
  }

  /** An invitation or role change sent by an owner of the organization. */
  ghost predicate ByOwner(db: Db, s: Step, org: Id) {
    && (s.InviteStep? || s.RoleStep?)
    && RequireAdmin(db, s.actor, s.slug).Some?
    && RequireAdmin(db, s.actor, s.slug).value.org == org
    && RequireAdmin(db, s.actor, s.slug).value.role == Owner
  }

  lemma FewerClaims(db: Db, db': Db, org: Id)
    requires OrgModel.Owners(db', org) <= OrgModel.Owners(db, org) && OwnerInvites(db', org) <= OwnerInvites(db, org)
    ensures OwnerClaims(db', org) <= OwnerClaims(db, org)
  {
    Sets.SubsetCount(OrgModel.Owners(db', org), OrgModel.Owners(db, org));
    Sets.SubsetCount(OwnerInvites(db', org), OwnerInvites(db, org));
  }

  /** Accepting an invitation to own an existing organization spends the claim it creates. */
  lemma LoginClaims(a: Slug.Alphabet, db: Db, s: Step, org: Id)
    requires Wf(db) && s.LoginStep? && org in db.orgs
    ensures OwnerClaims(Next(a, db, s), org) <= OwnerClaims(db, org)
  {
    if Apply(a, db, s).Ok? {
      var r := Login(a, s.adminEmail, db, s.g, s.ids, s.orgRows, s.rows).value;
      LoginEffect(a, s.adminEmail, db, s.g, s.ids, s.orgRows, s.rows);
      if r.membership.None? {
        FewerClaims(db, r.db, org);
      } else {
        GrantClaims(db, r.db, s.g.email, r.membership.value, org);
      }
    }
  }

  lemma GrantClaims(db: Db, db': Db, email: string, m: Id, org: Id)
    requires org in db.orgs && m !in db.members && m in db'.members
    requires db'.members == db.members[m := db'.members[m]]
    requires MembershipGranted(db, db', email, db'.members[m]) && db'.invites == OtherInvites(db, email)
    ensures OwnerClaims(db', org) <= OwnerClaims(db, org)
  {
    if db'.members[m].org == org && db'.members[m].role == Owner {
      var i :| i in InvitesFor(db, email) && org == db.invites[i].org && db.invites[i].role == Owner;
      OwnerGrantClaims(db, db', email, m, i, org);
    } else {
      assert OrgModel.Owners(db', org) == OrgModel.Owners(db, org);
      FewerClaims(db, db', org);
    }
  }

  lemma OwnerGrantClaims(db: Db, db': Db, email: string, m: Id, i: Id, org: Id)
    requires m in db'.members && db'.members == db.members[m := db'.members[m]]
    requires i in OwnerInvites(db, org) && db.invites[i].email == email && db'.invites == OtherInvites(db, email)
    ensures OwnerClaims(db', org) <= OwnerClaims(db, org)
  {
    assert OrgModel.Owners(db', org) <= OrgModel.Owners(db, org) + {m};
    Sets.SubsetCount(OrgModel.Owners(db', org), OrgModel.Owners(db, org) + {m});
    assert OwnerInvites(db', org) <= OwnerInvites(db, org) - {i};
    Sets.SubsetCount(OwnerInvites(db', org), OwnerInvites(db, org) - {i});
  }

  lemma InviteClaims(db: Db, id: Id, m: Membership, email: string, role: Role, org: Id)
    requires CreateInvite(db, id, m.org, email, role, Some(m.user), Some(m.role)).Ok?
    ensures var db' := CreateInvite(db, id, m.org, email, role, Some(m.user), Some(m.role)).value;
      OwnerClaims(db', org) <= OwnerClaims(db, org) + if m.org == org && m.role == Owner then 1 else 0
  {
    var db' := CreateInvite(db, id, m.org, email, role, Some(m.user), Some(m.role)).value;
    CreateInviteTouchesOneEmail(db, id, m, email, role);
    assert OrgModel.Owners(db', org) == OrgModel.Owners(db, org);
    if m.org == org && m.role == Owner {
      var k := if InviteOf(db, m.org, email).Some? then InviteOf(db, m.org, email).value else id;
      assert OwnerInvites(db', org) <= OwnerInvites(db, org) + {k};
      Sets.SubsetCount(OwnerInvites(db', org), OwnerInvites(db, org) + {k});
    } else {
      assert OwnerInvites(db', org) <= OwnerInvites(db, org);
      FewerClaims(db, db', org);
    }
  }

  lemma RoleClaims(db: Db, id: Id, m: Membership, newRole: Role, org: Id)
    requires UpdateRole(db, id, m.org, newRole, m.role).Ok?
    ensures var db' := UpdateRole(db, id, m.org, newRole, m.role).value;
      OwnerClaims(db', org) <= OwnerClaims(db, org) + if m.org == org && m.role == Owner then 1 else 0
  {
    var db' := UpdateRole(db, id, m.org, newRole, m.role).value;
    OrgPhases.UpdateRoleOwners(db, id, m.org, newRole, m.role, org);
    assert OwnerInvites(db', org) == OwnerInvites(db, org);
    if m.org != org || newRole != Owner {
      FewerClaims(db, db', org);
    }
  }

  /** No request but an owner's own creates a claim to an existing organization, and that one creates at most one. */
  lemma NextClaims(a: Slug.Alphabet, db: Db, s: Step, org: Id)
    requires Wf(db) && org in db.orgs
    ensures OwnerClaims(Next(a, db, s), org) <= OwnerClaims(db, org) + if ByOwner(db, s, org) then 1 else 0
  {
    if Apply(a, db, s).Ok? {
      match s
      case LoginStep(_, _, _, _, _) => LoginClaims(a, db, s, org);
      case InviteStep(actor, slug, email, role, id) =>
        InviteClaims(db, id, RequireAdmin(db, actor, slug).value, email, role, org);
      case RoleStep(actor, slug, id, newRole) =>
        RoleClaims(db, id, RequireAdmin(db, actor, slug).value, newRole, org);
      case BootstrapStep(_, _, _, _) => assert db.orgs != map[] ==> |db.orgs| > 0;
      case _ => OtherClaims(a, db, s, org);
    }
  }

  lemma OtherClaims(a: Slug.Alphabet, db: Db, s: Step, org: Id)
    requires s.RevokeStep? || s.RemoveStep? || s.SubmitStep? || s.ApproveStep? || s.RejectStep?
    ensures OwnerClaims(Next(a, db, s), org) <= OwnerClaims(db, org)
  {
    NextFrame(a, db, s);
    FewerClaims(db, Next(a, db, s), org);
  }

  /** How many requests of a run were an owner's invitations and role changes. */
  ghost function OwnerActions(a: Slug.Alphabet, db: Db, steps: seq<Step>, org: Id): nat
    decreases |steps|
  {
    if steps == [] then 0
    else (if ByOwner(db, steps[0], org) then 1 else 0) + OwnerActions(a, Next(a, db, steps[0]), steps[1..], org)
  }

  lemma OrgsStay(a: Slug.Alphabet, db: Db, s: Step, org: Id)
    requires Wf(db) && org in db.orgs
    ensures org in Next(a, db, s).orgs
  {
    if s.LoginStep? {
      if Apply(a, db, s).Ok? {
        LoginEffect(a, s.adminEmail, db, s.g, s.ids, s.orgRows, s.rows);
      }
    } else {
      NextFrame(a, db, s);
    }
  }

  /** Over a whole run, claims to an organization grow by no more than its owners' own actions. */
  lemma {:induction false} OwnershipIsHandedOutByOwners(a: Slug.Alphabet, db: Db, steps: seq<Step>, org: Id)
    requires Wf(db) && org in db.orgs
    ensures OwnerClaims(Exec(a, db, steps), org) <= OwnerClaims(db, org) + OwnerActions(a, db, steps, org)
    decreases |steps|
  {
    if steps != [] {
      NextWf(a, db, steps[0]);
      OrgsStay(a, db, steps[0], org);
      NextClaims(a, db, steps[0], org);
      OwnershipIsHandedOutByOwners(a, Next(a, db, steps[0]), steps[1..], org);
    }
  }
}
