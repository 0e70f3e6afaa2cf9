/** What a login does, exactly when it commits, and when the row order of its queries matters. */
module OrgLogin {
  import opened Wrappers
  import opened OrgModel
  import opened OrgConstraints
  import Slug

  /** The table rows addressed to other people. */
  function OtherInvites(db: Db, email: string): map<Id, Invite> {
    map i | i in db.invites && db.invites[i].email != email :: db.invites[i]
  }

  function OtherOrgInvites(db: Db, email: string): map<Id, OrgInvite> {
    map i | i in db.orgInvites && db.orgInvites[i].email != email :: db.orgInvites[i]
  }

  lemma UpsertEffect(a: Slug.Alphabet, adminEmail: string, db: Db, g: Google, newId: Id, db1: Db)
    requires UpsertUser(a, adminEmail, db, g, UserWithSub(db, g.sub), newId) == Ok(db1)
    ensures var existing := UserWithSub(db, g.sub);
      var user := if existing.Some? then existing.value else newId;
      && db1 == db.(users := db1.users)
      && db1.users == db.users[user := db1.users[user]]
      && db1.users[user].email == g.email && db1.users[user].sub == g.sub && ClaimsTaken(db, db1.users[user], user, g)
      && (db1.users[user].platformAdmin <==> IsPlatformAdmin(db, user) || IsAdminEmail(a, adminEmail, g.email))
  {
  }

  /** The new membership is for a fresh organization, owned, or for the organization and role of a pending invitation. */
  ghost predicate MembershipGranted(db: Db, db': Db, email: string, m: Membership) {
    if OrgInvitesFor(db, email) != {} then
      && m.role == Owner && m.org !in db.orgs && m.org in db'.orgs
      && db'.orgs == db.orgs[m.org := db'.orgs[m.org]]
      && db'.orgs[m.org].slug !in Slugs(db)
      && exists i :: i in OrgInvitesFor(db, email) && db'.orgs[m.org].name == db.orgInvites[i].orgName
    else
      && db'.orgs == db.orgs
      && exists i :: i in InvitesFor(db, email) && m.org == db.invites[i].org && m.role == db.invites[i].role
  }

  lemma SlugsMember(db: Db, o: Id)
    requires o in db.orgs
    ensures db.orgs[o].slug in Slugs(db)
  {
  }

  /** Deleting the rows listed for an email leaves the rows of others. */
  lemma DroppedRows(db: Db, email: string, orgRows: seq<Id>, rows: seq<Id>)
    requires Listed(db, email, orgRows, rows)
    ensures Without(db.orgInvites, orgRows) == OtherOrgInvites(db, email)
    ensures Without(db.invites, rows) == OtherInvites(db, email)
  {
    assert forall i :: i in db.orgInvites ==> (i in orgRows <==> i in OrgInvitesFor(db, email));
    assert forall i :: i in db.invites ==> (i in rows <==> i in InvitesFor(db, email));
  }

  lemma WithoutFirst<T>(table: map<Id, T>, rows: seq<Id>)
    requires rows != []
    ensures Without(Without(table, [rows[0]]), rows[1..]) == Without(table, rows)
  {
    assert rows == [rows[0]] + rows[1..];
  }

  lemma RedeemOrgEffect(a: Slug.Alphabet, db: Db, user: Id, ids: Fresh, orgRows: seq<Id>, rows: seq<Id>, email: string)
    requires orgRows != [] && Listed(db, email, orgRows, rows)
    requires orgRows[0] in db.orgInvites && (rows != [] ==> rows[0] in db.invites)
    requires Redeem(a, db, user, ids, orgRows, rows).Ok?
    ensures var db' := Redeem(a, db, user, ids, orgRows, rows).value;
      && ids.member !in db.members
      && db'.members == db.members[ids.member := Membership(ids.org, user, Owner)]
      && ids.org !in db.orgs && ids.org in db'.orgs && db'.orgs == db.orgs[ids.org := db'.orgs[ids.org]]
      && db'.orgs[ids.org].name == db.orgInvites[orgRows[0]].orgName
      && Slug.UniqueSlug(a, Slugs(db), db.orgInvites[orgRows[0]].orgName, MAX_SLUG_ATTEMPTS)
         == Some(db'.orgs[ids.org].slug)
      && db'.users == db.users && db'.signups == db.signups
      && db'.invites == OtherInvites(db, email) && db'.orgInvites == OtherOrgInvites(db, email)
  {
    DroppedRows(db, email, orgRows, rows);
    WithoutFirst(db.orgInvites, orgRows);
  }

  lemma RedeemInviteEffect(a: Slug.Alphabet, db: Db, user: Id, ids: Fresh, rows: seq<Id>, email: string)
    requires rows != [] && Listed(db, email, [], rows)
    requires rows[0] in db.invites
    requires Redeem(a, db, user, ids, [], rows).Ok?
    ensures var db' := Redeem(a, db, user, ids, [], rows).value;
      && ids.member !in db.members
      && db'.members == db.members[ids.member := Membership(db.invites[rows[0]].org, user, db.invites[rows[0]].role)]
      && db'.users == db.users && db'.signups == db.signups && db'.orgs == db.orgs
      && db'.invites == OtherInvites(db, email) && db'.orgInvites == OtherOrgInvites(db, email)
  {
    DroppedRows(db, email, [], rows);
    WithoutFirst(db.invites, rows);
  }

  /** What Google gave, or else what was there: for a newcomer the email, and no picture. */
  ghost predicate ClaimsTaken(db: Db, after: User, user: Id, g: Google) {
    && (match g.name
        case Given(text) => after.name == text
        case Absent => after.name == if user in db.users then db.users[user].name else g.email
        case Null => false)
    && (match g.picture
        case Given(text) => after.avatar == Some(text)
        case Absent => after.avatar == if user in db.users then db.users[user].avatar else None
        case Null => after.avatar == None)
  }

  /** The login rewrites one profile: the visitor's. It becomes a platform admin's when the email is the
      configured one, and stays one. */
  ghost predicate ProfileWritten(a: Slug.Alphabet, adminEmail: string, db: Db, db': Db, user: Id, g: Google) {
    && user in db'.users && db'.users == db.users[user := db'.users[user]]
    && db'.users[user].email == g.email && db'.users[user].sub == g.sub && ClaimsTaken(db, db'.users[user], user, g)
    && (db'.users[user].platformAdmin <==> IsPlatformAdmin(db, user) || IsAdminEmail(a, adminEmail, g.email))
    && (user in db.users ==> db.users[user].sub == g.sub)
  }

  /** One membership more, and no invitation for the email any more. */
  ghost predicate Redeemed(db: Db, db': Db, user: Id, member: Id, email: string) {
    && member !in db.members && member in db'.members
    && db'.members == db.members[member := db'.members[member]]
    && db'.members[member].user == user
    && MembershipGranted(db, db', email, db'.members[member])
    && db'.invites == OtherInvites(db, email)
    && db'.orgInvites == OtherOrgInvites(db, email)
    && db'.signups == db.signups
  }

  /** Invitations and slugs do not depend on the profiles. */
  lemma SameTables(db: Db, db1: Db, email: string)
    requires db1 == db.(users := db1.users)
    ensures OrgInvitesFor(db1, email) == OrgInvitesFor(db, email) && InvitesFor(db1, email) == InvitesFor(db, email)
    ensures OtherInvites(db1, email) == OtherInvites(db, email) && OtherOrgInvites(db1, email) == OtherOrgInvites(db, email)
    ensures Slugs(db1) == Slugs(db)
  {
  }

  lemma FoundedEffect(a: Slug.Alphabet, db: Db, user: Id, ids: Fresh, orgRows: seq<Id>, rows: seq<Id>, email: string)
    requires orgRows != [] && Listed(db, email, orgRows, rows)
    requires orgRows[0] in db.orgInvites && (rows != [] ==> rows[0] in db.invites)
    requires Redeem(a, db, user, ids, orgRows, rows).Ok?
    ensures Redeemed(db, Redeem(a, db, user, ids, orgRows, rows).value, user, ids.member, email)
  {
    var db' := Redeem(a, db, user, ids, orgRows, rows).value;
    RedeemOrgEffect(a, db, user, ids, orgRows, rows, email);
    assert orgRows[0] in orgRows && orgRows[0] in OrgInvitesFor(db, email);
    FreshSlug(a, Slugs(db), db.orgInvites[orgRows[0]].orgName);
    assert db'.members[ids.member] == Membership(ids.org, user, Owner);
  }

  lemma JoinedEffect(a: Slug.Alphabet, db: Db, user: Id, ids: Fresh, rows: seq<Id>, email: string)
    requires rows != [] && Listed(db, email, [], rows)
    requires rows[0] in db.invites
    requires Redeem(a, db, user, ids, [], rows).Ok?
    ensures Redeemed(db, Redeem(a, db, user, ids, [], rows).value, user, ids.member, email)
  {
    RedeemInviteEffect(a, db, user, ids, rows, email);
    RowsEmpty([], OrgInvitesFor(db, email));
    assert rows[0] in rows && rows[0] in InvitesFor(db, email);
  }

  /** Redeeming does not depend on the profiles either. */
  lemma RedeemedSince(db: Db, db1: Db, db': Db, user: Id, member: Id, email: string)
    requires db1 == db.(users := db1.users) && Redeemed(db1, db', user, member, email)
    ensures Redeemed(db, db', user, member, email)
  {
    SameTables(db, db1, email);
  }

  lemma RedeemKeepsProfiles(a: Slug.Alphabet, db: Db, user: Id, ids: Fresh, orgRows: seq<Id>, rows: seq<Id>)
    requires orgRows != [] || rows != []
    requires orgRows != [] ==> orgRows[0] in db.orgInvites
    requires rows != [] ==> rows[0] in db.invites
    requires Redeem(a, db, user, ids, orgRows, rows).Ok?
    ensures Redeem(a, db, user, ids, orgRows, rows).value.users == db.users
  {
  }

  lemma RedeemedEffect(a: Slug.Alphabet, db: Db, db1: Db, user: Id, ids: Fresh, orgRows: seq<Id>, rows: seq<Id>, email: string)
    requires db1 == db.(users := db1.users) && Listed(db, email, orgRows, rows) && (orgRows != [] || rows != [])
    requires orgRows != [] ==> orgRows[0] in db.orgInvites
    requires rows != [] ==> rows[0] in db.invites
    requires Redeem(a, db1, user, ids, orgRows, rows).Ok?
    ensures Redeemed(db, Redeem(a, db1, user, ids, orgRows, rows).value, user, ids.member, email)
  {
    SameTables(db, db1, email);
    if orgRows != [] {
      FoundedEffect(a, db1, user, ids, orgRows, rows, email);
    } else {
      JoinedEffect(a, db1, user, ids, rows, email);
    }
    RedeemedSince(db, db1, Redeem(a, db1, user, ids, orgRows, rows).value, user, ids.member, email);
  }

  /** A committed login yields no membership exactly on the returning-user path, which touches only that
      user's profile; otherwise it adds one membership and spends every invitation for the email. */
  lemma LoginEffect(a: Slug.Alphabet, adminEmail: string, db: Db, g: Google, ids: Fresh, orgRows: seq<Id>, rows: seq<Id>)
    requires Wf(db) && Listed(db, g.email, orgRows, rows)
    requires Login(a, adminEmail, db, g, ids, orgRows, rows).Ok?
    ensures var r := Login(a, adminEmail, db, g, ids, orgRows, rows).value;
      && ProfileWritten(a, adminEmail, db, r.db, r.user, g)
      && (r.membership == None <==> UserWithSub(db, g.sub).Some? && OrgInvitesFor(db, g.email) == {})
      && (r.membership == None ==> r.db == db.(users := r.db.users))
      && (r.membership.Some? ==> Redeemed(db, r.db, r.user, r.membership.value, g.email))
  {
    var r := Login(a, adminEmail, db, g, ids, orgRows, rows).value;
    var db1 := LoginUnfolds(a, adminEmail, db, g, ids, orgRows, rows);
    UpsertEffect(a, adminEmail, db, g, ids.user, db1);
    UpsertsVisitor(a, adminEmail, db, g, ids.user, db1);
    RowsEmpty(orgRows, OrgInvitesFor(db, g.email));
    if r.membership.Some? {
      RedeemKeepsProfiles(a, db1, r.user, ids, orgRows, rows);
      RedeemedEffect(a, db, db1, r.user, ids, orgRows, rows, g.email);
    }
  }

  lemma UpsertsVisitor(a: Slug.Alphabet, adminEmail: string, db: Db, g: Google, newId: Id, db1: Db)
    requires UpsertUser(a, adminEmail, db, g, UserWithSub(db, g.sub), newId) == Ok(db1)
    ensures UserWithSub(db, g.sub).None? ==> newId !in db.users
  {
  }

  /** The same of a login as a request. */
  lemma LoginNext(a: Slug.Alphabet, db: Db, s: Step) returns (user: Id, member: Option<Id>)
    requires Wf(db) && s.LoginStep?
    ensures Apply(a, db, s).Err? ==> Next(a, db, s) == db
    ensures Apply(a, db, s).Ok? ==>
              && ProfileWritten(a, s.adminEmail, db, Next(a, db, s), user, s.g)
              && (member == None <==> UserWithSub(db, s.g.sub).Some? && OrgInvitesFor(db, s.g.email) == {})
              && (member == None ==> Next(a, db, s) == db.(users := Next(a, db, s).users))
              && (member.Some? ==> Redeemed(db, Next(a, db, s), user, member.value, s.g.email))
  {
    user, member := 0, None;
    if Apply(a, db, s).Ok? {
      LoginEffect(a, s.adminEmail, db, s.g, s.ids, s.orgRows, s.rows);
      var r := Login(a, s.adminEmail, db, s.g, s.ids, s.orgRows, s.rows).value;
      user, member := r.user, r.membership;
    }
  }

  lemma RowsEmpty(rows: seq<Id>, ids: set<Id>)
    requires Lists(rows, ids)
    ensures rows == [] <==> ids == {}
  {
    if rows != [] {
      assert rows[0] in ids;
    }
    if ids != {} {
      var i :| i in ids;
      assert i in rows;
    }
  }

  lemma FreshSlug(a: Slug.Alphabet, taken: set<string>, name: string)
    ensures var r := Slug.UniqueSlug(a, taken, name, MAX_SLUG_ATTEMPTS); r.Some? ==> r.value !in taken
  {
  }

  /** Nobody else has the email. */
  ghost predicate EmailFree(db: Db, g: Google) {
    forall k :: k in db.users && db.users[k].email == g.email ==> UserWithSub(db, g.sub) == Some(k)
  }

  ghost predicate HasMembership(db: Db, user: Id) {
    exists m :: m in db.members && db.members[m].user == user
  }

  /** The uuids the login would use are new. */
  predicate Unused(db: Db, ids: Fresh) {
    ids.user !in db.users && ids.org !in db.orgs && ids.member !in db.members
  }

  /** A free slug can be found for the invitation the login would redeem. */
  ghost predicate SlugAvailable(a: Slug.Alphabet, db: Db, orgRows: seq<Id>)
    requires forall r :: r in orgRows ==> r in db.orgInvites
  {
    orgRows != [] ==>
      assert orgRows[0] in orgRows;
      Slug.UniqueSlug(a, Slugs(db), db.orgInvites[orgRows[0]].orgName, MAX_SLUG_ATTEMPTS).Some?
  }

  /** With new uuids, a login commits exactly when nobody else has the email, the name is not null, the visitor
      is known or invited, and, if there is an organization to found, the visitor has none and a slug is free. */
  lemma LoginCommitsExactlyWhen(a: Slug.Alphabet, adminEmail: string, db: Db, g: Google, ids: Fresh,
                                orgRows: seq<Id>, rows: seq<Id>)
    requires Wf(db) && Listed(db, g.email, orgRows, rows) && Unused(db, ids)
    ensures Login(a, adminEmail, db, g, ids, orgRows, rows).Ok?
      <==> && EmailFree(db, g) && g.name != Null
           && (UserWithSub(db, g.sub).Some? || orgRows != [] || rows != [])
           && (UserWithSub(db, g.sub).Some? && orgRows != [] ==> !HasMembership(db, UserWithSub(db, g.sub).value))
           && SlugAvailable(a, db, orgRows)
  {
    var existing := UserWithSub(db, g.sub);
    UpsertCommitsExactlyWhen(a, adminEmail, db, g, ids.user);
    if EmailFree(db, g) && g.name != Null && (existing.None? || orgRows != []) && (orgRows != [] || rows != []) {
      RedeemCommitsExactlyWhen(a, adminEmail, db, g, ids, orgRows, rows);
    }
  }

  lemma RedeemCommitsExactlyWhen(a: Slug.Alphabet, adminEmail: string, db: Db, g: Google, ids: Fresh,
                                 orgRows: seq<Id>, rows: seq<Id>)
    requires Wf(db) && Listed(db, g.email, orgRows, rows) && Unused(db, ids)
    requires UpsertUser(a, adminEmail, db, g, UserWithSub(db, g.sub), ids.user).Ok?
    requires UserWithSub(db, g.sub).None? || orgRows != []
    requires orgRows != [] || rows != []
    ensures Login(a, adminEmail, db, g, ids, orgRows, rows).Ok?
      <==> && (UserWithSub(db, g.sub).Some? ==> !HasMembership(db, UserWithSub(db, g.sub).value))
           && SlugAvailable(a, db, orgRows)
  {
    var existing := UserWithSub(db, g.sub);
    var user := if existing.Some? then existing.value else ids.user;
    var db1 := UpsertUser(a, adminEmail, db, g, existing, ids.user).value;
    UpsertEffect(a, adminEmail, db, g, ids.user, db1);
    assert Slugs(db1) == Slugs(db);
    assert orgRows != [] ==> orgRows[0] in orgRows;
    assert rows != [] ==> rows[0] in rows;
    assert existing.None? ==> !HasMembership(db1, user);
    if orgRows != [] {
      RedeemOrgCommitsExactlyWhen(a, db1, user, ids, orgRows, rows);
    } else {
      RedeemInviteCommits(a, db1, user, ids, rows);
    }
  }

  lemma RedeemInviteCommits(a: Slug.Alphabet, db: Db, user: Id, ids: Fresh, rows: seq<Id>)
    requires rows != [] && rows[0] in db.invites && db.invites[rows[0]].org in db.orgs
    requires user in db.users && ids.member !in db.members && !HasMembership(db, user)
    ensures Redeem(a, db, user, ids, [], rows).Ok?
  {
  }

  lemma UpsertCommitsExactlyWhen(a: Slug.Alphabet, adminEmail: string, db: Db, g: Google, newId: Id)
    requires Wf(db) && newId !in db.users
    ensures UpsertUser(a, adminEmail, db, g, UserWithSub(db, g.sub), newId).Ok? <==> EmailFree(db, g) && g.name != Null
  {
  }

  lemma RedeemOrgCommitsExactlyWhen(a: Slug.Alphabet, db: Db, user: Id, ids: Fresh, orgRows: seq<Id>, rows: seq<Id>)
    requires OrgsWf(db) && ids.org !in db.orgs && ids.member !in db.members && user in db.users
    requires orgRows != [] && orgRows[0] in db.orgInvites && (rows != [] ==> rows[0] in db.invites)
    ensures Redeem(a, db, user, ids, orgRows, rows).Ok?
      <==> && Slug.UniqueSlug(a, Slugs(db), db.orgInvites[orgRows[0]].orgName, MAX_SLUG_ATTEMPTS).Some?
           && !HasMembership(db, user)
  {
    var slug := Slug.UniqueSlug(a, Slugs(db), db.orgInvites[orgRows[0]].orgName, MAX_SLUG_ATTEMPTS);
    if slug.Some? {
      FreshSlug(a, Slugs(db), db.orgInvites[orgRows[0]].orgName);
      var o := Org(db.orgInvites[orgRows[0]].orgName, slug.value);
      FreeSlugAddsOrg(db, ids.org, o);
      var db1 := db.(orgs := db.orgs[ids.org := o]);
      assert FoundOrg(db, orgRows[0], slug.value, user, ids).Ok? <==> !HasMembership(db, user);
    }
  }

  lemma FreeSlugAddsOrg(db: Db, id: Id, o: Org)
    requires id !in db.orgs && o.slug !in Slugs(db)
    ensures AddOrg(db, id, o) == Ok(db.(orgs := db.orgs[id := o]))
  {
    if k :| k in db.orgs && db.orgs[k].slug == o.slug {
      SlugsMember(db, k);
    }
  }

  /** A newcomer is turned away for want of an invitation exactly when nothing is pending for the email. */
  lemma StrangersAreTurnedAway(a: Slug.Alphabet, adminEmail: string, db: Db, g: Google, ids: Fresh,
                               orgRows: seq<Id>, rows: seq<Id>)
    requires Listed(db, g.email, orgRows, rows)
    ensures Login(a, adminEmail, db, g, ids, orgRows, rows) == Err(NoInvitation) <==>
              && (forall u :: u in db.users ==> db.users[u].sub != g.sub)
              && (forall i :: i in db.invites ==> db.invites[i].email != g.email)
              && (forall i :: i in db.orgInvites ==> db.orgInvites[i].email != g.email)
  {
    RowsEmpty(orgRows, OrgInvitesFor(db, g.email));
    RowsEmpty(rows, InvitesFor(db, g.email));
    NothingPending(db, g.email);
    RefusedForWantOfInvitation(a, adminEmail, db, g, ids, orgRows, rows);
  }

  lemma NothingPending(db: Db, email: string)
    ensures InvitesFor(db, email) == {} <==> forall i :: i in db.invites ==> db.invites[i].email != email
    ensures OrgInvitesFor(db, email) == {} <==> forall i :: i in db.orgInvites ==> db.orgInvites[i].email != email
  {
    if i :| i in db.invites && db.invites[i].email == email {
      assert i in InvitesFor(db, email);
    }
    if i :| i in db.orgInvites && db.orgInvites[i].email == email {
      assert i in OrgInvitesFor(db, email);
    }
  }

  lemma RefusedForWantOfInvitation(a: Slug.Alphabet, adminEmail: string, db: Db, g: Google, ids: Fresh,
                                   orgRows: seq<Id>, rows: seq<Id>)
    requires Listed(db, g.email, orgRows, rows)
    ensures Login(a, adminEmail, db, g, ids, orgRows, rows) == Err(NoInvitation) <==>
              UserWithSub(db, g.sub).None? && rows == [] && orgRows == []
  {
    assert orgRows != [] ==> orgRows[0] in orgRows;
    assert rows != [] ==> rows[0] in rows;
    var existing := UserWithSub(db, g.sub);
    var upserted := UpsertUser(a, adminEmail, db, g, existing, ids.user);
    if (orgRows != [] || rows != []) && upserted.Ok? {
      RedeemFailsOtherwise(a, upserted.value, if existing.Some? then existing.value else ids.user, ids, orgRows, rows);
    }
  }

  lemma RedeemFailsOtherwise(a: Slug.Alphabet, db: Db, user: Id, ids: Fresh, orgRows: seq<Id>, rows: seq<Id>)
    requires orgRows != [] || rows != []
    requires orgRows != [] ==> orgRows[0] in db.orgInvites
    requires rows != [] ==> rows[0] in db.invites
    ensures Redeem(a, db, user, ids, orgRows, rows) != Err(NoInvitation)
  {
  }

  /** With fewer than a hundred organizations a slug is always found. */
  lemma FewOrgsSlugAvailable(a: Slug.Alphabet, db: Db, name: string)
    requires |db.orgs| < 100
    ensures Slug.UniqueSlug(a, Slugs(db), name, MAX_SLUG_ATTEMPTS).Some?
  {
    SlugsCount(db, db.orgs.Keys);
    assert Slugs(db) == set o | o in db.orgs.Keys :: db.orgs[o].slug;
    Slug.SearchFailsOnlyWhenFull(a, Slugs(db), name, MAX_SLUG_ATTEMPTS);
  }

  /** And no more than a hundred candidates are tried. */
  lemma SlugSearchIsBounded(a: Slug.Alphabet, db: Db, row: Id, user: Id, ids: Fresh)
    requires row in db.orgInvites
    requires forall k :: 0 <= k < 100 ==> Slug.Candidate(Slug.Slugify(a, db.orgInvites[row].orgName), k) in Slugs(db)
    ensures AcceptOrgInvite(a, db, row, user, ids) == Err(SlugExhausted)
  {
    var slug := Slug.UniqueSlug(a, Slugs(db), db.orgInvites[row].orgName, MAX_SLUG_ATTEMPTS);
    assert slug.None?;
  }

  lemma {:induction false} SlugsCount(db: Db, keys: set<Id>)
    requires keys <= db.orgs.Keys
    ensures |set o | o in keys :: db.orgs[o].slug| <= |keys|
    decreases |keys|
  {
    var image := set o | o in keys :: db.orgs[o].slug;
    if image != {} {
      var s :| s in image;
      var k :| k in keys && db.orgs[k].slug == s;
      SlugsCount(db, keys - {k});
      assert image == (set o | o in keys - {k} :: db.orgs[o].slug) + {s};
    }
  }
}
