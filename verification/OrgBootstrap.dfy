/** How a deployment starts: the seed organization, and its first owner. */
module OrgBootstrap {
  import opened Wrappers
  import opened OrgModel
  import opened OrgConstraints
  import opened OrgLogin
  import opened OrgPhases
  import OrgAdmins
  import Slug

  /** With an admin email and no organization, bootstrap commits into one organization and an invitation to own it;
      in every other case it changes nothing. */
  lemma BootstrapExactly(a: Slug.Alphabet, db: Db, s: Step)
    requires Wf(db) && s.BootstrapStep?
    ensures if s.adminEmail != "" && db.orgs == map[]
            then Apply(a, db, s) == Ok(db.(orgs := map[s.orgId := Org(s.orgName, Slug.Slugify(a, s.orgName))],
                                           invites := map[s.inviteId := Invite(s.orgId, s.adminEmail, Owner, None)]))
            else Apply(a, db, s) == Ok(db)
  {
    if db.orgs == map[] {
      NoOrgsNoInvites(db);
    } else {
      assert |db.orgs| > 0;
    }
  }

  lemma NoOrgsNoInvites(db: Db)
    requires InvitesWf(db) && db.orgs == map[]
    ensures db.invites == map[]
  {
    assert forall i :: i !in db.invites;
  }

  /** The first step of a deployment. */
  lemma BootstrapsFromNothing(a: Slug.Alphabet, db: Db, s: Step)
    requires Wf(db) && NothingYet(db) && s.BootstrapStep? && s.adminEmail != ""
    ensures Apply(a, db, s).Ok? && Bootstrapped(Next(a, db, s))
    ensures var db' := Next(a, db, s);
      && s.orgId in db'.orgs && db'.orgs[s.orgId] == Org(s.orgName, Slug.Slugify(a, s.orgName))
      && s.inviteId in db'.invites && db'.invites[s.inviteId].email == s.adminEmail
    ensures Slug.Lawful(a) ==> Slug.IsSlug(a, Next(a, db, s).orgs[s.orgId].slug)
  {
    BootstrapExactly(a, db, s);
    if Slug.Lawful(a) {
      Slug.SlugifyIsSlug(a, s.orgName);
    }
  }

  /** The admin's first login, under the email that was seeded. */
  function FirstLogin(seed: Step, g: Google, ids: Fresh): Step
    requires seed.BootstrapStep?
  {
    LoginStep(seed.adminEmail, g, ids, [], [seed.inviteId])
  }

  lemma SeedIsListed(a: Slug.Alphabet, db: Db, seed: Step, g: Google)
    requires Wf(db) && NothingYet(db) && seed.BootstrapStep? && seed.adminEmail != "" && g.email == seed.adminEmail
    ensures Listed(Next(a, db, seed), g.email, [], [seed.inviteId])
  {
    BootstrapExactly(a, db, seed);
    assert InvitesFor(Next(a, db, seed), g.email) == {seed.inviteId};
    assert OrgInvitesFor(Next(a, db, seed), g.email) == {};
  }

  lemma FirstLoginCommits(a: Slug.Alphabet, db: Db, seed: Step, g: Google, ids: Fresh)
    requires Wf(db) && NothingYet(db) && seed.BootstrapStep? && seed.adminEmail != ""
    requires g.email == seed.adminEmail && g.name != Null && ids.org != seed.orgId
    ensures Apply(a, Next(a, db, seed), FirstLogin(seed, g, ids)).Ok?
  {
    var db1 := Next(a, db, seed);
    BootstrapExactly(a, db, seed);
    SeedIsListed(a, db, seed, g);
    NextWf(a, db, seed);
    LoginCommitsExactlyWhen(a, seed.adminEmail, db1, g, ids, [], [seed.inviteId]);
  }

  lemma FirstMember(db1: Db, db': Db, u: Id, m: Id, seed: Step)
    requires seed.BootstrapStep? && db1.members == map[] && db1.orgInvites == map[] && db1.orgs.Keys == {seed.orgId}
    requires db1.invites == map[seed.inviteId := Invite(seed.orgId, seed.adminEmail, Owner, None)]
    requires Redeemed(db1, db', u, m, seed.adminEmail)
    ensures db'.members == map[m := Membership(seed.orgId, u, Owner)] && db'.orgs == db1.orgs && db'.invites == map[]
    ensures Running(db')
  {
    assert OrgInvitesFor(db1, seed.adminEmail) == {};
    assert db'.members[m] == Membership(seed.orgId, u, Owner);
    assert m in Owners(db', seed.orgId);
  }

  lemma FirstLoginEffect(a: Slug.Alphabet, db1: Db, seed: Step, g: Google, ids: Fresh) returns (m: Id, u: Id)
    requires seed.BootstrapStep? && seed.adminEmail != "" && g.email == seed.adminEmail
    requires Wf(db1) && db1.users == map[] && db1.members == map[] && db1.orgInvites == map[]
    requires db1.orgs.Keys == {seed.orgId}
    requires db1.invites == map[seed.inviteId := Invite(seed.orgId, seed.adminEmail, Owner, None)]
    requires Apply(a, db1, FirstLogin(seed, g, ids)).Ok?
    ensures var db' := Next(a, db1, FirstLogin(seed, g, ids));
      && Running(db') && db'.orgs.Keys == {seed.orgId} && db'.invites == map[]
      && db'.members == map[m := Membership(seed.orgId, u, Owner)]
      && u in db'.users && db'.users[u].sub == g.sub && db'.users[u].platformAdmin
  {
    var login := FirstLogin(seed, g, ids);
    var user, member := LoginNext(a, db1, login);
    u, m := user, member.value;
    FirstMember(db1, Next(a, db1, login), u, m, seed);
    OrgAdmins.ConfiguredEmailMakesAdmin(a, db1, login, u);
  }

  /** Bootstrap and the admin's first login always go through; then the organization runs, with the admin as its
      owner and as platform admin, and the invitation is spent. */
  lemma DeploymentStarts(a: Slug.Alphabet, db: Db, seed: Step, g: Google, ids: Fresh) returns (m: Id, u: Id)
    requires Wf(db) && NothingYet(db) && seed.BootstrapStep? && seed.adminEmail != ""
    requires g.email == seed.adminEmail && g.name != Null && ids.org != seed.orgId
    ensures Apply(a, db, seed).Ok? && Apply(a, Next(a, db, seed), FirstLogin(seed, g, ids)).Ok?
    ensures var db' := Next(a, Next(a, db, seed), FirstLogin(seed, g, ids));
      && Running(db') && db'.orgs.Keys == {seed.orgId} && db'.invites == map[]
      && db'.members == map[m := Membership(seed.orgId, u, Owner)]
      && u in db'.users && db'.users[u].sub == g.sub && db'.users[u].platformAdmin
  {
    BootstrapExactly(a, db, seed);
    FirstLoginCommits(a, db, seed, g, ids);
    NextWf(a, db, seed);
    m, u := FirstLoginEffect(a, Next(a, db, seed), seed, g, ids);
  }
}
