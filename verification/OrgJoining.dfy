/**
 * Who can join an organization that exists. A login under a known Google subject never redeems a regular
 * invitation, so only people without a user row do: a member who was removed cannot be invited back.
 */
module OrgJoining {
  import opened Wrappers
  import opened OrgModel
  import opened OrgConstraints
  import opened OrgLogin
  import OrgClaims
  import Slug

  /** The membership's user and organization are known to the tables. */
  predicate Known(db: Db, m: Membership) {
    m.user in db.users && m.org in db.orgs
  }

  /** Row m is this user's membership in this organization. */
  predicate Holds(db: Db, m: Id, row: Membership) {
    m in db.members && db.members[m].user == row.user && db.members[m].org == row.org
  }

  lemma LoginJoins(a: Slug.Alphabet, db: Db, s: Step, m: Id)
    requires Wf(db) && s.LoginStep?
    ensures var db' := Next(a, db, s);
      m in db'.members && Known(db, db'.members[m]) ==> Holds(db, m, db'.members[m])
  {
    var user, member := LoginNext(a, db, s);
    if Apply(a, db, s).Ok? && member == Some(m) && user in db.users {
      assert OrgInvitesFor(db, s.g.email) != {};
    }
  }

  lemma MemberStepJoins(a: Slug.Alphabet, db: Db, s: Step, m: Id)
    requires s.RoleStep? || s.RemoveStep?
    ensures var db' := Next(a, db, s);
      m in db'.members ==> Holds(db, m, db'.members[m])
  {
  }

  /** One request: a membership of a registered user in an existing organization was there before. */
  lemma NextMember(a: Slug.Alphabet, db: Db, s: Step, m: Id)
    requires Wf(db)
    ensures var db' := Next(a, db, s);
      m in db'.members && Known(db, db'.members[m]) ==> Holds(db, m, db'.members[m])
  {
    if s.LoginStep? {
      LoginJoins(a, db, s, m);
    } else if s.RoleStep? || s.RemoveStep? {
      MemberStepJoins(a, db, s, m);
    } else {
      NextFrame(a, db, s);
    }
  }

  lemma UsersStay(a: Slug.Alphabet, db: Db, s: Step, u: Id)
    requires Wf(db) && u in db.users
    ensures u in Next(a, db, s).users && Next(a, db, s).users[u].sub == db.users[u].sub
  {
    if s.LoginStep? {
      var user, member := LoginNext(a, db, s);
    } else {
      NextFrame(a, db, s);
    }
  }

  /** Over any run, whoever is registered never joins an organization that exists: a membership they have in one
      at the end, they had at the start. */
  lemma {:induction false} TheRegisteredNeverJoin(a: Slug.Alphabet, db: Db, steps: seq<Step>, m: Id)
    requires Wf(db)
    ensures var db' := Exec(a, db, steps);
      m in db'.members && Known(db, db'.members[m]) ==> Holds(db, m, db'.members[m])
    decreases |steps|
  {
    var db' := Exec(a, db, steps);
    if steps != [] && m in db'.members && Known(db, db'.members[m]) {
      NextWf(a, db, steps[0]);
      UsersStay(a, db, steps[0], db'.members[m].user);
      OrgClaims.OrgsStay(a, db, steps[0], db'.members[m].org);
      TheRegisteredNeverJoin(a, Next(a, db, steps[0]), steps[1..], m);
      NextMember(a, db, steps[0], m);
    }
  }

  lemma Removed(a: Slug.Alphabet, db: Db, remove: Step, m: Id)
    requires Wf(db) && remove.RemoveStep? && remove.member in db.members
    ensures Apply(a, db, remove).Ok? ==> !Holds(Next(a, db, remove), m, db.members[remove.member])
    ensures Known(Next(a, db, remove), db.members[remove.member])
  {
    NextFrame(a, db, remove);
  }

  /** A removed member stays out of the organization for good, whatever invitations follow. */
  lemma RemovedForGood(a: Slug.Alphabet, db: Db, remove: Step, steps: seq<Step>, m: Id)
    requires Wf(db) && remove.RemoveStep? && remove.member in db.members
    ensures Apply(a, db, remove).Ok? ==>
              !Holds(Exec(a, Next(a, db, remove), steps), m, db.members[remove.member])
  {
    NextWf(a, db, remove);
    Removed(a, db, remove, m);
    TheRegisteredNeverJoin(a, Next(a, db, remove), steps, m);
  }
}
