/**
 * The organization tables and what one request does to them.
 *
 * A request is one database transaction: it either yields new tables or fails and leaves the old
 * ones. Row ids stand for the uuids drawn by the request, so they are inputs; an id that is already
 * in use fails as a primary-key violation. So do all other declared constraints.
 */
module OrgModel {
  import opened Wrappers
  import Slug

  type Id = nat
  type Time = int

  datatype Role = Member | Admin | Owner

  /** `role_rank`. */
  function Rank(r: Role): nat {
    match r case Member => 0 case Admin => 1 case Owner => 2
  }

  datatype User = User(email: string, sub: string, name: string, avatar: Option<string>, platformAdmin: bool)
  datatype Org = Org(name: string, slug: string)
  datatype Membership = Membership(org: Id, user: Id, role: Role)
  datatype Invite = Invite(org: Id, email: string, role: Role, invitedBy: Option<Id>)
  datatype OrgInvite = OrgInvite(email: string, orgName: string, signup: Id, invitedBy: Id)
  datatype SignupStatus = Pending | Approved | Rejected
  datatype Signup = Signup(name: string, email: string, orgName: string, reason: string,
                           status: SignupStatus, reviewer: Option<Id>, reviewedAt: Option<Time>)

  datatype Db = Db(users: map<Id, User>, orgs: map<Id, Org>, members: map<Id, Membership>,
                   invites: map<Id, Invite>, orgInvites: map<Id, OrgInvite>, signups: map<Id, Signup>)

  const EMPTY := Db(map[], map[], map[], map[], map[], map[])

  datatype Failure = Constraint | NoInvitation | SlugExhausted | NotFound | Forbidden | LastOwner
                   | HasOrganization | DuplicateInvitation | AlreadyPending | AlreadyReviewed | NotListed

  /** An entry of the profile Google sends; one that is present may still be null. */
  datatype Claim = Absent | Null | Given(text: string)

  /** What Google says about who is logging in. */
  datatype Google = Google(sub: string, email: string, name: Claim, picture: Claim)

  // ----- Rows and the constraints the database checks -----

  predicate UserClash(db: Db, id: Id, u: User) {
    exists k :: k in db.users && k != id && (db.users[k].email == u.email || db.users[k].sub == u.sub)
  }

  function PutUser(db: Db, id: Id, u: User): Result<Db, Failure> {
    if UserClash(db, id, u) then Err(Constraint) else Ok(db.(users := db.users[id := u]))
  }

  function AddOrg(db: Db, id: Id, o: Org): Result<Db, Failure> {
    if id in db.orgs || exists k :: k in db.orgs && db.orgs[k].slug == o.slug then Err(Constraint)
    else Ok(db.(orgs := db.orgs[id := o]))
  }

  function AddMember(db: Db, id: Id, m: Membership): Result<Db, Failure> {
    if id in db.members || m.org !in db.orgs || m.user !in db.users
       || exists k :: k in db.members && db.members[k].user == m.user then Err(Constraint)
    else Ok(db.(members := db.members[id := m]))
  }

  function AddInvite(db: Db, id: Id, i: Invite): Result<Db, Failure> {
    if id in db.invites || i.org !in db.orgs || (i.invitedBy.Some? && i.invitedBy.value !in db.users)
       || exists k :: k in db.invites && db.invites[k].org == i.org && db.invites[k].email == i.email
    then Err(Constraint)
    else Ok(db.(invites := db.invites[id := i]))
  }

  function AddOrgInvite(db: Db, id: Id, i: OrgInvite): Result<Db, Failure> {
    if id in db.orgInvites || i.signup !in db.signups || i.invitedBy !in db.users
       || exists k :: k in db.orgInvites && db.orgInvites[k].signup == i.signup then Err(Constraint)
    else Ok(db.(orgInvites := db.orgInvites[id := i]))
  }

  predicate ReviewShape(s: Signup) {
    s.status == Pending <==> s.reviewer == None && s.reviewedAt == None
  }

  /** Both review fields are set, or neither is. */
  predicate ReviewFieldsAgree(s: Signup) {
    ReviewShape(s) && (s.reviewer.Some? <==> s.reviewedAt.Some?)
  }

  function PutSignup(db: Db, id: Id, s: Signup): Result<Db, Failure> {
    if !ReviewFieldsAgree(s) || (s.reviewer.Some? && s.reviewer.value !in db.users)
       || (s.status == Pending && exists k :: k in db.signups && k != id && db.signups[k].email == s.email
                                              && db.signups[k].status == Pending)
    then Err(Constraint)
    else Ok(db.(signups := db.signups[id := s]))
  }

  /** What every committed transaction leaves true: the declared unique, foreign-key and check constraints. */
  ghost predicate Wf(db: Db) {
    && UsersWf(db) && OrgsWf(db) && MembersWf(db) && InvitesWf(db) && OrgInvitesWf(db) && SignupsWf(db)
  }

  ghost predicate UsersWf(db: Db) {
    forall i, j :: i in db.users && j in db.users && i != j ==>
      db.users[i].email != db.users[j].email && db.users[i].sub != db.users[j].sub
  }

  ghost predicate OrgsWf(db: Db) {
    forall i, j :: i in db.orgs && j in db.orgs && i != j ==> db.orgs[i].slug != db.orgs[j].slug
  }

  ghost predicate MembersWf(db: Db) {
    && (forall m :: m in db.members ==> db.members[m].org in db.orgs && db.members[m].user in db.users)
    && (forall i, j :: i in db.members && j in db.members && i != j ==>
         db.members[i].user != db.members[j].user)
  }

  ghost predicate InvitesWf(db: Db) {
    && (forall i :: i in db.invites ==> db.invites[i].org in db.orgs)
    && (forall i :: i in db.invites && db.invites[i].invitedBy.Some? ==>
         db.invites[i].invitedBy.value in db.users)
    && (forall i, j :: i in db.invites && j in db.invites && i != j ==>
         db.invites[i].org != db.invites[j].org || db.invites[i].email != db.invites[j].email)
  }

  ghost predicate OrgInvitesWf(db: Db) {
    && (forall i :: i in db.orgInvites ==>
         db.orgInvites[i].signup in db.signups && db.orgInvites[i].invitedBy in db.users)
    && (forall i, j :: i in db.orgInvites && j in db.orgInvites && i != j ==>
         db.orgInvites[i].signup != db.orgInvites[j].signup)
  }

  ghost predicate SignupsWf(db: Db) {
    && (forall s :: s in db.signups ==> ReviewFieldsAgree(db.signups[s]))
    && (forall s :: s in db.signups && db.signups[s].reviewer.Some? ==>
         db.signups[s].reviewer.value in db.users)
    && (forall i, j :: i in db.signups && j in db.signups && i != j
                       && db.signups[i].status == Pending && db.signups[j].status == Pending ==>
         db.signups[i].email != db.signups[j].email)
  }

  // ----- Queries -----

  ghost function UserWithSub(db: Db, sub: string): (r: Option<Id>)
    ensures r.Some? ==> r.value in db.users && db.users[r.value].sub == sub
    ensures r.None? ==> forall k :: k in db.users ==> db.users[k].sub != sub
  {
    if exists k :: k in db.users && db.users[k].sub == sub
    then var k :| k in db.users && db.users[k].sub == sub; Some(k)
    else None
  }

  /** `has_membership_by_email`. */
  predicate HasMembershipByEmail(db: Db, email: string) {
    exists m :: m in db.members && db.members[m].user in db.users
                && db.users[db.members[m].user].email == email
  }

  function Owners(db: Db, org: Id): set<Id> {
    set m | m in db.members && db.members[m].org == org && db.members[m].role == Owner
  }

  function InvitesFor(db: Db, email: string): set<Id> {
    set i | i in db.invites && db.invites[i].email == email
  }

  function OrgInvitesFor(db: Db, email: string): set<Id> {
    set i | i in db.orgInvites && db.orgInvites[i].email == email
  }

  function Slugs(db: Db): set<string> {
    set o | o in db.orgs :: db.orgs[o].slug
  }

  /** A query without ORDER BY returns the matching rows in some order. */
  ghost predicate Lists(rows: seq<Id>, ids: set<Id>) {
    && (forall r :: r in rows <==> r in ids)
    && (forall i, j :: 0 <= i < j < |rows| ==> rows[i] != rows[j])
  }

  /** The results of a login's two invitation queries. */
  ghost predicate Listed(db: Db, email: string, orgRows: seq<Id>, rows: seq<Id>) {
    Lists(orgRows, OrgInvitesFor(db, email)) && Lists(rows, InvitesFor(db, email))
  }

  function Without<T>(table: map<Id, T>, rows: seq<Id>): map<Id, T> {
    table - (set r | r in rows)
  }

  // ----- Registration (`oopsie/auth.py`) -----

  /** The uuids one login may draw. */
  datatype Fresh = Fresh(user: Id, org: Id, member: Id)

  datatype LoggedIn = LoggedIn(db: Db, user: Id, membership: Option<Id>)

  predicate IsAdminEmail(a: Slug.Alphabet, adminEmail: string, email: string) {
    adminEmail != "" && a.lower(email) == a.lower(adminEmail)
  }

  /** `google_user_info.get(key, default)`. */
  function Get(claim: Claim, fallback: Option<string>): Option<string> {
    match claim
    case Absent => fallback
    case Null => None
    case Given(text) => Some(text)
  }

  /** None stands for the NOT NULL constraint on the name. */
  function NewProfile(g: Google): Option<User> {
    match Get(g.name, Some(g.email))
    case None => None
    case Some(name) => Some(User(g.email, g.sub, name, Get(g.picture, None), false))
  }

  function UpdatedProfile(u: User, g: Google): Option<User> {
    match Get(g.name, Some(u.name))
    case None => None
    case Some(name) => Some(User(g.email, u.sub, name, Get(g.picture, u.avatar), u.platformAdmin))
  }

  /** `upsert_user` followed by `_set_platform_admin_if_needed`. */
  function UpsertUser(a: Slug.Alphabet, adminEmail: string, db: Db, g: Google, existing: Option<Id>, newId: Id)
    : (r: Result<Db, Failure>)
    requires existing.Some? ==> existing.value in db.users
    ensures r.Ok? ==> r.value == db.(users := r.value.users)
  {
    var profile := if existing.Some? then UpdatedProfile(db.users[existing.value], g) else NewProfile(g);
    if profile.None? || (existing.None? && newId in db.users) then Err(Constraint)
    else
      PutUser(db, if existing.Some? then existing.value else newId,
              profile.value.(platformAdmin := profile.value.platformAdmin || IsAdminEmail(a, adminEmail, g.email)))
  }

  /** `accept_invitation`. */
  function AcceptInvite(db: Db, row: Id, user: Id, memberId: Id): (r: Result<Db, Failure>)
    requires row in db.invites
    ensures r.Ok? ==> r.value == db.(members := r.value.members, invites := r.value.invites)
  {
    var i := db.invites[row];
    match AddMember(db, memberId, Membership(i.org, user, i.role))
    case Err(e) => Err(e)
    case Ok(db1) => Ok(db1.(invites := Without(db1.invites, [row])))
  }

  const MAX_SLUG_ATTEMPTS := 100

  /** The organization, its first owner and the spent invitation, once the slug is known. */
  function FoundOrg(db: Db, row: Id, slug: string, user: Id, ids: Fresh): (r: Result<Db, Failure>)
    requires row in db.orgInvites
    ensures r.Ok? ==> r.value == db.(orgs := r.value.orgs, members := r.value.members, orgInvites := r.value.orgInvites)
  {
    match AddOrg(db, ids.org, Org(db.orgInvites[row].orgName, slug))
    case Err(e) => Err(e)
    case Ok(db1) =>
      match AddMember(db1, ids.member, Membership(ids.org, user, Owner))
      case Err(e) => Err(e)
      case Ok(db2) => Ok(db2.(orgInvites := Without(db2.orgInvites, [row])))
  }

  /** `accept_org_creation_invitation`. */
  function AcceptOrgInvite(a: Slug.Alphabet, db: Db, row: Id, user: Id, ids: Fresh): Result<Db, Failure>
    requires row in db.orgInvites
  {
    match Slug.UniqueSlug(a, Slugs(db), db.orgInvites[row].orgName, MAX_SLUG_ATTEMPTS)
    case None => Err(SlugExhausted)
    case Some(slug) => FoundOrg(db, row, slug, user, ids)
  }

  /** Accept the first org-creation invitation if there is one, else the first regular one; drop the rest. */
  function Redeem(a: Slug.Alphabet, db: Db, user: Id, ids: Fresh, orgRows: seq<Id>, rows: seq<Id>)
    : Result<Db, Failure>
    requires orgRows != [] || rows != []
    requires orgRows != [] ==> orgRows[0] in db.orgInvites
    requires rows != [] ==> rows[0] in db.invites
  {
    if orgRows != [] then
      match AcceptOrgInvite(a, db, orgRows[0], user, ids)
      case Err(e) => Err(e)
      case Ok(db1) => Ok(DropLeftovers(db1, orgRows[1..], rows))
    else
      match AcceptInvite(db, rows[0], user, ids.member)
      case Err(e) => Err(e)
      case Ok(db1) => Ok(DropLeftovers(db1, [], rows[1..]))
  }

  function DropLeftovers(db: Db, orgRows: seq<Id>, rows: seq<Id>): Db {
    db.(orgInvites := Without(db.orgInvites, orgRows), invites := Without(db.invites, rows))
  }

  /** `resolve_or_register_user`. */
  ghost function Login(a: Slug.Alphabet, adminEmail: string, db: Db, g: Google, ids: Fresh,
                       orgRows: seq<Id>, rows: seq<Id>): Result<LoggedIn, Failure>
    requires Listed(db, g.email, orgRows, rows)
  {
    var existing := UserWithSub(db, g.sub);
    var user := if existing.Some? then existing.value else ids.user;
    if existing.None? && rows == [] && orgRows == [] then Err(NoInvitation)
    else
      match UpsertUser(a, adminEmail, db, g, existing, ids.user)
      case Err(e) => Err(e)
      case Ok(db1) =>
        if existing.Some? && orgRows == [] then Ok(LoggedIn(db1, user, None))
        else
          assert orgRows != [] ==> orgRows[0] in orgRows;
          assert rows != [] ==> rows[0] in rows;
          match Redeem(a, db1, user, ids, orgRows, rows)
          case Err(e) => Err(e)
          case Ok(db2) => Ok(LoggedIn(db2, user, Some(ids.member)))
  }

  // ----- Bootstrap, invitations, members, signup requests -----

  /** `bootstrap_if_needed`. */
  function Bootstrap(a: Slug.Alphabet, db: Db, adminEmail: string, orgName: string, orgId: Id, inviteId: Id)
    : (r: Result<Db, Failure>)
    ensures r.Ok? ==> r.value == db.(orgs := r.value.orgs, invites := r.value.invites)
  {
    if adminEmail == "" || |db.orgs| > 0 then Ok(db)
    else
      match AddOrg(db, orgId, Org(orgName, Slug.Slugify(a, orgName)))
      case Err(e) => Err(e)
      case Ok(db1) =>
        if exists k :: k in db1.invites && db1.invites[k].org == orgId && db1.invites[k].email == adminEmail
        then Ok(db1)
        else AddInvite(db1, inviteId, Invite(orgId, adminEmail, Owner, None))
  }

  ghost function InviteOf(db: Db, org: Id, email: string): (r: Option<Id>)
    ensures r.Some? ==> r.value in db.invites && db.invites[r.value].org == org
                        && db.invites[r.value].email == email
    ensures r.None? ==> forall k :: k in db.invites ==> db.invites[k].org != org || db.invites[k].email != email
  {
    if exists k :: k in db.invites && db.invites[k].org == org && db.invites[k].email == email
    then var k :| k in db.invites && db.invites[k].org == org && db.invites[k].email == email; Some(k)
    else None
  }

  /** `create_invitation`. */
  ghost function CreateInvite(db: Db, id: Id, org: Id, email: string, role: Role,
                              invitedBy: Option<Id>, inviterRole: Option<Role>): (r: Result<Db, Failure>)
    ensures r.Ok? ==> r.value == db.(invites := r.value.invites)
  {
    if inviterRole.Some? && Rank(role) > Rank(inviterRole.value) then Err(Forbidden)
    else if HasMembershipByEmail(db, email) then Err(HasOrganization)
    else if exists k :: k in db.invites && db.invites[k].email == email && db.invites[k].org != org
    then Err(DuplicateInvitation)
    else if exists k :: k in db.orgInvites && db.orgInvites[k].email == email then Err(DuplicateInvitation)
    else
      match InviteOf(db, org, email)
      case Some(k) =>
        if invitedBy.Some? && invitedBy.value !in db.users then Err(Constraint)
        else Ok(db.(invites := db.invites[k := Invite(org, email, role, invitedBy)]))
      case None => AddInvite(db, id, Invite(org, email, role, invitedBy))
  }

  /** `revoke_invitation`. */
  function RevokeInvite(db: Db, id: Id, org: Id): (r: Result<Db, Failure>)
    ensures r.Ok? ==> r.value == db.(invites := r.value.invites)
  {
    if id !in db.invites || db.invites[id].org != org then Err(NotFound)
    else Ok(db.(invites := Without(db.invites, [id])))
  }

  /** `update_member_role`. */
  function UpdateRole(db: Db, id: Id, org: Id, newRole: Role, actorRole: Role): (r: Result<Db, Failure>)
    ensures r.Ok? ==> r.value == db.(members := r.value.members)
  {
    if id !in db.members || db.members[id].org != org then Err(NotFound)
    else if actorRole != Owner && Rank(actorRole) <= Rank(db.members[id].role) then Err(Forbidden)
    else if actorRole != Owner && Rank(actorRole) <= Rank(newRole) then Err(Forbidden)
    else if db.members[id].role == Owner && newRole != Owner && |Owners(db, org)| <= 1 then Err(LastOwner)
    else Ok(db.(members := db.members[id := db.members[id].(role := newRole)]))
  }

  /** `remove_member`. */
  function RemoveMember(db: Db, id: Id, org: Id, actorRole: Role): (r: Result<Db, Failure>)
    ensures r.Ok? ==> r.value == db.(members := r.value.members)
  {
    if id !in db.members || db.members[id].org != org then Err(NotFound)
    else if actorRole != Owner && Rank(actorRole) <= Rank(db.members[id].role) then Err(Forbidden)
    else if db.members[id].role == Owner && |Owners(db, org)| <= 1 then Err(LastOwner)
    else Ok(db.(members := Without(db.members, [id])))
  }

  /** `create_signup_request`. */
  function SubmitSignup(db: Db, id: Id, name: string, email: string, orgName: string, reason: string)
    : (r: Result<Db, Failure>)
    ensures r.Ok? ==> r.value == db.(signups := r.value.signups)
  {
    if HasMembershipByEmail(db, email) then Err(HasOrganization)
    else if exists k :: k in db.signups && db.signups[k].email == email && db.signups[k].status == Pending
    then Err(AlreadyPending)
    else if id in db.signups then Err(Constraint)
    else PutSignup(db, id, Signup(name, email, orgName, reason, Pending, None, None))
  }

  /** `approve_signup_request`. */
  function ApproveSignup(db: Db, id: Id, reviewer: Id, inviteId: Id, now: Time): (r: Result<Db, Failure>)
    ensures r.Ok? ==> r.value == db.(signups := r.value.signups, orgInvites := r.value.orgInvites)
  {
    if id !in db.signups then Err(NotFound)
    else
      var s := db.signups[id];
      if s.status != Pending then Err(AlreadyReviewed)
      else if HasMembershipByEmail(db, s.email) then Err(HasOrganization)
      else
        match PutSignup(db, id, s.(status := Approved, reviewer := Some(reviewer), reviewedAt := Some(now)))
        case Err(e) => Err(e)
        case Ok(db1) => AddOrgInvite(db1, inviteId, OrgInvite(s.email, s.orgName, id, reviewer))
  }

  /** `reject_signup_request`. */
  function RejectSignup(db: Db, id: Id, reviewer: Id, now: Time): (r: Result<Db, Failure>)
    ensures r.Ok? ==> r.value == db.(signups := r.value.signups)
  {
    if id !in db.signups then Err(NotFound)
    else
      var s := db.signups[id];
      if s.status != Pending then Err(AlreadyReviewed)
      else PutSignup(db, id, s.(status := Rejected, reviewer := Some(reviewer), reviewedAt := Some(now)))
  }

  // ----- Requests: route guards, then the service, as one transaction -----

  datatype Step =
    | BootstrapStep(adminEmail: string, orgName: string, orgId: Id, inviteId: Id)
    | LoginStep(adminEmail: string, g: Google, ids: Fresh, orgRows: seq<Id>, rows: seq<Id>)
    | InviteStep(actor: Id, slug: string, email: string, role: Role, newId: Id)
    | RevokeStep(actor: Id, slug: string, invite: Id)
    | RoleStep(actor: Id, slug: string, member: Id, newRole: Role)
    | RemoveStep(actor: Id, slug: string, member: Id)
    | SubmitStep(signup: Id, name: string, email: string, orgName: string, reason: string)
    | ApproveStep(actor: Id, signup: Id, newId: Id, now: Time)
    | RejectStep(actor: Id, signup: Id, now: Time)

  /** `get_authenticated_membership`: the actor's membership in the organization with this slug. */
  ghost function ActorMembership(db: Db, actor: Id, slug: string): (r: Option<Id>)
    ensures r.Some? ==> r.value in db.members && db.members[r.value].user == actor
                        && db.members[r.value].org in db.orgs && db.orgs[db.members[r.value].org].slug == slug
    ensures r.None? ==> forall m :: m in db.members ==>
                          !(db.members[m].user == actor && db.members[m].org in db.orgs
                            && db.orgs[db.members[m].org].slug == slug)
  {
    if exists m :: m in db.members && db.members[m].user == actor && db.members[m].org in db.orgs
                   && db.orgs[db.members[m].org].slug == slug
    then
      var m :| m in db.members && db.members[m].user == actor && db.members[m].org in db.orgs
               && db.orgs[db.members[m].org].slug == slug;
      Some(m)
    else None
  }

  /** `RequireRole(admin)`. */
  ghost function RequireAdmin(db: Db, actor: Id, slug: string): Option<Membership> {
    match ActorMembership(db, actor, slug)
    case None => None
    case Some(m) => if Rank(db.members[m].role) < Rank(Admin) then None else Some(db.members[m])
  }

  /** `require_platform_admin`. */
  predicate IsPlatformAdmin(db: Db, actor: Id) {
    actor in db.users && db.users[actor].platformAdmin
  }

  ghost function Apply(a: Slug.Alphabet, db: Db, s: Step): Result<Db, Failure> {
    match s
    case BootstrapStep(adminEmail, orgName, orgId, inviteId) =>
      Bootstrap(a, db, adminEmail, orgName, orgId, inviteId)
    case LoginStep(adminEmail, g, ids, orgRows, rows) =>
      if !Listed(db, g.email, orgRows, rows) then Err(NotListed)
      else
        (match Login(a, adminEmail, db, g, ids, orgRows, rows)
         case Err(e) => Err(e)
         case Ok(r) => Ok(r.db))
    case InviteStep(actor, slug, email, role, id) =>
      (match RequireAdmin(db, actor, slug)
       case None => Err(Forbidden)
       case Some(m) => CreateInvite(db, id, m.org, email, role, Some(m.user), Some(m.role)))
    case RevokeStep(actor, slug, id) =>
      (match RequireAdmin(db, actor, slug)
       case None => Err(Forbidden)
       case Some(m) => RevokeInvite(db, id, m.org))
    case RoleStep(actor, slug, id, newRole) =>
      (match RequireAdmin(db, actor, slug)
       case None => Err(Forbidden)
       case Some(m) => UpdateRole(db, id, m.org, newRole, m.role))
    case RemoveStep(actor, slug, id) =>
      (match RequireAdmin(db, actor, slug)
       case None => Err(Forbidden)
       case Some(m) => RemoveMember(db, id, m.org, m.role))
    case SubmitStep(id, name, email, orgName, reason) => SubmitSignup(db, id, name, email, orgName, reason)
    case ApproveStep(actor, id, inviteId, now) =>
      if !IsPlatformAdmin(db, actor) then Err(Forbidden) else ApproveSignup(db, id, actor, inviteId, now)
    case RejectStep(actor, id, now) =>
      if !IsPlatformAdmin(db, actor) then Err(Forbidden) else RejectSignup(db, id, actor, now)
  }

  /** A request that fails is rolled back. */
  ghost function Next(a: Slug.Alphabet, db: Db, s: Step): Db {
    match Apply(a, db, s) case Ok(db') => db' case Err(_) => db
  }

  ghost function Exec(a: Slug.Alphabet, db: Db, steps: seq<Step>): Db
    decreases |steps|
  {
    if steps == [] then db else Exec(a, Next(a, db, steps[0]), steps[1..])
  }
}
