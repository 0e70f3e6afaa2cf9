/** Who becomes a platform admin, on whom approvals rest. */
module OrgAdmins {
  import opened OrgModel
  import opened OrgConstraints
  import opened OrgLogin
  import OrgJoining
  import Slug

  /** A committed login of the subject under an email that matches the configured one. */
  ghost predicate AdminLogin(a: Slug.Alphabet, db: Db, s: Step, sub: string) {
    && s.LoginStep? && s.g.sub == sub && IsAdminEmail(a, s.adminEmail, s.g.email)
    && Apply(a, db, s).Ok?
  }

  ghost predicate LoggedInAsAdmin(a: Slug.Alphabet, db: Db, steps: seq<Step>, sub: string)
    decreases |steps|
  {
    && steps != []
    && (AdminLogin(a, db, steps[0], sub) || LoggedInAsAdmin(a, Next(a, db, steps[0]), steps[1..], sub))
  }

  /** One request makes a platform admin exactly by such a login, and unmakes none. */
  lemma NextAdmin(a: Slug.Alphabet, db: Db, s: Step, u: Id)
    requires Wf(db) && u in Next(a, db, s).users
    ensures IsPlatformAdmin(Next(a, db, s), u) <==>
              IsPlatformAdmin(db, u) || AdminLogin(a, db, s, Next(a, db, s).users[u].sub)
  {
    if s.LoginStep? {
      var user, member := LoginNext(a, db, s);
      if Apply(a, db, s).Ok? && u != user {
        NextWf(a, db, s);
        assert UsersWf(Next(a, db, s));
      }
    } else {
      NextFrame(a, db, s);
    }
  }

  lemma {:induction false} UsersStay(a: Slug.Alphabet, db: Db, steps: seq<Step>, u: Id)
    requires Wf(db) && u in db.users
    ensures u in Exec(a, db, steps).users && Exec(a, db, steps).users[u].sub == db.users[u].sub
    decreases |steps|
  {
    if steps != [] {
      NextWf(a, db, steps[0]);
      OrgJoining.UsersStay(a, db, steps[0], u);
      UsersStay(a, Next(a, db, steps[0]), steps[1..], u);
    }
  }

  /** A subject known before the run keeps its row. */
  lemma SameSubject(a: Slug.Alphabet, db: Db, steps: seq<Step>, u: Id, k: Id)
    requires Wf(db) && k in db.users && u in Exec(a, db, steps).users
    requires db.users[k].sub == Exec(a, db, steps).users[u].sub
    ensures k == u
  {
    UsersStay(a, db, steps, k);
    ExecWf(a, db, steps);
  }

  /** Over any run a user is a platform admin at the end exactly when they were at the start or logged in as the
      configured admin; nobody loses the flag. */
  lemma {:induction false} AdminsExactlyWhen(a: Slug.Alphabet, db: Db, steps: seq<Step>, u: Id)
    requires Wf(db)
    ensures u in Exec(a, db, steps).users ==>
              (IsPlatformAdmin(Exec(a, db, steps), u) <==>
               IsPlatformAdmin(db, u) || LoggedInAsAdmin(a, db, steps, Exec(a, db, steps).users[u].sub))
    decreases |steps|
  {
    if steps != [] && u in Exec(a, db, steps).users {
      var db1 := Next(a, db, steps[0]);
      var sub := Exec(a, db, steps).users[u].sub;
      NextWf(a, db, steps[0]);
      AdminsExactlyWhen(a, db1, steps[1..], u);
      if u in db1.users {
        UsersStay(a, db1, steps[1..], u);
        NextAdmin(a, db, steps[0], u);
      } else {
        NobodyYet(a, db, steps[0], steps[1..], u);
      }
    }
  }

  /** A user who is registered only later has not logged in before. */
  lemma NobodyYet(a: Slug.Alphabet, db: Db, s: Step, steps: seq<Step>, u: Id)
    requires Wf(db)
    ensures u !in Next(a, db, s).users && u in Exec(a, Next(a, db, s), steps).users ==>
              u !in db.users && !AdminLogin(a, db, s, Exec(a, Next(a, db, s), steps).users[u].sub)
  {
    NextWf(a, db, s);
    if u in db.users {
      OrgJoining.UsersStay(a, db, s, u);
    }
    if u in Exec(a, Next(a, db, s), steps).users && AdminLogin(a, db, s, Exec(a, Next(a, db, s), steps).users[u].sub) {
      var user, member := LoginNext(a, db, s);
      SameSubject(a, Next(a, db, s), steps, u, user);
    }
  }

  /** From an empty database the platform admins are those who logged in as the configured admin. */
  lemma AdminsLoggedIn(a: Slug.Alphabet, steps: seq<Step>, u: Id)
    requires u in Exec(a, EMPTY, steps).users
    ensures IsPlatformAdmin(Exec(a, EMPTY, steps), u) <==>
              LoggedInAsAdmin(a, EMPTY, steps, Exec(a, EMPTY, steps).users[u].sub)
  {
    AdminsExactlyWhen(a, EMPTY, steps, u);
  }

  // ----- Which emails match -----

  /** Without a configured admin email nobody becomes a platform admin. */
  lemma {:induction false} NoAdminConfigured(a: Slug.Alphabet, db: Db, steps: seq<Step>, u: Id)
    requires Wf(db)
    requires forall s :: s in steps && s.LoginStep? ==> s.adminEmail == ""
    requires forall k :: k in db.users ==> !db.users[k].platformAdmin
    ensures u in Exec(a, db, steps).users ==> !Exec(a, db, steps).users[u].platformAdmin
    decreases |steps|
  {
    if steps != [] {
      NextWf(a, db, steps[0]);
      assert steps[0] in steps && forall s :: s in steps[1..] ==> s in steps;
      forall k | k in Next(a, db, steps[0]).users ensures !Next(a, db, steps[0]).users[k].platformAdmin {
        NextAdmin(a, db, steps[0], k);
      }
      NoAdminConfigured(a, Next(a, db, steps[0]), steps[1..], u);
    }
  }

  /** A committed login under an email with the lower case of the configured one makes its user a platform admin;
      one under an email with another lower case changes nobody's flag. */
  lemma AdminLoginExactlyWhen(a: Slug.Alphabet, db: Db, s: Step, u: Id)
    requires Wf(db) && s.LoginStep? && Apply(a, db, s).Ok? && u in Next(a, db, s).users
    ensures s.adminEmail != "" && a.lower(s.g.email) == a.lower(s.adminEmail) && Next(a, db, s).users[u].sub == s.g.sub ==>
              Next(a, db, s).users[u].platformAdmin
    ensures s.adminEmail == "" || a.lower(s.g.email) != a.lower(s.adminEmail) ==>
              (Next(a, db, s).users[u].platformAdmin <==> u in db.users && db.users[u].platformAdmin)
  {
    NextAdmin(a, db, s, u);
  }

  /** A committed login under exactly the configured email always does. */
  lemma ConfiguredEmailMakesAdmin(a: Slug.Alphabet, db: Db, s: Step, u: Id)
    requires Wf(db) && s.LoginStep? && s.adminEmail != "" && s.g.email == s.adminEmail
    ensures Apply(a, db, s).Ok? && u in Next(a, db, s).users && Next(a, db, s).users[u].sub == s.g.sub ==>
              Next(a, db, s).users[u].platformAdmin
  {
    if Apply(a, db, s).Ok? && u in Next(a, db, s).users {
      AdminLoginExactlyWhen(a, db, s, u);
    }
  }

  /** The same character, or the two cases of one ASCII letter. */
  predicate SameLetter(c: char, d: char) {
    || c == d
    || ('A' <= c <= 'Z' && d as int == c as int + 32)
    || ('A' <= d <= 'Z' && c as int == d as int + 32)
  }

  /** The two texts differ at most in the case of ASCII letters. */
  predicate SameButCase(x: string, y: string) {
    |x| == |y| && forall i :: 0 <= i < |x| ==> SameLetter(x[i], y[i])
  }

  lemma SameButCaseStep(x: string, y: string)
    requires x != "" && y != ""
    ensures SameButCase(x, y) <==> SameLetter(x[0], y[0]) && SameButCase(x[1..], y[1..])
  {
    if SameButCase(x[1..], y[1..]) {
      assert forall i :: 1 <= i < |x| ==> x[i] == x[1..][i - 1] && y[i] == y[1..][i - 1];
    }
  }

  lemma AsciiLetter(c: char, d: char)
    ensures Slug.AsciiLowerChar(c) == Slug.AsciiLowerChar(d) <==> SameLetter(c, d)
  {
  }

  lemma {:induction false} AsciiCaseDoesNotMatter(x: string, y: string)
    ensures Slug.AsciiLower(x) == Slug.AsciiLower(y) <==> SameButCase(x, y)
  {
    if x != "" && y != "" {
      SameButCaseStep(x, y);
      AsciiLetter(x[0], y[0]);
      AsciiCaseDoesNotMatter(x[1..], y[1..]);
      assert Slug.AsciiLower(x)[1..] == Slug.AsciiLower(x[1..]) && Slug.AsciiLower(y)[1..] == Slug.AsciiLower(y[1..]);
    }
  }

  /** For ASCII emails: a login makes its user a platform admin, or leaves the flag as it was, by whether its email
      is the configured one up to the case of letters. */
  lemma AsciiAdmins(db: Db, s: Step, u: Id)
    requires Wf(db) && s.LoginStep? && Apply(Slug.ASCII, db, s).Ok? && u in Next(Slug.ASCII, db, s).users
    requires Next(Slug.ASCII, db, s).users[u].sub == s.g.sub
    ensures Next(Slug.ASCII, db, s).users[u].platformAdmin <==>
              || (u in db.users && db.users[u].platformAdmin)
              || (s.adminEmail != "" && SameButCase(s.g.email, s.adminEmail))
  {
    AdminLoginExactlyWhen(Slug.ASCII, db, s, u);
    AsciiCaseDoesNotMatter(s.g.email, s.adminEmail);
  }
}
