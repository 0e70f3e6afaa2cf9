/** The life of a signup request, over every run. */
module OrgSignups {
  import opened Wrappers
  import opened OrgModel
  import opened OrgConstraints
  import opened OrgLogin
  import Slug

  lemma LoginKeepsSignups(a: Slug.Alphabet, db: Db, s: Step)
    requires Wf(db) && s.LoginStep?
    ensures Next(a, db, s).signups == db.signups
    ensures forall i :: i in Next(a, db, s).orgInvites ==>
              i in db.orgInvites && Next(a, db, s).orgInvites[i] == db.orgInvites[i]
  {
    var user, member := LoginNext(a, db, s);
  }

  /** Nothing but a pending request's review may change. */
  predicate SameRequest(before: Signup, after: Signup) {
    && after == before.(status := after.status, reviewer := after.reviewer, reviewedAt := after.reviewedAt)
    && (before.status != Pending ==> after == before)
  }

  lemma ReviewKeepsRequest(a: Slug.Alphabet, db: Db, s: Step, id: Id)
    requires (s.ApproveStep? || s.RejectStep? || s.SubmitStep?) && id in db.signups
    ensures id in Next(a, db, s).signups && SameRequest(db.signups[id], Next(a, db, s).signups[id])
  {
  }

  /** What a request for an organization says never changes, and a review is never reopened. */
  lemma NextKeepsSignup(a: Slug.Alphabet, db: Db, s: Step, id: Id)
    requires Wf(db) && id in db.signups
    ensures id in Next(a, db, s).signups && SameRequest(db.signups[id], Next(a, db, s).signups[id])
  {
    if s.LoginStep? {
      LoginKeepsSignups(a, db, s);
    } else if s.ApproveStep? || s.RejectStep? || s.SubmitStep? {
      ReviewKeepsRequest(a, db, s, id);
    } else {
      NextFrame(a, db, s);
    }
  }

  lemma {:induction false} ReviewsAreFinal(a: Slug.Alphabet, db: Db, steps: seq<Step>, id: Id)
    requires Wf(db) && id in db.signups && db.signups[id].status != Pending
    ensures id in Exec(a, db, steps).signups && Exec(a, db, steps).signups[id] == db.signups[id]
    decreases |steps|
  {
    if steps != [] {
      NextWf(a, db, steps[0]);
      NextKeepsSignup(a, db, steps[0], id);
      ReviewsAreFinal(a, Next(a, db, steps[0]), steps[1..], id);
    }
  }

  /** The approved request behind an organization invitation says what the invitation says, signed by its reviewer. */
  ghost predicate Backed(db: Db, i: Id)
    requires i in db.orgInvites
  {
    && db.orgInvites[i].signup in db.signups
    && var s := db.signups[db.orgInvites[i].signup];
       s.status == Approved && s.email == db.orgInvites[i].email && s.orgName == db.orgInvites[i].orgName
       && s.reviewer == Some(db.orgInvites[i].invitedBy)
  }

  ghost predicate OrgInvitesApproved(db: Db) {
    forall i :: i in db.orgInvites ==> Backed(db, i)
  }

  lemma ApprovalIsBacked(a: Slug.Alphabet, db: Db, s: Step, i: Id)
    requires s.ApproveStep? && i in Next(a, db, s).orgInvites
    ensures || (i in db.orgInvites && Next(a, db, s).orgInvites[i] == db.orgInvites[i])
            || (&& Next(a, db, s).orgInvites[i].signup == s.signup
                && s.signup in db.signups && db.signups[s.signup].status == Pending
                && Backed(Next(a, db, s), i))
  {
  }

  /** A step that is no approval makes no organization invitation. */
  lemma OrgInvitesOnlyGo(a: Slug.Alphabet, db: Db, s: Step)
    requires Wf(db) && !s.ApproveStep?
    ensures forall i :: i in Next(a, db, s).orgInvites ==>
              i in db.orgInvites && Next(a, db, s).orgInvites[i] == db.orgInvites[i]
  {
    if s.LoginStep? {
      LoginKeepsSignups(a, db, s);
    } else {
      NextFrame(a, db, s);
    }
  }

  lemma NextApproved(a: Slug.Alphabet, db: Db, s: Step)
    requires Wf(db) && OrgInvitesApproved(db)
    ensures OrgInvitesApproved(Next(a, db, s))
  {
    var db' := Next(a, db, s);
    forall i | i in db'.orgInvites ensures Backed(db', i) {
      if s.ApproveStep? {
        ApprovalIsBacked(a, db, s, i);
      } else {
        OrgInvitesOnlyGo(a, db, s);
      }
      if i in db.orgInvites && db'.orgInvites[i] == db.orgInvites[i] {
        assert Backed(db, i);
        NextKeepsSignup(a, db, s, db.orgInvites[i].signup);
      }
    }
  }

  /** In every reachable state: one pending request per email, review fields set exactly when reviewed, and
      every organization invitation backed by its own approved request. */
  lemma {:induction false} ReachableSignups(a: Slug.Alphabet, db: Db, steps: seq<Step>)
    requires Wf(db) && OrgInvitesApproved(db)
    ensures var db' := Exec(a, db, steps);
      && OrgInvitesApproved(db')
      && (forall i, j :: i in db'.signups && j in db'.signups && i != j ==>
           !(db'.signups[i].status == Pending == db'.signups[j].status && db'.signups[i].email == db'.signups[j].email))
      && (forall i :: i in db'.signups ==>
           && (db'.signups[i].status != Pending <==> db'.signups[i].reviewer.Some?)
           && (db'.signups[i].status != Pending <==> db'.signups[i].reviewedAt.Some?))
      && (forall i, j :: i in db'.orgInvites && j in db'.orgInvites && i != j ==>
           db'.orgInvites[i].signup != db'.orgInvites[j].signup)
    decreases |steps|
  {
    if steps != [] {
      NextWf(a, db, steps[0]);
      NextApproved(a, db, steps[0]);
      ReachableSignups(a, Next(a, db, steps[0]), steps[1..]);
    }
  }

  /** The request creates an organization invitation for this signup. */
  ghost predicate Founds(a: Slug.Alphabet, db: Db, s: Step, id: Id) {
    var db' := Next(a, db, s);
    exists i :: i in db'.orgInvites && (i !in db.orgInvites || db'.orgInvites[i] != db.orgInvites[i])
                && db'.orgInvites[i].signup == id
  }

  lemma FoundsOnlyByApproval(a: Slug.Alphabet, db: Db, s: Step, id: Id)
    requires Wf(db)
    ensures Founds(a, db, s, id) ==>
              && id in db.signups && db.signups[id].status == Pending
              && id in Next(a, db, s).signups && Next(a, db, s).signups[id].status == Approved
  {
    if !s.ApproveStep? {
      OrgInvitesOnlyGo(a, db, s);
    } else if Founds(a, db, s, id) {
      var i :| i in Next(a, db, s).orgInvites && Next(a, db, s).orgInvites[i].signup == id
               && (i !in db.orgInvites || Next(a, db, s).orgInvites[i] != db.orgInvites[i]);
      ApprovalIsBacked(a, db, s, i);
    }
  }

  ghost function Foundings(a: Slug.Alphabet, db: Db, steps: seq<Step>, id: Id): nat
    decreases |steps|
  {
    if steps == [] then 0
    else (if Founds(a, db, steps[0], id) then 1 else 0) + Foundings(a, Next(a, db, steps[0]), steps[1..], id)
  }

  /** However long the run, a signup request gives rise to at most one organization invitation. */
  lemma {:induction false} AtMostOneFounding(a: Slug.Alphabet, db: Db, steps: seq<Step>, id: Id)
    requires Wf(db)
    ensures Foundings(a, db, steps, id) <= 1
    ensures id in db.signups && db.signups[id].status != Pending ==> Foundings(a, db, steps, id) == 0
    decreases |steps|
  {
    if steps != [] {
      NextWf(a, db, steps[0]);
      AtMostOneFounding(a, Next(a, db, steps[0]), steps[1..], id);
      if Founds(a, db, steps[0], id) {
        FoundsOnlyByApproval(a, db, steps[0], id);
      }
      if id in db.signups {
        NextKeepsSignup(a, db, steps[0], id);
      }
    }
  }
}
