# A verified model of Oopsie's service layer

Oopsie collects error reports from applications, groups them, and lets a background worker open pull
requests that fix them. Its hard guarantees are not in any one function: they live in how transactions over
several tables, written in different files, keep joint invariants. This project models those transactions in
Dafny and proves what every run of them keeps.

Verify it with `dafny verify dfyconfig.toml`.

## How the model is built

- Tables are maps from row ids to rows. A request is one transaction: it yields new tables or fails and leaves
  the old ones. Unique, foreign-key and check constraints are part of the row operations; violating one is a
  failure. Row ids stand for the uuids a request draws, so they are inputs; so are clocks, the rows' order in
  an unordered query, and everything the outside world answers.
- Code that changes rows in place is a class whose methods run statement by statement (`OrgStore.Store`,
  `FixStore.Store`, `Ingestion.Store`, `Sessions.SessionStore`). Each method is proved equal to a function on
  table values, and the invariants are proved about those functions, over sequences of requests of any length.
- Where several transactions of one operation interleave with the rest of the system (the fix pipeline,
  ingestion), each transaction is its own step and each job or request has a program counter.

| files | what they hold |
|---|---|
| `Wrappers.dfy`, `Sets.dfy`, `Text.dfy` | options and results; counting; Python's `strip` and decimal formatting |
| `Slug.dfy` | the slug normal form and the bounded search for a free slug |
| `OrgModel.dfy`, `OrgStore.dfy` | users, organizations, memberships, invitations and signup requests; the services in place |
| `OrgConstraints.dfy`, `OrgLogin.dfy`, `OrgPhases.dfy`, `OrgSingle.dfy`, `OrgClaims.dfy`, `OrgSignups.dfy`, `OrgHierarchy.dfy`, `OrgJoining.dfy`, `OrgInvitations.dfy`, `OrgAdmins.dfy`, `OrgBootstrap.dfy`, `OrgFounding.dfy` | what single requests do, and what all runs keep |
| `FixModel.dfy`, `FixStore.dfy`, `FixProofs.dfy`, `FixRuns.dfy`, `FixGuards.dfy` | the fix pipeline as an interleaved protocol, and `run` in place |
| `FixStatus.dfy`, `Paging.dfy` | the batch status lookup and the pages of the error list |
| `Fingerprint.dfy`, `Ingestion.dfy`, `IngestionLog.dfy`, `IngestionRaces.dfy` | deduplication of reports, atomic and interleaved |
| `ClaudeStream.dfy` | the fold over the agent's message stream |
| `Sessions.dfy` | sliding-window sessions against an event log |

## Where the code does not do what one might expect

- Single organization per person holds only while each Google subject keeps its email
  (`OrgSingle.RegistrationNeverClashes`). A member who returns under an email with a pending invitation breaks
  it, and that is the only way a login can (`OrgSingle.LoginKeepsNothingPendingExactlyWhen`); two requests do it
  from any state with an admin (`OrgSingle.DriftingEmailBreaksTheRule`).
- A returning user never redeems a regular invitation, so whoever has a user row never joins an existing
  organization, and a removed member stays out of it for good (`OrgJoining`).
- When several approved signup requests for one email name different organizations, which one a login founds
  depends on the order of an unordered query (`OrgClaims.FoundingLoginIgnoresRowOrderExactlyWhen`). Two rounds of
  submitting and approving lead there from any reachable state (`OrgFounding.TwoApprovalsDependOnRowOrder`).
- `enqueue_fix_job` says it deduplicates by error but passes no job id, and nothing asks
  `has_active_fix_attempt`: attempts at one error overlap exactly when a job loads the error while another
  attempt is active (`FixRuns.OverlapsExactlyWhen`). The model lets the queue deliver a request any number of
  times, and two deliveries are enough (`FixRuns.TwoDeliveriesOverlap`).
- The fingerprint separates fields by newlines; it can confuse two reports exactly when a class or message
  contains one (`Fingerprint.AmbiguousExactlyWhen`).
- Concurrent reports of one error can lose increments, and a lost one never comes back: over any run a row's count
  is right exactly when no request ever wrote over a count it had not seen (`IngestionRaces.ExactExactlyWhen`).
- The batch status lookup can differ from the one-error lookup exactly when the latest attempts share a time
  but not a status (`FixStatus.BatchIsNaiveExactlyWhen`).

## Model

| member | source | states |
|---|---|---|
| Slug.SlugifyJoinsWords | oopsie/utils/slug.py:12-18 | the pipeline of regular expressions equals joining the words of the cleaned text by single hyphens, or "default" when there are none |
| Slug.KeepsExactly | oopsie/utils/slug.py:15 | exactly the word characters, the white space and the hyphens survive the first substitution, in their order |
| Slug.TwoWordsOneHyphen | oopsie/utils/slug.py:16 | two words with any white space, underscores or hyphens between them become the two words with one hyphen |
| Text.SpacesAre | oopsie/utils/slug.py:14 | white space is Python's, code point by code point |
| Slug.SlugifyIsSlug | oopsie/utils/slug.py:12-18 | a slug is never empty, has no leading, trailing or doubled hyphen, and only lower-case word characters and hyphens |
| Slug.SlugsAreFixedPoints | oopsie/utils/slug.py:12-18 | the texts slugify leaves alone are exactly those in normal form |
| Slug.SlugifyIdempotent | oopsie/utils/slug.py:12-18 | slugify applied twice is slugify, for every alphabet whose lower-casing leaves lower case |
| Slug.AsciiSlugs | oopsie/utils/slug.py:12-18 | for ASCII names nothing is assumed: the result is in normal form and slugify leaves it alone |
| Slug.AsciiTwoWords | oopsie/utils/slug.py:15-16 | for ASCII, letters and digits make words, and blanks, underscores and hyphens separate them |
| Slug.AsciiIgnoresCase | oopsie/utils/slug.py:14 | for ASCII, case does not matter |
| Slug.CandidatesAre | oopsie/utils/slug.py:25-41 | the first try is the base, the second base-2, the k-th after the first appends the numeral of k + 1 without leading zeros |
| Slug.CandidatesDistinct | oopsie/utils/slug.py:25-41 | base, base-2, base-3, … never repeat |
| Slug.GenerateUniqueSlug | oopsie/utils/slug.py:21-44 | the loop returns the first free candidate among the first max_attempts, and fails only when all are taken |
| Slug.SearchFailsOnlyWhenFull | oopsie/utils/slug.py:27-44 | the search fails exactly when all max_attempts candidates are taken, so never with fewer organizations than attempts |
| Slug.UniqueSlugIsSlug | oopsie/utils/slug.py:25-41 | whichever candidate is chosen, it is in normal form |
| OrgStore.Store.UpsertUser | oopsie/auth.py:45-79 | the profile written in place is the one of the specification; a taken email fails |
| OrgStore.Store.AcceptInvite | oopsie/auth.py:96-121 | the invitation's organization and role become a membership and the row goes |
| OrgStore.Store.AcceptOrgInvite | oopsie/auth.py:136-177 | a new organization under the first free slug with the user as owner, and the row goes |
| OrgStore.Store.ResolveOrRegister | oopsie/auth.py:180-268 | the whole login, with its loops over leftover invitations, does what the login function says |
| OrgStore.Store.Bootstrap | oopsie/services/bootstrap_service.py:18-70 | the seed organization and owner invitation, only when an admin email is set and no organization exists |
| OrgStore.Store.CreateInvite | oopsie/services/invitation_service.py:16-94 | the guards in their order, then an update of the existing row or an insert |
| OrgStore.Store.RevokeInvite | oopsie/services/invitation_service.py:110-135 | deletes the invitation of this organization, or reports it missing |
| OrgStore.Store.UpdateMemberRole | oopsie/services/membership_service.py:53-105 | the role hierarchy and the last-owner guard before the role is assigned |
| OrgStore.Store.RemoveMember | oopsie/services/membership_service.py:108-149 | the role hierarchy and the last-owner guard before the row is deleted |
| OrgStore.Store.SubmitSignup | oopsie/services/signup_request_service.py:17-56 | a pending request, unless the author has an organization or one is pending |
| OrgStore.Store.ApproveSignup | oopsie/services/signup_request_service.py:79-130 | settles a pending request and inserts the organization invitation |
| OrgStore.Store.RejectSignup | oopsie/services/signup_request_service.py:133-169 | settles a pending request |
| OrgStore.Store.MemberRequest | oopsie/routers/dependencies.py:200-236 | the member routes run their service only for an admin or owner of the organization in the path, in that organization and with that role |
| OrgStore.Store.Request | oopsie/database.py:53-65 | any request either commits what its service did or leaves every table as it was |
| OrgConstraints.NextWf | oopsie/models/membership.py:31-34 | every request keeps all unique, foreign-key and check constraints |
| OrgConstraints.ExecWf | oopsie/models/signup_request.py:26-42 | over any run the constraints hold |
| OrgConstraints.NextFrame | oopsie/routers/web/members.py:19-120 | which tables each kind of request can touch |
| OrgLogin.LoginEffect | oopsie/auth.py:206-275 | a committed login rewrites only the visitor's profile: email, the name and picture Google gave or else what was there, and the admin flag, set by a matching email and never lost; it yields no membership exactly on the returning-user path and then changes nothing else; otherwise it adds exactly one membership as the invitations say and spends every invitation of both kinds for the email, leaving all other rows alone |
| OrgLogin.LoginCommitsExactlyWhen | oopsie/auth.py:180-268 | with new uuids a login commits exactly when the email is nobody else's, the name is not null, the visitor is known or invited, and, if there is an organization to found, the visitor has none and a slug is free |
| OrgLogin.StrangersAreTurnedAway | oopsie/auth.py:222-224 | a visitor is refused for want of an invitation exactly when the subject is unknown and nothing of either kind is pending for the email |
| OrgLogin.FewOrgsSlugAvailable | oopsie/utils/slug.py:21-44 | with fewer than a hundred organizations a slug is always free |
| OrgLogin.SlugSearchIsBounded | oopsie/utils/slug.py:21-44 | when the first hundred candidates are taken, founding fails |
| OrgPhases.EveryOrganizationKeepsAnOwner | oopsie/services/membership_service.py:88-92 | from an empty database every run is in one of three phases: nothing registered, the bootstrap invitation waiting, or every organization has an owner; and the last phase is never left |
| OrgBootstrap.BootstrapExactly | oopsie/services/bootstrap_service.py:18-70 | with an admin email and no organization, bootstrap commits into exactly one organization, with the given name and its slug, and one invitation to own it; in every other case it changes nothing |
| OrgBootstrap.BootstrapsFromNothing | oopsie/services/bootstrap_service.py:29-62 | from an empty deployment bootstrap always commits into the second phase, with the organization's slug in normal form and the configured email invited |
| OrgBootstrap.DeploymentStarts | oopsie/auth.py:211-266 | bootstrap and then the admin's first login always go through; the organization then runs with the admin as its owner and platform admin, and the invitation is spent |
| OrgPhases.NextPhase | oopsie/services/bootstrap_service.py:29-63 | each request under its route guard keeps or advances the phase |
| OrgPhases.LastOwnerGuardIsExact | oopsie/services/membership_service.py:136-140 | an owner may demote or remove an owner exactly when somebody else owns the organization too |
| OrgPhases.UpdateRoleOwners | oopsie/services/membership_service.py:53-105 | the owners of every organization after a role change |
| OrgPhases.ReachableSlugs | oopsie/services/bootstrap_service.py:38-42 | in every reachable state organizations' slugs are distinct and in normal form |
| OrgSingle.LoginKeepsNothingPendingExactlyWhen | oopsie/auth.py:211-217 | a login leaves something pending for a member exactly when a member returns under an email with only regular invitations |
| OrgSingle.MemberWithOrgInviteIsLockedOut | oopsie/auth.py:206-241 | a member whose email has an organization invitation cannot log in: the second membership is refused |
| OrgSingle.ExecSteady | oopsie/services/invitation_service.py:35-58 | over any run where emails follow subjects, no member's email has a pending invitation of either kind |
| OrgSingle.RegistrationNeverClashes | oopsie/models/membership.py:33 | in such a run the next login never meets the one-membership-per-user constraint, and commits exactly when the remaining conditions hold |
| OrgSingle.DriftingEmailBreaksTheRule | oopsie/auth.py:62-76 | two requests that break the rule when a subject's email changes |
| OrgSingle.CreateInviteTouchesOneEmail | oopsie/services/invitation_service.py:31-85 | an invitation goes only to an outsider with nothing pending elsewhere and changes one row |
| OrgClaims.ReachableOneInvite | oopsie/services/invitation_service.py:39-85 | in every reachable state an email has at most one regular invitation across all organizations, to an organization that exists |
| OrgClaims.RegularLoginIgnoresRowOrder | oopsie/auth.py:88-93 | with no organization invitation pending, the login's result does not depend on the order of rows |
| OrgClaims.FoundingLoginIgnoresRowOrderExactlyWhen | oopsie/auth.py:232-247 | a founding login is independent of row order exactly when all organization invitations for the email name one organization |
| OrgClaims.NextClaims | oopsie/auth.py:96-121 | owners plus pending owner invitations of an existing organization grow only by an owner's own invitation or role change, and then by at most one |
| OrgClaims.OwnershipIsHandedOutByOwners | oopsie/services/invitation_service.py:32-33 | over any run that total grows by no more than the number of such actions |
| OrgSignups.NextKeepsSignup | oopsie/services/signup_request_service.py:100-108 | no request changes the name, email, organization name or reason of a signup request, or a review once made |
| OrgSignups.ReviewsAreFinal | oopsie/services/signup_request_service.py:146-161 | approved and rejected are final over any run |
| OrgSignups.ReachableSignups | oopsie/models/signup_request.py:26-42 | one pending request per email, review fields set exactly when reviewed, each organization invitation backed by its own approved request |
| OrgSignups.AtMostOneFounding | oopsie/models/org_creation_invitation.py:20-31 | over any run a signup request gives rise to at most one organization invitation |
| OrgHierarchy.GuardExactlyWhen | oopsie/routers/dependencies.py:200-236 | the guard of the member routes lets in exactly whoever has a membership as admin or owner in the organization of the path |
| OrgHierarchy.OthersAreForbidden | oopsie/routers/web/members.py:22 | plain members and outsiders are refused by every member route, and nothing changes |
| OrgHierarchy.MembersChangeOnlyFromAbove | oopsie/services/membership_service.py:75-86 | over any run a membership stays as it is unless somebody of its organization who stands above it acts on it |
| OrgHierarchy.RoleChangesExactlyWhen | oopsie/services/membership_service.py:68-95 | when exactly role changes and removals go through, by a table over the three roles (owners over all, admins over plain members) and the owners there are, and what they change |
| OrgHierarchy.InvitesExactlyWhen | oopsie/services/invitation_service.py:31-94 | when exactly an invitation goes through (owners may invite as anything, admins not as owner); it is then the only one its email has |
| OrgHierarchy.ApprovesExactlyWhen | oopsie/routers/dependencies.py:239-249 | when exactly an approval goes through, and the request and invitation it leaves |
| OrgHierarchy.SubmitsExactlyWhen | oopsie/services/signup_request_service.py:31-56 | when exactly a signup request is accepted, and the row it leaves |
| OrgHierarchy.RejectsExactlyWhen | oopsie/services/signup_request_service.py:133-169 | when exactly a rejection goes through; it settles that request and its author may ask again |
| OrgHierarchy.RevokesExactlyWhen | oopsie/services/invitation_service.py:110-135 | when exactly a revocation goes through; in reachable states nothing regular is pending for the email afterwards |
| OrgHierarchy.OutsidersMayAsk | oopsie/services/membership_service.py:14-24 | whoever has no membership may ask for an organization, registered or not |
| OrgHierarchy.RemovedMayAsk | oopsie/services/signup_request_service.py:31-56 | in particular a member just removed |
| OrgHierarchy.MembersMayNotAsk | oopsie/services/membership_service.py:14-24 | a member's email cannot ask, be approved, or be invited |
| OrgHierarchy.MemberRefusals | oopsie/services/membership_service.py:53-149 | why a role change or a removal is refused, in the order of the checks |
| OrgHierarchy.InviteRefusals | oopsie/services/invitation_service.py:31-58 | why an invitation is refused |
| OrgHierarchy.ReviewRefusals | oopsie/services/signup_request_service.py:79-169 | why an approval or a rejection is refused |
| OrgHierarchy.SubmitRefusals | oopsie/services/signup_request_service.py:31-43 | why a signup request is refused |
| OrgInvitations.NextInvite | oopsie/services/invitation_service.py:16-135 | an invitation is changed or removed only by an invitation or revocation in its organization or a login under its email, and written only by bootstrap or an admin of its organization whom it does not outrank |
| OrgInvitations.InvitationsWait | oopsie/auth.py:240-266 | over any run an invitation stays as it is unless such a request comes |
| OrgInvitations.InvitationsHaveSenders | oopsie/routers/web/members.py:19-47 | over any run every invitation was there at the start or was written by bootstrap or an admin of its organization |
| OrgAdmins.AdminsExactlyWhen | oopsie/auth.py:271-275 | over any run a user is a platform admin exactly when they were at the start or logged in under an email matching the configured one; nobody loses the flag |
| OrgAdmins.AdminsLoggedIn | oopsie/routers/dependencies.py:239-249 | from an empty database platform admins are exactly those who logged in so |
| OrgAdmins.AdminLoginExactlyWhen | oopsie/auth.py:271-275 | a committed login under an email with the lower case of the nonempty configured one makes its user a platform admin, any other changes nobody's flag |
| OrgAdmins.NoAdminConfigured | oopsie/auth.py:274 | a run whose logins have no configured admin email makes no platform admin |
| OrgAdmins.ConfiguredEmailMakesAdmin | oopsie/auth.py:274-275 | a committed login under exactly the configured email always does |
| OrgAdmins.AsciiAdmins | oopsie/auth.py:274 | for ASCII emails the match is equality up to the case of letters |
| OrgFounding.TwoRoundsTwoInvitations | oopsie/services/signup_request_service.py:79-130 | from any reachable state, submitting and approving twice leaves one email two organization invitations |
| OrgFounding.TwoApprovalsDependOnRowOrder | oopsie/auth.py:232-247 | with two organization names, a newcomer's login then depends on the order of rows |
| OrgJoining.NextMember | oopsie/auth.py:211-217 | a membership of a registered user in an existing organization was there before the request |
| OrgJoining.TheRegisteredNeverJoin | oopsie/auth.py:211-217 | over any run registered users never join existing organizations |
| OrgJoining.RemovedForGood | oopsie/services/membership_service.py:142-143 | over any run after a removal the user is never again a member of that organization |
| FixStore.Store.LoadAndPrepare | oopsie/services/pipeline_service.py:49-146 | the checks in their order, then a PENDING attempt and the context taken from the same rows |
| FixStore.Store.MarkFixAttemptRunning | oopsie/services/fix_service.py:49-59 | RUNNING with its start time, or the failed assertion |
| FixStore.Store.CompleteFixAttempt | oopsie/services/fix_service.py:62-92 | the attempt's final columns and, on success, its error's status |
| FixStore.Store.HandlePrEvent | oopsie/services/github_installation_service.py:194-232 | the one attempt with the url becomes MERGED; several make it raise, none is ignored |
| FixStore.Store.HandleInstallationEvent | oopsie/services/github_installation_service.py:145-191 | the one installation takes the status of a known action |
| FixStore.Store.UpsertInstallation | oopsie/services/github_installation_service.py:87-142 | the organization's installation is this one and active |
| FixStore.Store.TryFix | oopsie/services/pipeline_service.py:235-249 | the try block: three steps, ending in the exception or in the finally clause |
| FixStore.Store.HandleFailure | oopsie/services/pipeline_service.py:251-260 | the except branch records FAILED with the reason, or rolls back and goes on to the finally clause |
| FixStore.Store.Run | oopsie/services/pipeline_service.py:222-262 | an uninterrupted `run` is its seven protocol steps in order |
| FixProofs.ExecKeepsInv | oopsie/services/pipeline_service.py:222-262 | every interleaving of jobs, webhooks, triggers, reports, deletions and cancellations keeps the protocol's invariant |
| FixProofs.MergedExactlyWhen | oopsie/services/github_installation_service.py:211-226 | an attempt is merged exactly by a closed and merged pull request with its url, when no other attempt has that url |
| FixProofs.InstallationChangesExactlyWhen | oopsie/services/github_installation_service.py:21-25 | deleted, suspended and unsuspended set REMOVED, SUSPENDED and ACTIVE on the installation alone under the id; every other action and every other row is left alone |
| FixRuns.ReachableStatuses | oopsie/services/fix_service.py:62-92 | in every reachable state an error is FIX_ATTEMPTED exactly when an attempt at it is SUCCESS or MERGED and OPEN otherwise, and an attempt's columns are set as its status says |
| FixRuns.NextMovesAttempt | oopsie/services/fix_service.py:49-79 | each step moves an attempt only PENDING→RUNNING→SUCCESS→MERGED or PENDING/RUNNING→FAILED |
| FixRuns.AttemptsOnlyAdvance | oopsie/services/github_installation_service.py:217-226 | over any run an attempt only moves forward |
| FixRuns.TerminalAttemptsFreeze | oopsie/services/fix_service.py:72-79 | over any run a terminal attempt keeps its url, output and times, and only SUCCESS may become MERGED |
| FixRuns.NextNewAttempt | oopsie/services/pipeline_service.py:55-128 | a new attempt is at an OPEN error, for its own project's repository, through that organization's active installation, with an API key |
| FixGuards.LoadsExactlyWhen | oopsie/services/pipeline_service.py:49-146 | a load creates its attempt exactly when the error is open, the project exists, the installation is active and a key is found; otherwise the job is skipped and nothing changes |
| FixGuards.SuspensionStopsFixes | oopsie/services/github_installation_service.py:163-186 | after suspended or deleted, over any run without an unsuspended event or a callback, no attempt starts for a project of the organization |
| FixGuards.ReopensForFixes | oopsie/services/github_installation_service.py:87-142 | after unsuspended, or a callback whatever the status was, open errors of its projects can be fixed again |
| FixGuards.OtherActionsAreIgnored | oopsie/services/github_installation_service.py:166-170 | any other action changes nothing |
| FixGuards.TriggersExactlyWhen | oopsie/routers/web/errors.py:113-133 | a trigger is queued exactly for an open error of a project of the caller's organization |
| FixGuards.DeletionExactly | oopsie/routers/web/projects.py:263-275 | deleting a project takes its errors and their attempts with it and no other row |
| FixGuards.CancellationSkipsRecording | oopsie/services/pipeline_service.py:251-262 | a job cancelled in its try block leaves its attempt unfinished and still removes its directory |
| FixGuards.EarlyCancellationEndsTheJob | oopsie/services/pipeline_service.py:227-234 | a job cancelled before its try block is over, with nothing recorded |
| FixGuards.TryFailuresAreCaught | oopsie/services/pipeline_service.py:235-251 | a fault or a missing row in the try block leads to the except branch with the exception's text and unchanged tables |
| FixGuards.RecordingFailuresPass | oopsie/services/pipeline_service.py:251-262 | a fault in the except branch does not stop the finally clause |
| FixGuards.EarlyFailuresEndTheJob | oopsie/services/pipeline_service.py:227-234 | a failed load leaves no attempt; failing to make the directory is not recorded |
| FixRuns.ErrorsNeverReopen | oopsie/services/error_service.py:40-60 | over any run an error that left OPEN never returns and gains no attempt |
| FixRuns.RunEndsTerminal | oopsie/services/pipeline_service.py:235-262 | an uncancelled `run`, however interleaved, ends; it ends past its finally clause exactly when it ever was in its try block, and then, if its failure-recording transactions commit, its attempt is terminal unless the row is gone, and its directory is gone unless rmtree left it |
| FixRuns.ScheduleRuns | oopsie/services/pipeline_service.py:222-262 | the uninterrupted `run` is one of those interleavings |
| FixRuns.RunOutcome | oopsie/services/pipeline_service.py:222-262 | what a smooth run leaves: SUCCESS with the pull request and the error FIX_ATTEMPTED, or FAILED with the reason, and no directory |
| FixRuns.NoDirectoryLeaks | oopsie/services/pipeline_service.py:261-262 | even under cancellation no clone directory outlives its job unless rmtree left it |
| FixRuns.UnfinishedAttemptsExplained | oopsie/services/pipeline_service.py:227-234 | which attempts can be left PENDING or RUNNING |
| FixRuns.OverlapsExactlyWhen | oopsie/queue.py:29-36 | attempts at one error overlap exactly when a job loads the error while an attempt at it is active |
| FixRuns.TwoDeliveriesOverlap | oopsie/queue.py:29-36 | one trigger delivered twice leads to two active attempts, in any reachable state where the error can be triggered and the installation is active |
| FixStatus.StatusForErrors | oopsie/services/fix_service.py:107-129 | the loop's keys are exactly the requested ids, each with the status of its first row or None |
| FixStatus.BatchAgrees | oopsie/services/fix_service.py:95-104 | with one status among the latest attempts, the batch equals the head of the one-error list |
| FixStatus.BatchShowsALatest | oopsie/services/fix_service.py:107-129 | whatever the order of equal times, the batch shows the status of a latest attempt, or None when there is none |
| FixStatus.BatchIsNaiveExactlyWhen | oopsie/services/fix_service.py:107-129 | whatever order equal times come in, the two agree exactly when the latest attempts have one status |
| FixStatus.DistinctTimesAgree | oopsie/services/fix_service.py:119 | with strictly ordered creation times they agree |
| Paging.ErrorsPage | oopsie/routers/web/errors.py:30-51 | a page is refused exactly when every row is on an earlier page and it is not page 1 |
| Paging.AllPages | oopsie/services/error_service.py:98-105 | pages 1 to the last concatenate to the whole list |
| Paging.RowIsOnItsPage | oopsie/services/error_service.py:98-105 | on which page, and where, each row is shown |
| Fingerprint.TraceLineOfText | oopsie/utils/fingerprint.py:13-15 | white space around a trace does not matter; the line ends at the first newline of the rest, and a blank trace has an empty line |
| Fingerprint.TraceLineSplits | oopsie/utils/fingerprint.py:13-15 | every trace is of that form, so its line is determined |
| Fingerprint.DecodesPayload | oopsie/utils/fingerprint.py:16 | a payload decodes uniquely at its first and last newline when the class has none |
| Fingerprint.SamePayloadExactlyWhen | oopsie/utils/fingerprint.py:13-16 | two payloads are equal exactly when class, message and first trace line are |
| Fingerprint.SameFingerprintExactlyWhen | oopsie/utils/fingerprint.py:6-17 | and so are two fingerprints under a collision-free hash |
| Fingerprint.AmbiguousExactlyWhen | oopsie/utils/fingerprint.py:16 | some other report shares the payload exactly when class or message contains a newline |
| Ingestion.Store.UpsertError | oopsie/services/error_service.py:17-76 | counts up the report's row or inserts it, adds the occurrence, or raises and changes nothing |
| Ingestion.FreshReportsCommit | oopsie/services/error_service.py:31-76 | a report of an existing project with unused ids always commits: its row is counted up, or inserted with count one |
| IngestionLog.EveryReportIsCounted | oopsie/services/error_service.py:31-76 | when all reports are such, the log is all of them, each has its row, and the counts add up to their number |
| IngestionLog.RunRefines | oopsie/services/error_service.py:31-76 | with atomic requests the table refines the log: a row per project and fingerprint reported, count equal to matching reports and to occurrences, text from the first of them |
| IngestionLog.CountsAddUp | oopsie/services/error_service.py:41 | the counts add up to the number of accepted reports |
| IngestionLog.CountsWhatItShows | oopsie/utils/fingerprint.py:6-17 | with a collision-free hash and classes without newlines a row counts exactly the reports with its class, message and first trace line |
| IngestionRaces.ReachableBounds | oopsie/models/error.py:64-71 | under every interleaving of reads, writes and deletions there is one row per project and fingerprint and its count is between one and its number of occurrences |
| IngestionRaces.StaysExactExactlyWhen | oopsie/services/error_service.py:32-41 | from any reachable state where a row is exact or not yet there, it is exact at the end of a run exactly when no stale write hit it: a lost increment never comes back |
| IngestionRaces.ExactExactlyWhen | oopsie/services/error_service.py:32-41 | over every interleaving a count equals its occurrences exactly when no request ever wrote over a count it had not seen |
| IngestionRaces.WritesExactlyWhen | oopsie/models/error.py:64-71 | a request that has looked commits exactly when the row it found is there, or it found none and there still is none and the project exists |
| IngestionRaces.LookThenWriteIsAtomic | oopsie/services/error_service.py:17-76 | a request that arrives, looks and writes uninterrupted does what the atomic one does |
| IngestionRaces.TwoWritersLoseOne | oopsie/services/error_service.py:32-41 | two requests that look before either writes lose one increment, from any exact state |
| ClaudeStream.RunClaudeCode | oopsie/services/claude_service.py:118-191 | returns the stripped text exactly when the stream ends cleanly with no error; else the last assistant error, else the first result error; timeouts and other exceptions as their handlers say |
| ClaudeStream.CapturesOne | oopsie/services/claude_service.py:118-158 | that precedence determines one error text |
| ClaudeStream.OutputGrows | oopsie/services/claude_service.py:147-149 | the output is the texts of the blocks in order, with nothing between them |
| ClaudeStream.ErrorsAre | oopsie/services/claude_service.py:128-157 | which messages carry an error |
| ClaudeStream.ErrorTextIs | oopsie/services/claude_service.py:33-39 | each error code's label, the detail after it, and the fallback for results without text |
| ClaudeStream.DetailIs | oopsie/services/claude_service.py:173-174 | a crash is reported with the stripped stderr, or else its own text |
| Sessions.SessionStore.CreateSession | oopsie/session.py:41-59 | the pipeline of HSET and EXPIRE; raises exactly on a live legacy key |
| Sessions.SessionStore.GetField | oopsie/session.py:62-93 | a legacy key reads as missing and is evicted, an unreachable Redis reads as missing, any other error reply is raised |
| Sessions.SessionStore.GetSessionUserId | oopsie/session.py:78-93 | what a healthy read returns and does to the store |
| Sessions.SessionStore.GetSessionOrgSlug | oopsie/session.py:96-110 | the same for the slug |
| Sessions.SessionStore.ExtendSession | oopsie/session.py:113-116 | resets the time to live of a live key and does nothing else |
| Sessions.SessionStore.DeleteSession | oopsie/session.py:119-123 | the token yields nobody afterwards |
| Sessions.YieldsExactlyWhen | oopsie/session.py:41-59 | a token yields a user at a time exactly when it was created for that user, not deleted or created again since, and every gap between touches up to then is under the TTL |
| Sessions.SlugExactlyWhen | oopsie/session.py:96-110 | a token drawn once yields the slug it was created with exactly as long |
| Sessions.CreatedOverLegacy | oopsie/session.py:54-57 | the commands of the pipeline both run even when the first is refused, so a live legacy key gets a new time to live |
| Sessions.RecreatedKeepsSlug | oopsie/session.py:52-57 | a token created anew while alive takes the new user and keeps the old slug if none is given |
| Sessions.SessionsLastAWeek | oopsie/session.py:19 | a session lasts exactly 604800 seconds from creation, and from an extension in time |
| Sessions.LapsedStaysLapsed | oopsie/session.py:113-116 | extending a lapsed session never revives it |
| Sessions.LegacyNeverYields | oopsie/session.py:62-75 | a legacy key never yields a user unless its token is created anew, and is gone once read |

## Left out

- PostgreSQL isolation: organization requests are atomic steps. The owner count and the one-invitation checks take no locks, so nothing is claimed about them under concurrent READ COMMITTED transactions.
- Slug: the Unicode tables themselves; the two facts needed of lower-casing and `\w` are the premise `Lawful`, shown to hold of ASCII.
- FixRuns.RunEndsTerminal: does not model a worker process that dies without running its finally clause, nor a commit that takes effect and then raises.
- FixModel: branch names, the pull request body, the enriched context of a report and the choice of API key; whether a key resolves is an input, and everything between the two database transactions of the try block is one outcome, a url or an exception.
- FixModel: a repeated report changes neither status nor attempts, so only the first report of an error is a step of the protocol.
- Paging.ErrorsPage: `math.ceil` of a floating-point quotient is modelled as exact integer division; the order of rows is fixed across pages.
- IngestionRaces: an UPDATE and the commit after it are one step, since the row stays locked between them.
- Ingestion: last-seen and updated times, and deletion of projects in the atomic model.
- Sessions: creation and use of sessions are not tied to the organization requests; an operation Redis did not acknowledge is taken not to have happened; parsing of the stored uuid.
- ClaudeStream: cancellation, prompt and environment construction, logging.
- Column lengths, time zones, and deletion of users or organizations, which no modelled code performs.
- HTTP, templates, OAuth, CSRF, webhook signatures, git and GitHub calls, encryption, migrations and configuration: plumbing around the modelled logic.
- The error threshold and the statuses FIX_MERGED and IGNORED, which no service or route acts on.
- Lookups and listings without a joint invariant (`list_members`, `list_invitations`, `list_signup_requests`), which would only add easy members.
