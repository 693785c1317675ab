# Verified model of the G-HRMS service layer

G-HRMS is a Django back end for personnel records.  This project models four
state machines of its service layer and proves what they keep over whole runs:

* **Accounts and sessions** — login with lockout, rotating refresh tokens in
  families, logout, and the administrator's status changes, over one store of
  users, tokens and an append-only event log (`AuthModel`, `AuthServices`,
  `AuthFamilies`, `AuthTheorems`, `AuthLockout`, `AuthOutcomes`).
* **Sign-up** — pending registrations in an expiring cache, one-time codes,
  wrong-code counters and resends (`SignupModel`, `SignupService`,
  `SignupTheorems`, `SignupOutcomes`).
* **Personnel and organizations** — the two walks up parent pointers, soft
  deletion across two services, and history rows written next to save signals
  (`ParentWalk`, `PersonnelModel`, `PersonnelServices`, `PersonnelTheorems`,
  `PersonnelOutcomes`).
* **Documents** — version rotation, malware scans, the append-only decision log
  and file storage that a database rollback does not undo (`DocumentModel`,
  `DocumentServices`, `DocumentTheorems`, `DocumentOutcomes`).

Each `*Model` module gives the tables as a `State` and every transaction as a
function from a state and a call to the next state and the call's answer.
`Step` and `Run` put the calls in any order.  Each `*Services` module holds the
services as classes over a mutable store; every public method ends in exactly
the state and answer of the corresponding function, also when the call raises
after its transaction has committed, and when it rolls back.  The `*Theorems`
modules (with `AuthFamilies` and `AuthLockout`) state the guarantees about
`Run`, so they hold for every interleaving of the calls of a component.  The
`*Outcomes` modules say, in terms of the tables and the request alone, when each
call gives which answer, what it writes, and what a caller may do with the
answer next.

Clock readings, generated tokens and codes, the scanner's verdicts and storage
or database failures are parameters of the calls.  Token, code and password
hashing, email case folding and address normalisation are arbitrary functions
of the settings: the theorems hold for every choice, colliding ones included.
A row's key is its position in the table, and a new token family is named by
its first token, which makes the generated family id fresh.  Sign-up time is in
microseconds, so that truncating a remaining lifetime to whole seconds counts.

`dafny verify dfyconfig.toml` checks the project.

## Where the code keeps less than it says

* A sign-up code is described as expiring after its lifetime, but `verify`
  trusts the cache alone, and re-storing a record after a wrong code grants at
  least one more second.  `SignupTheorems.LateRedemption` is a run in which the
  right code is redeemed at its recorded expiry.
  `SignupTheorems.CodesExpireOnTimeIff` gives the settings under which no run
  does that; the default of five attempts is not among them, nor, if codes are
  accepted at all, a lifetime of zero minutes
  (`SignupTheorems.ShortLifeRedeemedLate`).  After any one run a
  code, its username being free, is accepted late exactly when its record was
  last written with less than a second left (`SignupTheorems.LateOnlyAfterLastMomentStore`), and
  `SignupTheorems.RedeemedInTime` is the bound that always holds.
* The advertised wait before a resend is rounded down.  A resend after exactly
  that wait is refused again if and only if the registration is then still
  cached and the time to the end of the cooldown was not a whole number of
  seconds (`SignupTheorems.AdvertisedWaitRefusedIff`);
  `SignupTheorems.AdvertisedWaitFallsShort` gives runs in which it is.
* An accepted document version need not stay clean: a later scan report
  replaces the scan status (`DocumentTheorems.AcceptedStaysCleanIff`, with a run
  in `DocumentTheorems.AcceptedVersionCanTurnInfected`).
* The rule of one active document per single-instance category is looked after
  by submission alone.  The general create and update never look for another
  document, and a category with two can be made single-instance.
  `DocumentTheorems.StepKeepsSingleInstanceIff` says exactly which calls break
  the rule, `DocumentTheorems.SingleInstanceThroughoutIff` which runs do, and
  `DocumentTheorems.GeneralWritesCanDuplicate` shows runs that do.
* A failed upload removes its stored file, but a submission commits after that
  clean-up is over: if the commit fails, the file stays without a row.
  `DocumentTheorems.FailureLeavesNoTraceIff` and
  `DocumentTheorems.SubmitSucceedsIff` say for exactly which requests,
  `DocumentTheorems.CommitFailureLosesFile` is such a run, and these are the only
  files without a row (`DocumentTheorems.FilesAreThoseOfVersions`).
* `account/models.py` holds a second rotation method with another meaning; no
  service calls it and it is not part of this model.

## Model

| member | source | states |
|---|---|---|
| AuthServices.RefreshTokenService.Rotate | authentication/services/refresh_tokens.py:85-155 | the whole new state of a refresh: reuse revokes the family and logs it, an expired token is revoked, both committed although the call fails; success spends the token and inserts its child; a colliding hash rolls everything back |
| AuthServices.RefreshTokenService.IssueToken | authentication/services/refresh_tokens.py:184-212 | inserts one unrevoked token, of the parent's family or of a new one, expiring one lifetime later, unless its hash is already stored |
| AuthServices.RefreshTokenService.Revoke | authentication/services/refresh_tokens.py:157-182 | revokes at most the one token presented, is idempotent, and answers the owner with the earlier state |
| AuthServices.AuthStore.RevokeTokenFamily | authentication/repositories/refresh_tokens.py:66-74 | row by row: a live token of the family becomes revoked with the given stamp, every other row is untouched; no token of the family is live afterwards, and the answer is by how many live tokens the table has fewer |
| AuthServices.AuthStore.RevokeAllForUser | authentication/repositories/refresh_tokens.py:76-87 | the same for all tokens of one user, whatever their family |
| AuthServices.AuthenticationService.Login | authentication/services/authentication.py:68-147 | counters and lockouts of a refused login are committed; a lock seen expired is cleared on disk only by a counted failure or a success; a success stamps the user, logs LOGIN and starts a family |
| AuthServices.AuthenticationService.HandleFailedLogin | authentication/services/authentication.py:149-191 | a failure under a lock changes nothing; otherwise it is counted, and reaching the maximum locks the account and logs LOCKOUT |
| AuthServices.AuthenticationService.Refresh | authentication/services/authentication.py:193-199 | a refresh has exactly the effect of the token rotation |
| AuthServices.AuthenticationService.Logout | authentication/services/authentication.py:201-222 | revokes the live token presented and logs LOGOUT once; a revoked or unknown token changes nothing |
| AuthServices.UserAdminService.CreateUser | authentication/services/user_admin.py:69-98 | adds an active account unless the username is taken |
| AuthServices.UserAdminService.UpdateUser | authentication/services/user_admin.py:102-118 | copies only the updatable fields that the request supplies |
| AuthServices.UserAdminService.Deactivate | authentication/services/user_admin.py:122-144 | refuses self and unknown users, otherwise suspends, disables and revokes every session |
| AuthServices.UserAdminService.SetStatus | authentication/services/user_admin.py:148-194 | allows only the listed transitions by somebody else; activation clears the lock, suspension revokes every session |
| AuthModel.FindByEmail | authentication/repositories/users.py:113-127 | finds the lowest-keyed user whose email matches case-insensitively, or shows there is none |
| AuthModel.FindByHash | authentication/repositories/refresh_tokens.py:15-26 | finds a token with the hash, or shows there is none |
| AuthFamilies.RotationKeepsChains | authentication/services/refresh_tokens.py:134-146 | spending the one live token of a family and appending its child keeps every family a chain |
| AuthFamilies.StepKeeps | authentication/services/authentication.py:68-222 | every call of the three services keeps the joint invariant of tokens, users and events |
| AuthTheorems.FamilyIsOneChain | authentication/services/refresh_tokens.py:96-146 | in every run a family is one line from its root, each token the child of the one before, one user and one device throughout, and only the last can be live |
| AuthTheorems.AtMostOneLivePerFamily | authentication/services/refresh_tokens.py:85-91 | two live tokens of one family are the same token |
| AuthTheorems.LiveTokenOwnerIsActive | authentication/services/user_admin.py:34-41 | in every run a live token belongs to an active, enabled user, although rotation never looks at the user |
| AuthTheorems.FamiliesMatchLogins | authentication/services/authentication.py:109-130 | families and LOGIN events pair up one to one, in order, by user and device |
| AuthTheorems.LogExplainsUserRow | authentication/services/authentication.py:89-116 | the failure count never passes the limit, equals it exactly while a lock is stored, and lock and login stamp are those of the last LOCKOUT and LOGIN event |
| AuthTheorems.RunExtends | core/models.py:201-217 | no call ever changes a logged event, removes a token or revives a revoked one |
| AuthTheorems.RefusedRefreshKillsFamily | authentication/services/refresh_tokens.py:104-132 | a refresh of a known token reports reuse exactly when it was revoked, and every refusal leaves the family without a live token, with one reuse event naming the stored device |
| AuthTheorems.LogoutKillsFamily | authentication/services/refresh_tokens.py:157-177 | logging out a live token ends its family |
| AuthTheorems.SuspensionKillsFamilies | authentication/services/user_admin.py:136-143 | suspending or deactivating a user ends all of the user's families |
| AuthTheorems.DeadFamilyStaysDead | authentication/services/refresh_tokens.py:96-146 | no run gives a live token back to a family that has none |
| AuthTheorems.DeadFamilyReportsReuse | authentication/services/refresh_tokens.py:104-125 | after any run, presenting any token of such a family is reported as reuse |
| AuthTheorems.RotatedAtMostOnce | authentication/services/refresh_tokens.py:89-91 | no two successful refreshes of a run spend the same token |
| AuthTheorems.RefreshSucceedsIff | authentication/services/refresh_tokens.py:96-146 | a refresh succeeds exactly for a stored, unrevoked, unexpired token and an unused new hash |
| AuthTheorems.LoginSucceedsIff | authentication/services/authentication.py:80-138 | in every run a login succeeds exactly with the right password, no lock in force, status active and an unused token hash |
| AuthTheorems.StatusTransitions | authentication/services/user_admin.py:148-194 | a status changes only by an administrator acting on another account, and never back to invited |
| AuthTheorems.DeactivatedStaysOut | authentication/services/user_admin.py:122-144 | from deactivation to the next activation a user has no live token and gets none |
| AuthTheorems.Conservation | authentication/services/authentication.py:109-138 | per user and run: tokens = LOGIN events + rotations, families = LOGIN events, live tokens + LOGOUT events <= LOGIN events |
| AuthTheorems.ExpiriesGrowAlongFamily | authentication/services/refresh_tokens.py:194-206 | with a clock that never goes back, expiries do not decrease along a family and none lies beyond the present plus one lifetime |
| AuthLockout.FailureSpendsBudget | authentication/services/authentication.py:157-191 | each counted failure uses up one unit of a budget that depends on the counter, the lock and the remaining window |
| AuthLockout.FailuresInWindow | authentication/services/authentication.py:157-184 | in a window [a, b] without login or activation at most limit * (floor((b - a) / D) + 1) failures are counted |
| AuthLockout.FailureBoundIsMet | authentication/services/authentication.py:89-91 | from every state in which a user is not locked and has no failures to count, any wrong password sent with any address that finds the user reaches this bound exactly |
| AuthLockout.FailureBoundIsTight | authentication/services/authentication.py:89-91 | in every window a run from the empty tables, of one new account and wrong passwords, reaches the bound exactly |
| AuthLockout.LockoutQuietPeriod | authentication/services/authentication.py:101-104 | after a LOCKOUT at t, no LOGIN, no further LOCKOUT and no new family of the user before t + D, and the lock is neither extended nor lost |
| AuthLockout.SessionSurvivesIff | authentication/services/refresh_tokens.py:85-182 | through any run a live token stays live exactly when nobody refreshes with a token of its family (unless rolled back), logs it out, or suspends its owner from another account; no lockout, refused status call or activation ends it |
| AuthLockout.RotationSurvivesLockout | authentication/services/refresh_tokens.py:134-146 | hence after any run it can be rotated exactly when none of these calls was made, it has not expired and the new hash is unused |
| AuthOutcomes.RefreshAnswersReplacement | authentication/services/refresh_tokens.py:134-155 | a successful refresh answers the key of the one token it adds: live, with the new hash, the owner, device and family of the spent one as its parent, one lifetime from now; the spent one is stamped and nothing else changes |
| AuthOutcomes.ReplacementIsRotatable | authentication/services/refresh_tokens.py:134-155 | after any further run the token answered is itself rotated exactly when nothing ended the session, it has not expired and the next hash is unused |
| AuthOutcomes.RefreshAnswers | authentication/services/refresh_tokens.py:96-132 | in every run, which answer a refresh gives for which stored token, and that an unknown one or a colliding hash changes nothing |
| AuthOutcomes.LoginAnswersSession | authentication/services/authentication.py:109-138 | a successful login answers the key of the one token it adds, a root with the login's device and lifetime, clears counter and lock, stamps the user and logs LOGIN |
| AuthOutcomes.LoginSessionIsRotatable | authentication/services/authentication.py:126-138 | the token a login answers can be rotated after any run that does not end the session, until it expires |
| AuthOutcomes.LoginRefusals | authentication/services/authentication.py:80-107 | exactly when a login is answered with wrong credentials, a lock and until when, an inactive account, or a failed insert |
| AuthOutcomes.RefusedLoginCommits | authentication/services/authentication.py:149-191 | a refused login commits nothing but, outside a lock, the counted failure and, at the limit, the lock and its event |
| AuthOutcomes.LogIsExact | authentication/services/authentication.py:117-124 | the whole log of every run is the successful logins, lockouts, reuses and session-ending logouts, each once, in order, with user, device and time |
| AuthOutcomes.LogoutAnswers | authentication/services/authentication.py:201-222 | a logout of a stored token is answered as known, and revokes and logs it exactly if it was live; an unknown one changes nothing |
| AuthOutcomes.LogoutEventsCountLogouts | authentication/services/authentication.py:213-220 | per user, LOGOUT events are as many as the logouts that ended a session |
| AuthOutcomes.AccountIsCreated | authentication/services/user_admin.py:69-98 | an account is refused exactly for a taken username; otherwise it is enabled and holds the data sent, active if an administrator creates it, an invited viewer after sign-up |
| AuthOutcomes.NewAccountLogsIn | authentication/services/authentication.py:80-107 | a new account logs in with its address, in any case, and password, unless it comes from sign-up and is still inactive |
| AuthOutcomes.CredentialsNeverChange | authentication/services/user_admin.py:27-30 | no run changes an account's username, address or password |
| AuthOutcomes.UsernamesStayDistinct | authentication/services/user_admin.py:97-98 | no two accounts of a run share a username |
| AuthOutcomes.SetStatusAnswers | authentication/services/user_admin.py:148-176 | exactly when a status call is accepted, by the two listed transition sets, and which refusal comes first otherwise |
| AuthOutcomes.DeactivateAnswers | authentication/services/user_admin.py:122-136 | exactly when a deactivation is accepted or which refusal it gets |
| AuthOutcomes.StandingIsReplayed | authentication/services/user_admin.py:122-194 | in every run an account's status and enabled flag follow from the deactivations and status calls alone |
| AuthOutcomes.ActivationUnlocks | authentication/services/user_admin.py:181-189 | activation clears count and lock, so the right password logs in at once |
| AuthOutcomes.FieldIsLastWritten | authentication/services/user_admin.py:102-118 | in every run each profile field holds the last value an update supplied for it, for the four updatable fields only |
| SignupService.Service.Start | authentication/services/registration.py:71-103 | replaces any pending registration of the address, caches the new one and mails its code |
| SignupService.Service.Verify | authentication/services/registration.py:105-127 | counts a wrong code, drops the registration at the cap, and creates the account for the right one |
| SignupService.Service.Resend | authentication/services/registration.py:129-164 | refuses within the cooldown or past the resend cap, otherwise replaces the code and mails it |
| SignupService.Service.Persist | authentication/services/registration.py:168-184 | creates the account, or drops the registration when the username was taken meanwhile |
| SignupService.Service.Store | authentication/services/registration.py:196-199 | caches the record for the whole seconds left to its expiry, at least one |
| SignupTheorems.GuardTakenIff | authentication/services/registration.py:113-115 | the attempts guard at the head of verify fires on a stored record exactly under a setting that allows no attempt |
| SignupTheorems.StepSpendsPotential | authentication/services/registration.py:117-162 | every call but a start lowers (R - resends)(A - 1) + (A - attempts) by at least the wrong code it evaluates |
| SignupTheorems.WrongCodesPerStart | authentication/services/registration.py:113-123 | between one start for an address and the next at most (R + 1)(A - 1) + 1 wrong codes are evaluated |
| SignupTheorems.WrongCodeBoundIsMet | authentication/services/registration.py:146-162 | that bound is reached by a concrete run under every workable setting |
| SignupTheorems.RedeemedInTime | authentication/services/registration.py:196-199 | a redeemed code is the one last mailed to the address, before its send time plus its life plus one second per wrong code, hence plus A - 1 seconds |
| SignupTheorems.DeadlineNearExpiry | authentication/services/registration.py:196-199 | under every lifetime a cache deadline lies less than a second before the recorded expiry and at most one second per wrong code after it, a lifetime below a second counting as one second |
| SignupTheorems.LateRedemption | authentication/services/registration.py:117-123 | a run in which the right code is redeemed at its recorded expiry |
| SignupTheorems.ShortLifeRedeemedLate | authentication/services/registration.py:196-199 | under a lifetime below one second, such as zero minutes, the first code is redeemed at or after its expiry at once |
| SignupTheorems.CodesExpireOnTimeIff | authentication/services/registration.py:105-127 | over all runs and every whole-second lifetime, codes are redeemed only before their recorded expiry exactly when none is accepted or the first wrong code drops a registration of at least one second |
| SignupTheorems.LateOnlyAfterLastMomentStore | authentication/services/registration.py:117-123 | after any run a pending code of a free username gets its account at or after its expiry exactly when the record was last written with less than a second left, which only a wrong code does under a lifetime of at least a second |
| SignupTheorems.SendsPerStart | authentication/services/registration.py:137-164 | after a start, codes go out at least one cooldown apart and at most R more of them |
| SignupTheorems.RetryAfterRoundsDown | authentication/services/registration.py:141-144 | the advertised wait is less than one second short of the time left to the cooldown |
| SignupTheorems.AdvertisedWaitRefusedIff | authentication/services/registration.py:137-144 | a resend after exactly the advertised wait is refused again if and only if the registration is still cached and the time left was not a whole number of seconds |
| SignupTheorems.AdvertisedWaitFallsShort | authentication/services/registration.py:137-144 | runs from nothing in which a caller waits as advertised and is refused a second time |
| SignupTheorems.AccountProvesAddress | authentication/services/registration.py:3-9 | sign-up adds an account only for the code last mailed to the address, with the credentials of the last start, and consumes the registration |
| SignupTheorems.AbsentUntilStart | authentication/services/registration.py:105-135 | a consumed or dropped registration stays absent until the next start |
| SignupTheorems.VerifyAnswers | authentication/services/registration.py:105-127 | in every run, exactly which verification is answered with an account, a taken username, a wrong code, the end of attempts, or no registration, and what becomes of record and accounts |
| SignupOutcomes.StartAnswers | authentication/services/registration.py:86-103 | a start mails its code, leaves a fresh record of the data sent and answers lifetime and cooldown in whole seconds, in this order |
| SignupOutcomes.ResendAnswers | authentication/services/registration.py:129-164 | exactly when a resend is throttled, exhausted or accepted; a refusal changes nothing, an acceptance renews code, counters and expiry and mails the code |
| SignupOutcomes.StartThenVerify | authentication/services/registration.py:71-127 | after a start, through any run about other addresses, the mailed code gets the account asked for exactly before the advertised life is over, if attempts are allowed and the username is free |
| SignupOutcomes.AccountCreatedIff | authentication/services/registration.py:105-127 | in every run an account is created exactly when the code last mailed is returned for a cached registration, attempts are allowed and the username of the last start is free |
| ParentWalk.FindsCycle | employees/models.py:171-181 | on any table, cyclic or not, the walk ends and rejects exactly when the climb meets the row itself or never reaches a root |
| ParentWalk.WalkIsExact | employees/models.py:168-181 | on an acyclic table the walk rejects exactly the assignments that would close a cycle |
| ParentWalk.NewRowKeepsAcyclic | organizations/models.py:58-74 | a record with no key yet is never refused on an acyclic table and keeps it acyclic |
| PersonnelServices.PersonnelStore.SaveEmployee | employees/signals.py:7-65 | a save writes the row and, unless tracking is skipped, what the two signal receivers record |
| PersonnelServices.PersonnelStore.CleanEmployee | employees/models.py:121-184 | accepts exactly rows with an existing organization, active for staff in service, and a supervisor whose climb is clear |
| PersonnelServices.PersonnelStore.CleanOrganization | organizations/models.py:47-76 | accepts exactly rows whose head works there, once the row has a key, and whose parent's climb is clear |
| PersonnelServices.EmployeeService.Create | employees/services/employees.py:29-48 | adds the row and one RECRUITED transfer, or nothing |
| PersonnelServices.EmployeeService.Update | employees/services/employees.py:50-89 | rewrites a live row and appends its transfer and status rows, or nothing |
| PersonnelServices.EmployeeService.Delete | employees/services/employees.py:91-101 | marks the row deleted unless live organizations or employees depend on it, which it then names |
| PersonnelServices.OrganizationService.Create | organizations/services/catalog.py:41-49 | adds a valid organization, or nothing |
| PersonnelServices.OrganizationService.Update | organizations/services/catalog.py:51-65 | rewrites a live organization with valid data, or nothing |
| PersonnelServices.OrganizationService.Delete | organizations/services/catalog.py:67-81 | marks the organization deleted unless something depends on it, which it then names |
| PersonnelTheorems.ReportingAndOrganizationTreesStayAcyclic | employees/services/employees.py:32-66 | no run of the two services ever closes a reporting or an organization cycle |
| PersonnelTheorems.SupervisorAcceptedIff | employees/models.py:168-181 | in every run an otherwise valid change of supervisor is accepted exactly when it closes no cycle |
| PersonnelTheorems.ParentAcceptedIff | organizations/models.py:58-76 | the same for the parent of an organization |
| PersonnelTheorems.LiveRowsReferToLiveRows | employees/repositories/employees.py:31-36 | with live references supplied, live employees keep live supervisors and organizations, live organizations live parents and heads, across both services |
| PersonnelTheorems.DeletingEmployeeKeepsLiveClosed | employees/services/employees.py:91-101 | the dependency check is enough for an employee's deletion to leave no live row pointing at it |
| PersonnelTheorems.DeletingOrganizationKeepsLiveClosed | organizations/repositories/catalog.py:43-51 | the dependency check is enough for an organization's deletion |
| PersonnelTheorems.EachChangeWritesOneRow | employees/services/employees.py:38-86 | each change of status or organization writes exactly one row, with its actor, and no other call writes any, although every save runs the signals |
| PersonnelTheorems.TransfersEndAtCurrentOrganization | employees/services/employees.py:38-78 | an employee's transfers begin with the recruitment, each goes to another organization, and the last to the current one |
| PersonnelTheorems.StatusRowsReplay | employees/services/employees.py:80-86 | replaying an employee's status rows from the status at creation links them without a gap and ends at the current status |
| PersonnelTheorems.SignalsWouldRecordTheSame | employees/signals.py:13-65 | in every run the signals would add for an accepted update exactly the service's status rows, and its transfers apart from the actor |
| PersonnelTheorems.SignalsAgreeWithServiceIff | employees/signals.py:45-65 | for an arbitrary saved row they agree exactly when the employee neither gains nor loses an organization; validation keeps one present, so only a writer outside the services reaches the other side |
| PersonnelTheorems.SkipFlagPreventsDoubleRows | employees/services/employees.py:65-66 | without the skip flag a status change would be recorded twice and the rows would no longer replay |
| PersonnelOutcomes.HireAnswers | employees/services/employees.py:29-48 | exactly which new employees a run accepts, and the row and recruitment stored |
| PersonnelOutcomes.UpdateEmployeeAnswers | employees/services/employees.py:50-89 | exactly which updates a run accepts: an existing organization, active for staff in service, and a supervisor that closes no cycle |
| PersonnelOutcomes.DeleteEmployeeAnswers | employees/services/employees.py:91-101 | an employee is deleted exactly when nothing live depends on it, and a refusal names exactly what does |
| PersonnelOutcomes.EmployeeIsLastAccepted | employees/services/employees.py:60-66 | in every run each field of an employee holds the value last accepted for it |
| PersonnelOutcomes.CreateOrganizationAnswers | organizations/services/catalog.py:41-49 | exactly which new organizations a run accepts, and the row stored |
| PersonnelOutcomes.UpdateOrganizationAnswers | organizations/services/catalog.py:51-65 | exactly which updates a run accepts: a head who works there and a parent that closes no cycle |
| PersonnelOutcomes.DeleteOrganizationAnswers | organizations/services/catalog.py:67-81 | an organization is deleted exactly without children, staff, user accounts, positions and transfers |
| PersonnelOutcomes.DependenciesAreNamed | organizations/repositories/catalog.py:42-51 | the refusal names each of the five exactly when it stands in the way |
| PersonnelOutcomes.OrganizationIsLastAccepted | organizations/services/catalog.py:59-63 | in every run parent, head and activity of an organization are the values last accepted for them |
| DocumentServices.InspectUploadedFile | documents/utils.py:25-43 | size and hash are those of the whole content, however it is cut into chunks |
| DocumentServices.DocumentUploadService.UploadNewVersion | documents/services/uploads.py:35-111 | demotes the current version and appends the next, or restores every row and removes the stored file |
| DocumentServices.DocumentUploadService.SaveOrUndo | documents/services/uploads.py:101-111 | saves the prepared version and its file, or, when saving or committing fails, returns to the savepoint and leaves no file behind, with a conflict told apart from other failures |
| DocumentServices.DocumentUploadService.ValidateUploadPolicy | documents/services/uploads.py:132-147 | refuses archived or revoked documents, inactive categories and uploads the category forbids, in this order |
| DocumentServices.DocumentUploadService.DeleteStoredFile | documents/services/uploads.py:170-180 | removes the file of a failed version if it had reached storage |
| DocumentServices.EmployeeDocumentService.Submit | documents/services/documents.py:61-103 | writes document and version together, or no row at all; a failing commit leaves the file already stored |
| DocumentServices.EmployeeDocumentService.BuildAndSave | documents/services/documents.py:121-125 | adds a valid document unless its code is taken |
| DocumentServices.EmployeeDocumentService.RefreshMetadata | documents/services/documents.py:84-86 | refreshes only the editable fields that are supplied |
| DocumentServices.EmployeeDocumentService.Update | documents/services/documents.py:94-108 | rewrites a live document with valid data, or nothing |
| DocumentServices.EmployeeDocumentService.Delete | documents/services/documents.py:110-119 | marks a live document deleted |
| DocumentServices.DocumentVerificationService.RecordDecision | documents/services/verifications.py:32-71 | logs an allowed decision with the version's hash and sets the version's status, or changes nothing |
| DocumentServices.DocumentScanService.RecordResult | documents/services/scans.py:34-48 | stores a completed scan result for an existing version |
| DocumentServices.DocumentScanService.ScanVersion | documents/services/scans.py:50-72 | stores the verdict for an existing version, reports an unknown one, and does nothing when scanning is disabled |
| DocumentServices.DocumentScanService.ScanPendingVersions | documents/management/commands/scan_pending_versions.py:26-52 | scans exactly the snapshot of waiting versions and counts the verdicts, or stops at once when scanning is disabled |
| DocumentModel.LatestNumber | documents/repositories/versions.py:44-51 | the largest number among the document's rows |
| DocumentModel.FindCurrent | documents/repositories/versions.py:32-42 | a current row of the document, or shows there is none |
| DocumentModel.FindActive | documents/repositories/documents.py:26-37 | a live active document of the employee in the category, or shows there is none |
| DocumentTheorems.StepKeeps | documents/models.py:237-247 | every call keeps numbering, the current flag, the file store, the decision log and the unique codes |
| DocumentTheorems.VersionsAreOneToN | documents/services/uploads.py:60-102 | in every run a document's versions are numbered 1..n without gap or repetition and exactly number n is current |
| DocumentTheorems.FilesAreThoseOfVersions | documents/services/uploads.py:170-180 | in every run storage holds one file per version row and besides exactly the files of submissions whose commit failed |
| DocumentTheorems.FailureLeavesNoTraceIff | documents/services/uploads.py:98-111 | in every run a failing call leaves every row and flag as it was, and all stored files exactly when it is not an acceptable submission whose commit failed |
| DocumentTheorems.SubmitSucceedsIff | documents/services/documents.py:61-90 | in every run a submission succeeds exactly when its form, category, uploader, file limits and target document (dates, version limit, or an unused code) allow it and nothing fails outside, and loses a file exactly when these hold and the commit fails |
| DocumentTheorems.CommitFailureLosesFile | documents/services/documents.py:64-89 | a run from nothing whose submission fails to commit and leaves a file without a row |
| DocumentTheorems.UploadSucceedsIff | documents/models.py:255-278 | in every run an upload succeeds exactly within its policy, size, type and numbering limits; the unique constraints never stand in the way |
| DocumentTheorems.UploadAppendsNextVersion | documents/services/uploads.py:60-104 | a successful upload appends number n + 1 with the data sent, unscanned, with the category's initial status, demotes the old version and changes nothing else |
| DocumentTheorems.SubmitReusesOrCreates | documents/services/documents.py:62-97 | a submission ends on the active document of a single-instance category, whose other metadata it keeps, or on a new one |
| DocumentTheorems.RunExtends | documents/models.py:280-332 | no call changes a version's uploaded file, number or origin, or an earlier log row |
| DocumentTheorems.LogFollowsVersions | documents/models.py:395-411 | per document the decision log never goes back to an older version, and each entry carries its version's hash |
| DocumentTheorems.StatusIsLastDecision | documents/services/verifications.py:61-68 | from any point of a run a version's status is its status then, or, by the last decision logged since, VERIFIED for an acceptance and REJECTED for a rejection |
| DocumentTheorems.SupersededIsFrozen | documents/models.py:408-411 | a version that is no longer current keeps its status and never becomes current again |
| DocumentTheorems.EveryDecisionWasAllowed | documents/models.py:400-418 | each log row was written on the then current version, an acceptance while its scan was clean, a rejection with remarks |
| DocumentTheorems.ScanIsLastReported | documents/services/scans.py:40-48 | a version's scan status is the last completed result reported for it |
| DocumentTheorems.AcceptedStaysCleanIff | documents/services/scans.py:46-47 | an accepted version is still clean later exactly when no later report says otherwise |
| DocumentTheorems.AcceptedVersionCanTurnInfected | documents/services/scans.py:46-47 | a run from nothing that ends with an accepted version reported infected |
| DocumentTheorems.ScanLoopLeavesNonePending | documents/management/commands/scan_pending_versions.py:34-50 | the scheduled scan leaves no version pending and changes only scan statuses of its snapshot |
| DocumentTheorems.ScanLoopCountsStatuses | documents/management/commands/scan_pending_versions.py:41-52 | its counters are the numbers of snapshot versions in each status and add up to the number that waited |
| DocumentTheorems.ScanLoopIsARun | documents/management/commands/scan_pending_versions.py:46-50 | the loop equals a run of single scan reports, so every run property covers it |
| DocumentTheorems.SingleInstanceHolds | documents/services/documents.py:64-68 | without general creates, updates and setting changes no employee gets two live active documents in a single-instance category |
| DocumentTheorems.StepKeepsSingleInstanceIff | documents/services/documents.py:43-108 | from a state that meets the rule, an accepted call breaks it exactly when it writes an active document of a single-instance category beside another of the employee, or makes a category with two single-instance |
| DocumentTheorems.SingleInstanceThroughoutIff | documents/services/documents.py:43-108 | for every run of all calls: the rule holds throughout exactly when no accepted call does that |
| DocumentTheorems.GeneralWritesCanDuplicate | documents/services/documents.py:43-48 | from nothing, two categories and two submissions, then one general update, or one general create, breaks the rule |
| DocumentOutcomes.DecisionAnswers | documents/services/verifications.py:32-71 | exactly when a decision is accepted; it makes its version VERIFIED or REJECTED, adds one log row and changes nothing else |
| DocumentOutcomes.ScanAnswers | documents/services/scans.py:34-48 | exactly when a scan result is accepted, and that it changes only that status |
| DocumentOutcomes.ScanLoopIsExact | documents/management/commands/scan_pending_versions.py:34-50 | the scheduled scan gives the verdict to the pending versions and, if asked, to the failed ones, and to no other |
| DocumentOutcomes.UploadAnswers | documents/services/uploads.py:46-147 | every answer of an upload in a run, in the order the rules are looked at |
| DocumentOutcomes.SubmitAnswers | documents/services/documents.py:61-90 | every answer of a submission in a run, the document's refusals before the upload's |
| DocumentOutcomes.ReusedIff | documents/repositories/documents.py:26-37 | a submission reuses a document exactly when the category takes one only and the employee has an active one there |
| DocumentOutcomes.SubmitAppendsNextVersion | documents/services/documents.py:62-88 | a successful submission appends number n + 1 of its document with the file, source and uploader sent and demotes only that document's current version |
| DocumentOutcomes.CreateAnswers | documents/services/documents.py:43-48 | exactly when a general create is accepted, a code held by a live document told apart from one held by a deleted row, and the row stored |
| DocumentOutcomes.UpdateAnswers | documents/services/documents.py:94-108 | the same for a general update |
| DocumentOutcomes.DeleteAnswers | documents/services/documents.py:110-119 | a document is deleted exactly when it is live, and only marked |
| DocumentOutcomes.DocumentIsLastAccepted | documents/services/documents.py:76-108 | in every run each field and each metadata entry of a document holds the value last accepted for it, a reusing submission writing only the listed metadata |
| DocumentOutcomes.SingleInstanceMeans | documents/repositories/documents.py:26-37 | the rule of one active document, said of any two rows |

## Left out

* HTTP views, serializers, permissions, throttling, middleware, logging and
  settings loading; serializer rules enter only as "supplied references are live".
* Access tokens, password and token hashing internals, random generation, mail
  delivery failures, the clamd client and file content.
* Interleavings inside one transaction and optimistic row versions: the services
  lock the rows they decide on.  Sign-up calls are taken one at a time, because
  the cache is read and written without a lock.
* A failing commit is a case of a call only where a file is at stake, on uploads
  and submissions; elsewhere it would undo the whole call.
* The scan that an upload schedules for its commit is a separate later call that
  does not raise.  In the code it runs inside the upload's error handling, so if
  the stored file cannot be opened then (documents/services/scans.py:63), the file
  of a row already committed is deleted.  Deleting a stored file is taken to succeed.
* A cache write is taken to happen at the clock reading it was computed from.
* A family id is taken to be fresh; the code draws it at random.
* Case folding, Unicode spaces and path suffixes are not spelled out: the email
  comparison is a parameter and a file's extension is given.
* Field checks of forms that decide nothing else (lengths, dates, gender,
  positions and levels) are one parameter of a call, `formOk`.
* The unique identifiers of employees and organizations are one parameter of a
  call, `conflict`: whether the database refuses the row.
* Tables hold soft-deleted rows but no service restores or hard-deletes one, and
  no service deletes a version, so versions carry no deletion mark.
* Audit columns, timestamps of rows and history snapshots of the models.
* Payroll, attendance, leave, reports and the position taxonomy: separate parts
  of the system, whose rows no call modelled here writes.
