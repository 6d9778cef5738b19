# Church backend: verified model

A Dafny model of the stateful services of the church management backend (NestJS
over Prisma), with proofs of what they promise. Verify it with
`dafny verify dfyconfig.toml`.

| file | what it models |
|---|---|
| `Text.dfy`, `Sequences.dfy`, `Sums.dfy`, `Wrappers.dfy` | trimming, white-space normalisation and case folding; rearrangements; finite sums; option and result |
| `DepartmentMetrics.dfy` | performance configuration: the data, what makes a request acceptable, and its effect as a relation on the department's question-to-weight map |
| `DepartmentMetricsTheorems.dfy` | what accepted requests and whole runs guarantee |
| `DepartmentMetricsMeaning.dfy` | the same in the caller's terms: what is refused, and what an accepted request leaves behind |
| `DepartmentMetricsService.dfy` | the service over its tables, proved to implement that relation |
| `Performance.dfy` | the published department rate |
| `TemporaryPassword.dfy` | the generator with its in-place shuffle |
| `AuthLock.dfy`, `LockInterleaving.dfy` | account lockout, sequentially and interleaved |
| `Accounts.dfy`, `AccountSteps.dfy`, `AccountSafety.dfy`, `AccountService.dfy` | the account lifecycle: the effect of each call, what each keeps, safety over runs, and the services over their tables |
| `AccountLaws.dfy`, `AccountPasswords.dfy` | call by call, when each outcome is given and what it leaves in the tables; over runs, which password and refresh token pass |
| `Roster.dfy`, `RosterLaws.dfy` | department rosters, leaders and worker records; what each call leaves behind |
| `Broadcasting.dfy` | one broadcast: the loops over recipients and channels |
| `Communications.dfy`, `CommunicationLaws.dfy` | broadcasts, their job table and the poller; what each call leaves behind |
| `WeeklyAttendance.dfy` | weekly attendance buckets |

A table is a map from its unique key to the row. A transaction is one step that
applies completely or not at all, and calls are serial, except in
`LockInterleaving`, where each database write of the failure handler is a step
of its own. Each service is a class whose methods are proved to have a given
effect on the tables; the properties over runs are proved about those effects.
Since the methods are total on states that satisfy the invariants, every such
effect exists, and the theorems that assume one are not empty.

## Assumptions

- Fresh identifiers and random tokens come from counters, so they were never
  handed out before; a new question's identifier is also unlike any the request
  names. Hashes are injective. Time never goes backwards; a lock write may come
  any time after the check that caused it.
- Refresh tokens are compared by value and may be any strings. Whether an
  unverified login is refused is a parameter of the login call.
- The case-insensitive text lookup is equality of lower-cased texts. Case folding
  lower-cases ASCII letters; white space is that of ECMAScript.
- Scores are over the reals. Ratings are 1..10
  (`src/modules/departments/dto/record-metric-entry.dto.ts:8-9`), weights are
  natural numbers, and deleting a metric row deletes its ratings
  (`prisma/schema.prisma:238-239`).
- A new question starts with usageCount 0. Unique keys are those the services
  name in their `where` clauses.
- `OPEN` stands for an invitation's status PENDING.
- The job table of `Communications` is what `scheduleJob` and `cancelJob` are
  named for. In the code both do nothing
  (`src/modules/communications/services/scheduler.service.ts:21-31`), and a poller
  reads the rows instead; it is modelled as well, and compared with the table.

## Findings

Where the code does less than its comments or names suggest, the model follows
the code, gives an input on which it fails, and proves for all inputs exactly
when it does not.

- A resent invitation link never works (`AccountSafety.ResentLinkNeverWorks`,
  `MailedLinkWorksIffFirstSent`).
- A failed login that is still being handled while the counter is reset can lock
  the cleared account afterwards (`LockInterleaving.LateWriteLocksAfterReset`). A
  reset is safe exactly when no failure is in flight (`ResetIsSafeIff`), and with
  safe resets the lock is exact (`SafeResetsLockExactly`).
- A lock that runs out does not clear the counter, so from the fifth failure on
  each further one locks the account again (`AuthLock.LockedFromTheFifth`); the
  rate bound rests on this.
- A department's first rating may lower its published rate
  (`Performance.FirstRatingMayLower`), exactly when nothing is rated yet and a 1 on
  some question alone is worth less than the staffing rate (`NeverFallsIff`).
- A broadcast created, edited or duplicated through the service has no channels,
  because the requested ones are not stored: sending it tries nobody and marks it
  sent (`Communications.ChannelsOnlyForPosts`, `ReachesNobody`). Even with channels
  a broadcast ends sent when every delivery fails (`AllFailedIsSent`,
  `EndsFailedIff`), and is then never retried; a broadcast that did fail is not
  retried either if its first failure is what ended it (`EndedAtFirstFailure`,
  `RetriableIff`).
- Archiving a scheduled broadcast does not stop it from being sent
  (`Communications.ArchivedIsStillSent`), not even if it is deleted or has no time
  when it is archived; it does exactly for broadcasts that are not scheduled
  (`ArchiveStopsPollIff`).
- A sent broadcast can be sent again, exactly when it has been removed
  (`Communications.SentTwice`, `ResendableInRunIff`, `PolledAgain`).
- Removing a department deactivates its workers but leaves `isWorker` set
  (`Roster.FlagSurvivesRemoval`); no other call modelled here leaves an unearned flag
  (`FlagsStepIff`, `FlagsRunIff`).
- The LEADER role can be granted on a roster without being recorded on the
  department, after which assigning a leader leaves two (`Roster.TwoLeaders`,
  `OneLeaderIff`).
- The generator does not reach the registration pattern below length 8 or above
  128 (`TemporaryPassword.PasswordMeetsPolicy`).
- Asking for zero weeks of attendance slices from position 0 and returns all of
  them (`WeeklyAttendance.ReportLength`).

## Model

| member | source | states |
|---|---|---|
| Text.NormaliseDecidesWords | src/modules/departments/departments.service.ts:638 | two question texts are stored alike if and only if they consist of the same words, whatever white space separates or surrounds them |
| Text.NormaliseJoinsWords | src/modules/departments/departments.service.ts:638 | the stored text is the words joined by single blanks |
| Text.NormaliseIdempotent | src/modules/departments/departments.service.ts:638 | a stored text is stored unchanged |
| Text.TrimLowerIdempotent | src/auth/services/auth-user.service.ts:11-13 | normalising an email twice is normalising it once |
| Text.LowerDecidesCase | src/modules/departments/departments.service.ts:639-641 | two texts are equal when lower-cased if and only if they have the same length and, position by position, equal characters or the same ASCII letter in either case (code points 32 apart) |
| Text.NormaliseShape | src/modules/departments/departments.service.ts:638 | a stored text has no white space at its ends and only single blanks in between, and the same visible characters in the same order |
| Text.TrimmedIff | src/modules/departments/departments.service.ts:600-606 | trimming leaves something if and only if some character is not white space |
| DepartmentMetricsService.DepartmentsService.SetDepartmentMetrics | src/modules/departments/departments.service.ts:588-739 | the configuration call is refused exactly with the error the request deserves, leaving the whole state unchanged, and otherwise has exactly the effect of replacing the department's question-to-weight map |
| DepartmentMetricsService.DepartmentsService.CheckRequest | src/modules/departments/departments.service.ts:593-619 | the checks before the transaction report the first problem of the request that does not depend on the question bank |
| DepartmentMetricsService.Resolve | src/modules/departments/departments.service.ts:623-658 | the resolving loop reports the first missing or repeated question, or yields a plan that names for each item a question reading as the item does at the item's weight, having added only unused questions with texts nobody had |
| DepartmentMetricsService.ResolveItem | src/modules/departments/departments.service.ts:627-649 | one item yields the question it names or reads as, and a missing one only for an unknown identifier; the bank keeps every question and stays free of texts equal up to case |
| DepartmentMetricsService.FindByText | src/modules/departments/departments.service.ts:639-641 | the case-insensitive lookup finds a question whose text agrees with the given one character by character up to the case of ASCII letters, if there is one |
| DepartmentMetricsService.DropRemoved | src/modules/departments/departments.service.ts:661-678 | exactly the rows that were not asked for go, with their ratings and one reference of their question each |
| DepartmentMetricsService.WriteRows | src/modules/departments/departments.service.ts:680-704 | planned questions have rows of the planned weight, kept rows keep their identifier, new rows have fresh ones and count once, all else is as before |
| DepartmentMetricsService.DepartmentsService.RecordMetricEntries | src/modules/departments/departments.service.ts:741-798 | the ratings are recorded if and only if every one is for a metric of the department; the last rating per metric and period stays, all other ratings are untouched |
| DepartmentMetricsService.UpsertAll | src/modules/departments/departments.service.ts:756-776 | after the upserts the last rating given for each metric and period stands, and other ratings are as before |
| DepartmentMetricsService.CountDecidesOwnership | src/modules/departments/departments.service.ts:746-754 | comparing the number of rows found with the number of distinct identifiers is right: they are equal if and only if every rated metric belongs to the department |
| DepartmentMetricsTheorems.AcceptedIff | src/modules/departments/departments.service.ts:593-658 | a request is accepted if and only if the department exists, each item names exactly one of identifier and text, CUSTOM weights are given and total 100, named questions exist, and no two items read the same |
| DepartmentMetricsTheorems.RequestedReads | src/modules/departments/departments.service.ts:680-704 | the new map has one question per item, reading as the item does and weighing what it weighs, and its weights total those requested |
| DepartmentMetricsTheorems.RequestedIff | src/modules/departments/departments.service.ts:623-658 | a question is in the new map if and only if its text is requested |
| DepartmentMetricsTheorems.GuardNeverSkips | src/modules/departments/departments.service.ts:671-677 | a question that some row references has a positive usageCount, so the guard on the bulk decrement never skips a removed question |
| DepartmentMetricsTheorems.RefCountsKept | src/modules/departments/departments.service.ts:661-704 | usageCount stays the number of metric rows, over all departments, that reference the question |
| DepartmentMetricsTheorems.BankKept | src/modules/departments/departments.service.ts:627-649 | resolving keeps the stored texts normalised and pairwise different when case is ignored |
| DepartmentMetricsTheorems.TotalsKept | src/modules/departments/departments.service.ts:607-619 | every department in CUSTOM mode keeps weights totalling exactly 100 |
| DepartmentMetricsTheorems.StepKeepsInv | src/modules/departments/departments.service.ts:588-798 | every accepted or refused call, recording ratings included, keeps reference counts, distinct texts, unique row identifiers, owned ratings and CUSTOM totals |
| DepartmentMetricsTheorems.RunKeepsInv | src/modules/departments/departments.service.ts:588-798 | so does every run of such calls on any departments, from any state that satisfies them |
| DepartmentMetricsTheorems.NoDuplicateTexts | src/modules/departments/departments.service.ts:637-649 | no run from the empty database puts two questions in the bank whose normalised texts are equal ignoring case |
| DepartmentMetricsTheorems.KeptIffRequested | src/modules/departments/departments.service.ts:661-704 | a known question is in the department afterwards if and only if its text was requested, or, after a refused request, if it was there before |
| DepartmentMetricsTheorems.RatingsSurviveExactly | src/modules/departments/departments.service.ts:660-704 | a metric row survives with its identifier if and only if the request was refused, the row belongs to another department or its question is requested again, and a past rating survives unchanged exactly with its row |
| DepartmentMetricsTheorems.OthersUntouched | src/modules/departments/departments.service.ts:661-704 | a request on one department, accepted or refused, leaves every other department's map and ratings as they were |
| DepartmentMetricsTheorems.Idempotent | src/modules/departments/departments.service.ts:588-716 | repeating a request, free-text questions included, changes nothing at all |
| DepartmentMetricsMeaning.AcceptedInWords | src/modules/departments/departments.service.ts:593-658 | a request is accepted if and only if the department is there, every item has an identifier or a visible text but not both, CUSTOM weights are all given and total 100, named questions are known, and no two items ask for texts that agree up to the case of letters |
| DepartmentMetricsMeaning.RefusedAs | src/modules/departments/departments.service.ts:593-619 | each error of the checks is given exactly when its check fails and none before it does; a wrong total is reported as it is |
| DepartmentMetricsMeaning.AcceptedExactly | src/modules/departments/departments.service.ts:680-716 | after an accepted request every item has a row for a question it names or spells out, at the item's weight in CUSTOM mode and 0 otherwise, every row of the department is one of these, and the mode is the requested one |
| DepartmentMetricsMeaning.KnownIsReused | src/modules/departments/departments.service.ts:637-649 | a known question whose text agrees with an item's up to the case of letters gets the department's row, and no other question reads so afterwards |
| DepartmentMetricsMeaning.NewQuestionIsAsked | src/modules/departments/departments.service.ts:637-649 | a question added to the bank is stored as an item spells it, agrees with no question there before, has a row in this department and a usageCount of 1 |
| DepartmentMetricsMeaning.NoTwins | src/modules/departments/departments.service.ts:637-649 | in every reachable state no two stored texts agree up to the case of letters, and every one is free of superfluous white space |
| Performance.RateIsPercentage | src/modules/departments/departments.service.ts:877-921 | the published rate and both rates it is chosen from lie in 0..100 |
| Performance.RatedRateIsMean | src/modules/departments/departments.service.ts:881-889 | the rated rate is ten times the weighted mean of the ratings, unrated ones counting 0, rounded to the nearest integer, stated in whole numbers |
| Performance.StaffingRateIsShare | src/modules/departments/departments.service.ts:897-907 | the staffing rate, which is published without ratings, is 70 by the share of workers plus 30 by that of trainees, each capped at the number of active members, rounded to the nearest integer |
| Performance.PublishedRate | src/modules/departments/departments.service.ts:877-921 | the published rate, which of the two it is and of what numbers: ten times the weighted mean if and only if something is rated, otherwise 70 by the workers and 30 by the trainees per active member, and 0 when there is no weight or no active member to divide by |
| Performance.SumsOfOne | src/modules/departments/departments.service.ts:882-887 | of what the mean is: one metric adds its weight in CUSTOM mode and 1 in EQUAL mode to the total, and that times its rating, 0 if unrated, to the points |
| Performance.FetchedReads | src/modules/departments/departments.service.ts:841-852 | each metric enters the rate with its own weight and exactly the rating recorded for it and the period |
| Performance.CustomShownIsTotal | src/modules/departments/departments.service.ts:893 | the weights shown for a CUSTOM department are those it is rated by, and add up to their total |
| Performance.RateIgnoresOrder | src/modules/departments/departments.service.ts:882-889 | the rate does not depend on the order in which metrics are fetched |
| Performance.RateMonotone | src/modules/departments/departments.service.ts:878-907 | once something is rated, raising ratings or rating more never lowers the rate |
| Performance.NeverFallsIff | src/modules/departments/departments.service.ts:877-921 | for given staffing, no later rating lowers the published rate if and only if there is nothing to rate, something is rated already, or for every question its share of ten points (a 1 on it alone) reaches the present rate |
| Performance.NeverFallsForAnyStaffingIff | src/modules/departments/departments.service.ts:877-921 | no later rating lowers the rate under any staffing if and only if there is nothing to rate or something is rated already |
| Performance.FirstRatedRate | src/modules/departments/departments.service.ts:881-889 | a first rating of 1 on question k makes the rate ten times the question's share of the weight, so at most 10, whatever it was |
| Performance.FirstRatingMayLower | src/modules/departments/departments.service.ts:878-907 | the failing input: one unrated question and full staffing, where a first rating of 1 takes the rate from 100 to 10 |
| Performance.UniformRate | src/modules/departments/departments.service.ts:882-889 | rating everything r yields exactly 10 r, whatever the weights and the mode |
| Performance.DisplayedWeightsNear100 | src/modules/departments/departments.service.ts:893 | the equal-mode weights shown for n questions add up to within n/20 of 100 |
| Performance.FetchedUsesLastRating | src/modules/departments/departments.service.ts:757-776 | after recording ratings, the rate is computed from the last one given per metric and period |
| Performance.ReachableCustomRate | src/modules/departments/departments.service.ts:877-889 | in every reachable state a CUSTOM department's total weight is 100, so its rate is its rounded weighted score |
| TemporaryPassword.ShuffleInPlace | src/common/utils/password-generator.util.ts:18-21 | the loop leaves the array holding the specified shuffle of its old contents for the given draws |
| TemporaryPassword.GenerateTemporaryPassword | src/common/utils/password-generator.util.ts:13-23 | the returned string is the shuffle of the picked characters; PasswordOfDraws and PicksBijection say which these are |
| TemporaryPassword.ShufflePermutes | src/common/utils/password-generator.util.ts:18-21 | every sequence of draws yields a permutation of the items |
| TemporaryPassword.DrawsFound | src/common/utils/password-generator.util.ts:18-21 | every rearrangement is reached by some valid draws (surjectivity) |
| TemporaryPassword.DrawsUnique | src/common/utils/password-generator.util.ts:18-21 | draws that give the same arrangement of distinct items agree at every position (injectivity) |
| TemporaryPassword.ShuffleBijection | src/common/utils/password-generator.util.ts:18-21 | for every n, each permutation of the n positions comes from exactly one sequence of draws |
| TemporaryPassword.ShuffleFollowsPositions | src/common/utils/password-generator.util.ts:18-21 | items follow their positions, so the correspondence holds for any items, repeated characters included |
| TemporaryPassword.PasswordMeetsPolicy | src/common/utils/password-generator.util.ts:13-23 | for every length and all draws the password is a rearrangement of the picks of length max(4, length), and matches the registration pattern if and only if 8 <= length <= 128 |
| TemporaryPassword.PicksBijection | src/common/utils/password-generator.util.ts:13-17 | for any four characters of the four kinds and any filler string of the right length over the whole set, exactly one sequence of draws yields them |
| TemporaryPassword.PasswordOfDraws | src/common/utils/password-generator.util.ts:13-23 | the password consists of one character of each kind and, for each filler draw, the character drawn from the whole set |
| TemporaryPassword.PlacedByDraw | src/common/utils/password-generator.util.ts:18-21 | each position gets the item drawn for it from those not yet placed |
| TemporaryPassword.SetsInWords | src/common/utils/password-generator.util.ts:3-6 | the capitals but I and O, the small letters but l, the digits but 0 and 1, and eight symbols |
| AuthLock.AuthLockService.IncrementFailedLoginAttempts | src/auth/services/auth-lock.service.ts:22-43 | from the fifth failure on the account is locked for exactly the next fifteen minutes; before it, it is locked as it was |
| AuthLock.AuthLockService.ResetFailedLoginAttempts | src/auth/services/auth-lock.service.ts:48-56 | the account is open at any time, and stays so through the next four failures whenever they come |
| AuthLock.LockedFromTheFifth | src/auth/services/auth-lock.service.ts:14-43 | counting from a reset, the account is locked at time t if and only if at least five failures were recorded and the last is less than fifteen minutes before t |
| AuthLock.FailuresSpaced | src/auth/services/auth-lock.service.ts:14-43 | in a run of sequential attempts without reset, from the fifth failure on consecutive failed checks are at least fifteen minutes apart, and none happens before a pending lock has run out |
| AuthLock.RateBound | src/auth/services/auth-lock.service.ts:14-43 | any window of length T holds at most 5 + floor(T / 15 min) failed checks |
| AuthLock.RateBoundAttained | src/auth/services/auth-lock.service.ts:14-43 | some run attains the bound for every T |
| LockInterleaving.RunKeepsInv | src/auth/services/auth-lock.service.ts:22-56 | in every interleaving of increments, lock writes and resets the counter is the number of failures since the last reset, and the invariant behind the rows below holds |
| LockInterleaving.NeverLeftOpen | src/auth/services/auth-lock.service.ts:22-43 | a counter of five or more means that the lock is set or that an unfinished failure which saw five or more has still to set it |
| LockInterleaving.ResetIsSafeIff | src/auth/services/auth-lock.service.ts:22-56 | after a reset no lock is ever set on a count below five, in any continuation up to the next reset, if and only if no failure was in flight at the reset |
| LockInterleaving.SafeResetsLockExactly | src/auth/services/auth-lock.service.ts:22-56 | in runs whose resets are all of that kind a lock means a count of at least five and lasts at least fifteen minutes from the fifth failure, and with no failure in flight it is set if and only if five or more failures came since the last reset |
| LockInterleaving.LateWrite | src/auth/services/auth-lock.service.ts:31-41 | from any state with a failure in flight, at most two steps set the lock without changing the count |
| LockInterleaving.LockIsDeserved | src/auth/services/auth-lock.service.ts:22-56 | in all runs, a lock written by a failure from after the last reset means a count of at least five and lasts at least fifteen minutes from the fifth failure |
| LockInterleaving.LockIsShort | src/auth/services/auth-lock.service.ts:31-41 | in all runs a lock ends exactly fifteen minutes after the step that computed it, so never more than fifteen minutes from the present |
| LockInterleaving.LateWriteLocksAfterReset | src/auth/services/auth-lock.service.ts:31-56 | the failing run from the start: an interleaving that ends with counter 0 and the lock set |
| AccountService.AccountServices.FindUserByEmail | src/users/users.service.ts:71-79 | the lookup finds the user with that email if there is one |
| AccountService.AccountServices.FindInviteByToken | src/modules/invites/invites.service.ts:104-106 | the lookup finds the invitation that stores exactly this token |
| AccountService.AccountServices.SendVerificationEmail | src/auth/services/auth-email.service.ts:80-96 | the mailed link works for exactly 24 hours, no other verification link of the user works, and the table keeps its invariant |
| AccountService.AccountServices.SendPasswordResetEmail | src/auth/services/auth-email.service.ts:144-160 | the mailed link works for exactly one hour, no other reset link of the user works, and the table keeps its invariant |
| AccountService.AccountServices.ValidateUserCredentials | src/auth/auth.service.ts:51-89 | the call has exactly the specified effect and outcome in every branch, and keeps the account invariant; so for the calls below |
| AccountService.AccountServices.LogIn | src/auth/auth.service.ts:94-167 | login; LoginLaw says what the outcome means for the password and the tables |
| AccountService.AccountServices.RegisterUser | src/auth/auth.service.ts:173-283 | registration, with or without an invitation token |
| AccountService.AccountServices.OpenAccount | src/auth/auth.service.ts:215-275 | opening an account under a new email keeps the account invariant, closes the invitation it was made on for good, and leaves the new user one verification link that works for 24 hours |
| AccountService.AccountServices.RefreshTokens | src/auth/auth.service.ts:288-319 | refresh-token rotation; RefreshLaw says which token is accepted |
| AccountService.AccountServices.LogOut | src/auth/auth.service.ts:324-332 | logout |
| AccountService.AccountServices.RequestReset | src/auth/auth.service.ts:365-379 | request for a reset link |
| AccountService.AccountServices.ResetUserPassword | src/auth/auth.service.ts:384-439 | password reset by link |
| AccountService.AccountServices.ChangeUserPassword | src/auth/auth.service.ts:447-487 | password change by the user |
| AccountService.AccountServices.VerifyUserEmail | src/auth/auth.service.ts:492-551 | email verification by link |
| AccountService.AccountServices.ResendVerificationEmail | src/auth/auth.service.ts:564-589 | new verification link |
| AccountService.AccountServices.ResendPendingMemberVerification | src/modules/admin/admin.service.ts:329-347 | new verification link on an administrator's request |
| AccountService.AccountServices.SendInvitation | src/modules/invites/invites.service.ts:36-98 | new or replaced invitation |
| AccountService.AccountServices.ValidateInviteToken | src/modules/invites/invites.service.ts:103-132 | look at an invitation, marking it expired when it is |
| AccountService.AccountServices.AcceptInvitation | src/modules/invites/invites.service.ts:137-183 | account from an invitation |
| AccountService.AccountServices.CancelInvitation | src/modules/invites/invites.service.ts:213-238 | cancelled invitation |
| AccountService.AccountServices.ResendInvitation | src/modules/invites/invites.service.ts:243-284 | resent invitation, storing the digest of the mailed token |
| AccountService.AccountServices.DecideApproval | src/modules/admin/admin.service.ts:290-328 | approval or rejection of a pending account |
| AccountService.AccountServices.HardDeletePendingMember | src/modules/admin/admin.service.ts:349-371 | removal of a pending account with its links |
| AccountService.AccountServices.CreateAccount | src/users/users.service.ts:81-143 | an account under an email nobody has, verified and approved from the start; refused for an email in use |
| AccountService.AccountServices.CreateMember | src/modules/admin/admin.service.ts:424-460 | provisioned member account |
| AccountService.AccountServices.CreateAdmin | src/modules/super-admin/super-admin.service.ts:715-759 | provisioned account of the role a super administrator names |
| AccountLaws.NormalEmailShape | src/auth/services/auth-user.service.ts:11-13 | the normal form agrees up to the case of letters with what is left of the email between white space at its ends, and has no capital |
| AccountLaws.LoginLaw | src/auth/auth.service.ts:94-167 | tokens are issued if and only if the user with the normalised email is active, undeleted, approved, unlocked, verified where required, and the password fits; the attempt counts as wrong if and only if that user is active, undeleted, unlocked, and it does not; every column afterwards |
| AccountLaws.LoginUnknown | src/auth/auth.service.ts:103-108 | for an email nobody has, login is unauthorised and changes nothing |
| AccountLaws.ValidateUserLaw | src/auth/auth.service.ts:51-89 | local validation accepts if and only if the user is active, undeleted, approved and unlocked and the password fits, counts a wrong one for just these users, and is unauthorised without effect for all others |
| AccountLaws.RefreshLaw | src/auth/auth.service.ts:288-319 | new tokens are given if and only if the user is there, active, undeleted and approved and the non-empty token is the one whose hash is stored, which they replace; otherwise nothing changes |
| AccountLaws.LogoutLaw | src/auth/auth.service.ts:324-332 | the session of an existing user ends, and nothing else changes |
| AccountLaws.ForgotPasswordLaw | src/auth/auth.service.ts:365-379 | a link is sent if and only if an active undeleted user has the email; only the links change |
| AccountLaws.ResetPasswordLaw | src/auth/auth.service.ts:384-439 | the password is replaced if and only if the link is stored, unused and unexpired and its user is active and undeleted; then the new password is stored, the session and the lock are cleared and the link is used, and nothing else changes |
| AccountLaws.ChangePasswordLaw | src/auth/auth.service.ts:447-487 | the password is replaced by the new one if and only if the user is undeleted and the current one fits; the session ends and the lock stays |
| AccountLaws.VerifyEmailLaw | src/auth/auth.service.ts:492-551 | the call succeeds if and only if the link is stored, unused and unexpired and its user is active and undeleted; afterwards the user is verified, the link is used, and exactly the user's other unused links are gone |
| AccountLaws.ResendVerificationLaw | src/auth/auth.service.ts:564-589 | a link is sent if and only if the user is active, undeleted and unverified; a verified one is told so |
| AccountLaws.AdminResendVerificationLaw | src/modules/admin/admin.service.ts:329-347 | a link is sent if and only if the account is that of an undeleted, unverified member |
| AccountLaws.RegisterLaw | src/auth/auth.service.ts:173-275 | without a token: an account is made if and only if nobody has the email, as an unverified pending member with the given password; a conflict if and only if a live account has it |
| AccountLaws.RegisterInvitedLaw | src/auth/auth.service.ts:184-275 | with a token: if and only if also the invitation is open, unexpired and for this email; the account gets its role and the invitation is closed; each refusal and its effect |
| AccountLaws.RegisterUninvitedLaw | src/auth/auth.service.ts:184-195 | a token that no invitation carries is refused without effect |
| AccountLaws.AcceptInviteLaw | src/modules/invites/invites.service.ts:137-183 | an account is made if and only if the invitation is open and unexpired and nobody has its email; it has that email and role and the given password, is verified and pending, and the invitation is closed; each refusal and its effect |
| AccountLaws.ProvisionLaw | src/users/users.service.ts:81-143 | an account is made if and only if nobody has the email: verified, approved, with the given role and password, and nothing else changes |
| AccountLaws.SendInviteLaw | src/modules/invites/invites.service.ts:36-98 | an invitation is sent if and only if no live account has the email; it carries the mailed token and the role, is open for 48 hours, and replaces only an earlier one to that email |
| AccountLaws.ValidateInviteLaw | src/modules/invites/invites.service.ts:103-132 | a token is found good if and only if its invitation is open and unexpired; one that has run out is marked expired, and nothing else changes |
| AccountLaws.UnknownTokenLaw | src/modules/invites/invites.service.ts:103-150 | a token that no invitation carries is not found, neither to look at nor to accept |
| AccountLaws.CancelInviteLaw | src/modules/invites/invites.service.ts:213-238 | exactly an open invitation is cancelled, and nothing else changes |
| AccountLaws.ResendInviteLaw | src/modules/invites/invites.service.ts:243-284 | exactly an open invitation is resent: it keeps its role, stores the digest of the mailed token and is open for seven days |
| AccountLaws.DecideLaw | src/modules/admin/admin.service.ts:290-328 | the account is approved if and only if approval, and rejected if and only if rejection, is asked for, exactly when it is live, pending and, unless a super administrator decides, a member's; no other column changes |
| AccountLaws.HardDeleteLaw | src/modules/admin/admin.service.ts:349-371 | exactly a live pending member is removed, with the member's links and no others |
| AccountLaws.UpdateStatusLaw | src/modules/super-admin/super-admin.service.ts:418-440 | role and activity become what is given and stay otherwise; no other column changes |
| AccountLaws.SoftDeleteLaw | src/users/users.service.ts:246-260 | the user is inactive and deleted afterwards, and nothing else changes |
| AccountPasswords.StoredPasswordIsCurrent | src/auth/auth.service.ts:173-487 | after every run a user's stored hash is that of the password set last, by the account's creation, a reset or a change |
| AccountPasswords.OnlyCurrentPasswordPasses | src/auth/auth.service.ts:51-167 | over runs: login and local validation accept a user only on the password set last, and count as wrong only another one or an empty one |
| AccountPasswords.RefreshNeedsSession | src/auth/auth.service.ts:288-319 | over runs: a refresh succeeds only on the token of the user's last session, not ended since |
| AccountSteps.IssueMoves | src/auth/services/auth-email.service.ts:85-96 | issuing a link replaces the user's unused one by a fresh one and revives nothing |
| AccountSteps.ConsumeMoves | src/auth/auth.service.ts:400-416 | using a link up leaves every other ticket as it was and revives nothing |
| AccountSteps.ClearMoves | src/auth/auth.service.ts:510-528 | verification uses the link up and clears the user's other unused ones |
| AccountSteps.LoginSound | src/auth/auth.service.ts:94-167 | login keeps the invariant (unique emails, one unused link per kind and user, no verification link for a verified user, distinct issued invitation tokens) and moves session, lock and approval as the outcome says; likewise the rows below |
| AccountSteps.ValidateUserSound | src/auth/auth.service.ts:51-89 | local validation |
| AccountSteps.RegisterSound | src/auth/auth.service.ts:173-283 | registration |
| AccountSteps.RefreshSound | src/auth/auth.service.ts:288-319 | refresh |
| AccountSteps.LogoutSound | src/auth/auth.service.ts:324-332 | logout |
| AccountSteps.ForgotPasswordSound | src/auth/auth.service.ts:365-379 | reset request |
| AccountSteps.ResetPasswordSound | src/auth/auth.service.ts:384-439 | password reset |
| AccountSteps.ChangePasswordSound | src/auth/auth.service.ts:447-487 | password change |
| AccountSteps.VerifyEmailSound | src/auth/auth.service.ts:492-551 | email verification |
| AccountSteps.ResendVerificationSound | src/auth/auth.service.ts:564-589 | resent verification |
| AccountSteps.AdminResendVerificationSound | src/modules/admin/admin.service.ts:329-347 | verification resent by an administrator |
| AccountSteps.SendInviteSound | src/modules/invites/invites.service.ts:36-98 | sent invitation |
| AccountSteps.ValidateInviteSound | src/modules/invites/invites.service.ts:103-132 | validated invitation |
| AccountSteps.AcceptInviteSound | src/modules/invites/invites.service.ts:137-183 | accepted invitation |
| AccountSteps.CancelInviteSound | src/modules/invites/invites.service.ts:213-238 | cancelled invitation |
| AccountSteps.ResendInviteSound | src/modules/invites/invites.service.ts:243-284 | resent invitation |
| AccountSteps.DecideSound | src/modules/admin/admin.service.ts:290-328 | approval or rejection |
| AccountSteps.HardDeletePendingSound | src/modules/admin/admin.service.ts:349-371 | removal of a pending account |
| AccountSteps.ProvisionSound | src/users/users.service.ts:81-143 | provisioned account, of any role |
| AccountSteps.UpdateStatusSound | src/modules/super-admin/super-admin.service.ts:418-440 | role or activity changed by a super administrator |
| AccountSteps.SoftDeleteSound | src/users/users.service.ts:246-260 | soft deletion |
| AccountSafety.ReachableInv | src/auth/auth.service.ts:51-589 | every state reached by any mix of the calls satisfies the account invariant: in particular at most one unused reset and one unused verification link per user, and none of the latter for a verified user |
| AccountSafety.StoredHashIsSession | src/auth/services/auth-token.service.ts:48-70 | the stored refresh hash is always the hash of the token of the user's last session, or none if the session was ended since |
| AccountSafety.OnlyTheLastTokenPasses | src/auth/auth.service.ts:307-315 | a refresh token passes the stored-hash check if and only if it is the last one issued to the user with no later logout, reset or password change |
| AccountSafety.DecisionIsFinal | src/modules/admin/admin.service.ts:290-321 | an approval status other than pending never changes again |
| AccountSafety.DecidedAtMostOnce | src/modules/admin/admin.service.ts:290-321 | no account is approved or rejected twice in a run |
| AccountSafety.ApprovalHasSource | src/modules/admin/admin.service.ts:290-443 | an approved account was approved by a decision or created approved by an administrator or super administrator |
| AccountSafety.TokensNeedApproval | src/auth/auth.service.ts:135-313 | every token pair issued by login or refresh is preceded in the run by that approval |
| AccountSafety.DeadResetLinkStaysDead | src/auth/services/auth-email.service.ts:149-218 | a consumed, superseded or expired reset link never validates again in the run |
| AccountSafety.DeadVerificationLinkStaysDead | src/auth/services/auth-email.service.ts:85-231 | the same for verification links |
| AccountSafety.ResetLeavesNoLink | src/auth/auth.service.ts:400-416 | a successful reset used a valid link and leaves the user without any unused one |
| AccountSafety.NoLinkUntilNewOne | src/auth/auth.service.ts:400-416 | from then on no reset link of the user validates until a new one is sent to that user |
| AccountSafety.NewResetLink | src/auth/services/auth-email.service.ts:149-218 | a new reset link validates for exactly one hour and no other link of the user does |
| AccountSafety.ValidLinkMeansUnverified | src/auth/auth.service.ts:506-528 | in every reachable state a valid verification link belongs to a user who is still unverified |
| AccountSafety.DeadInviteStaysDead | src/modules/invites/invites.service.ts:55-259 | a token that was accepted, cancelled, marked expired, replaced or has run out is never acceptable again |
| AccountSafety.CancelledOrReplacedIsDead | src/modules/invites/invites.service.ts:213-259 | cancelling, resending or sending again kills the old token at once |
| AccountSafety.CreationClosesInvite | src/modules/invites/invites.service.ts:137-176 | an account is created on a token only while it is acceptable, and closes it |
| AccountSafety.OneAccountPerToken | src/auth/auth.service.ts:184-246 | each invitation token yields at most one account in a run |
| AccountSafety.NonMemberNeedsInvitation | src/auth/auth.service.ts:184-246 | an account made by registration or acceptance with a role above MEMBER was made on an open unexpired invitation for that role and that (normalised) email |
| AccountSafety.InviteHasSender | src/modules/invites/invites.service.ts:55-69 | in every reachable state an invitation's role is that of an earlier call that sent it to this email |
| AccountSafety.NonMemberHasSender | src/modules/invites/invites.service.ts:55-176 | over runs: an account above MEMBER made by registration or acceptance is preceded by an administrator's call that sent an invitation for that role to that (normalised) email |
| AccountSafety.MailedLinkWorksIffFirstSent | src/modules/invites/invites.service.ts:250-257 | a mailed invitation link is acceptable if and only if it was sent, not resent, and at most 48 hours ago: a resent link never works, since the row stores a digest and lookup is by the raw token |
| AccountSafety.ResentLinkNeverWorks | src/modules/invites/invites.service.ts:243-284 | the failing run from empty tables: an invitation is sent and resent, and the resent link is acceptable at no time |
| AccountSafety.GuessesAreAttempts | src/auth/auth.service.ts:66-116 | for one user's lock a run of all the services is a run of the sequential attempts of AuthLock (refinement) |
| AccountSafety.AccountRateBound | src/auth/auth.service.ts:66-116 | in a serial run in which nothing clears the user's lock, any window of length T holds at most 5 + floor(T / 15 min) wrong-password checks of that user, login and local validation together |
| Roster.DepartmentsRoster.AddDepartmentMember | src/modules/departments/departments.service.ts:243-300 | every branch of the call, with the invariant kept: a member added as active is flagged and has a live active worker at home in the department; one added otherwise changes no worker |
| Roster.DepartmentsRoster.UpdateMemberAssignment | src/modules/departments/departments.service.ts:352-421 | every branch, with the invariant kept: when the status changes, a worker at home in the department is active if and only if the new status is; any other worker is left alone |
| Roster.DepartmentsRoster.RemoveDepartmentMember | src/modules/departments/departments.service.ts:482-506 | every branch, with the invariant kept: the member is no longer seated, and every other seat is as it was |
| Roster.DepartmentsRoster.Remove | src/modules/departments/departments.service.ts:1090-1125 | every branch, with the invariant kept: afterwards the seats are those of other departments, nobody serves the removed one, and workers at home elsewhere serve as before |
| Roster.DepartmentsRoster.AssignDepartmentLeader | src/modules/departments/departments.service.ts:133-211 | every branch, with the invariant kept: the new leader replaces the recorded one among the department's leaders and is recorded, and leaders stay recorded if they were |
| Roster.DepartmentsRoster.BackfillWorkersFromRoster | src/modules/departments/departments.service.ts:984-1021 | for any completion order of the batch, the invariant is kept, the state is the fold of the writes and the count is that of the rows to backfill |
| Roster.WritesDecide | src/modules/departments/departments.service.ts:998-1021 | after the batch the last upsert of a member decides the member's worker, and members not written to are as before |
| Roster.BackfillPerMember | src/modules/departments/departments.service.ts:984-1021 | for any completion order, a member needing it gets one live active worker at home in one of the member's active departments and the flag, and every other member is untouched |
| Roster.BackfillComplete | src/modules/departments/departments.service.ts:984-1021 | afterwards every active undeleted roster member has a live worker, and a second run finds nothing to do |
| Roster.BackfillOrder | src/modules/departments/departments.service.ts:998-1021 | two completion orders differ at most in which of a member's active departments becomes the worker's |
| Roster.AddMemberKeeps | src/modules/departments/departments.service.ts:243-300 | adding a member keeps the worker flags, and the leader record unless it grants LEADER |
| Roster.UpdateAssignmentKeeps | src/modules/departments/departments.service.ts:352-421 | the same for an assignment change |
| Roster.RemoveMemberKeeps | src/modules/departments/departments.service.ts:482-506 | removal keeps both |
| Roster.RemoveDepartmentKeeps | src/modules/departments/departments.service.ts:1090-1125 | department removal keeps both |
| Roster.AssignLeaderKeeps | src/modules/departments/departments.service.ts:133-211 | leader assignment keeps both |
| Roster.BackfillKeeps | src/modules/departments/departments.service.ts:984-1021 | the batch keeps both, in any order |
| Roster.StepKeeps | src/modules/departments/departments.service.ts:133-1125 | every call keeps: an active undeleted worker's member has isWorker set |
| Roster.RunKeepsInv | src/modules/departments/departments.service.ts:133-1125 | so does every run |
| Roster.RemovalKeepsFlagsIff | src/modules/departments/departments.service.ts:1103-1125 | removing a department keeps the converse (a flagged member has a live active worker) if and only if no flagged member's worker is at home there |
| Roster.FlagsStepIff | src/modules/departments/departments.service.ts:133-1125 | of all calls, exactly the removal of a department that is home to a flagged member's worker leaves a flag without a live active worker |
| Roster.FlagsRunIff | src/modules/departments/departments.service.ts:133-1125 | over runs: every flag is earned throughout if and only if no call is such a removal |
| Roster.FlagSurvivesRemoval | src/modules/departments/departments.service.ts:1103-1125 | a run from empty tables that ends with a flagged member without an active worker |
| Roster.AssignLeaderReplaces | src/modules/departments/departments.service.ts:161-211 | LEADER rows afterwards are the old ones without the recorded leader's, plus the new leader's; other departments, workers and flags are untouched |
| Roster.OneLeaderIff | src/modules/departments/departments.service.ts:161-211 | exactly one LEADER row results, the new leader's, if and only if every LEADER row before was the recorded or the new leader's |
| Roster.TwoLeaders | src/modules/departments/departments.service.ts:133-300 | a run from empty tables that assigns a leader and ends with two |
| Roster.AtMostOneLeader | src/modules/departments/departments.service.ts:133-421 | in a run in which no other call grants the role, each department has at most one LEADER row, that of the recorded leader |
| RosterLaws.AddMemberLaw | src/modules/departments/departments.service.ts:243-300 | refused as a conflict exactly for a seat already there; otherwise the seat has the role and status asked for (active by default), and an active member becomes a live worker there with the flag |
| RosterLaws.UpdateAssignmentLaw | src/modules/departments/departments.service.ts:352-421 | refused exactly without a live seat; otherwise role and status become what is given and stay otherwise, and no other seat or member's worker changes |
| RosterLaws.UpdateAssignmentFlags | src/modules/departments/departments.service.ts:375-421 | a worker at home here is stopped and unflagged, or started, undeleted and flagged, exactly when the status changes from or to active and the worker was otherwise |
| RosterLaws.RemoveMemberLaw | src/modules/departments/departments.service.ts:482-506 | refused exactly without a live seat; otherwise the seat is marked deleted, and nothing else changes |
| RosterLaws.RemoveDepartmentLaw | src/modules/departments/departments.service.ts:1090-1125 | refused exactly for a missing or removed department; otherwise its seats are marked deleted and its live workers inactive, and nothing else changes |
| RosterLaws.AssignLeaderLaw | src/modules/departments/departments.service.ts:133-211 | refused exactly for a missing department or a member without a live active seat; otherwise the seat has LEADER, the recorded leader's is MEMBER again, the department records the new one, and nothing else changes |
| RosterLaws.ToBackfillLaw | src/modules/departments/departments.service.ts:985-992 | a row is to be backfilled if and only if it is active and undeleted and its member has no undeleted worker |
| Broadcasting.DeliverAll | src/modules/communications/services/broadcast.service.ts:80-131 | the nested loops stop exactly at the first delivery whose failure log cannot be written, and have counted and logged all those tried as specified |
| Broadcasting.CompletedCounts | src/modules/communications/services/broadcast.service.ts:80-140 | in a broadcast that runs through, successful plus failed is the number of recipients times the number of channels |
| Broadcasting.CleanIff | src/modules/communications/services/broadcast.service.ts:115-122 | the loops run through if and only if no recipient and channel has a failed delivery whose failure log cannot be written |
| Broadcasting.CrashIsLast | src/modules/communications/services/broadcast.service.ts:85-131 | the deliveries tried are a prefix of all of them, and only the last can have ended the loops |
| Broadcasting.Deliver | src/modules/communications/services/broadcast.service.ts:87-130 | one delivery with its catch ends the loop, counts as successful and logs exactly as specified; a delivery whose success cannot be logged counts as failed |
| Broadcasting.OneLogEach | src/modules/communications/services/broadcast.service.ts:103-124 | in a broadcast that runs through, each delivery on a logged channel leaves one log entry, and those on SMS and WhatsApp the entries these write themselves |
| Broadcasting.FailureLogIff | src/modules/communications/services/broadcast.service.ts:103-124 | there is a failure entry if and only if some delivery left one |
| Communications.CommunicationsService.CreateCommunication | src/modules/communications/communications.service.ts:43-97 | every branch, with the invariant kept, as in the calls below: refused exactly for a title in use; the new row has a job if and only if a time was given |
| Communications.CommunicationsService.UpdateCommunication | src/modules/communications/communications.service.ts:210-234 | the job of a scheduled row is at the row's new time, and there is none when the time is gone |
| Communications.CommunicationsService.RemoveCommunication | src/modules/communications/communications.service.ts:263-275 | a removed row has no job and is never due |
| Communications.CommunicationsService.RestoreCommunication | src/modules/communications/communications.service.ts:303-309 | a restored row is due if and only if it is scheduled and its time is set and has come; unless archived, if and only if its job says so |
| Communications.CommunicationsService.ArchiveCommunication | src/modules/communications/communications.service.ts:336-346 | an archived row has no job and is exactly as due as it was |
| Communications.CommunicationsService.DuplicateCommunication | src/modules/communications/communications.service.ts:374-397 | the copy has no job and is never due, and the original stays as it is |
| Communications.CommunicationsService.SendCommunication | src/modules/communications/communications.service.ts:462-514 | refused as a conflict exactly for a sent row; when it succeeds the row is sent and has no job |
| Communications.CommunicationsService.ScheduleCommunication | src/modules/communications/communications.service.ts:539-556 | a scheduled row has its job at its time |
| Communications.CommunicationsService.CancelCommunication | src/modules/communications/communications.service.ts:582-595 | a cancelled schedule leaves no job and is never due |
| Communications.CommunicationsService.SendBroadcast | src/modules/communications/services/broadcast.service.ts:49-151 | one broadcast by the loops over recipients and channels: refused for a sent row; otherwise the row ends sent or failed as the loops and the last update go, and a completed one has counted every recipient on every channel exactly once |
| Communications.CommunicationsService.ProcessScheduledCommunications | src/modules/communications/services/scheduler.service.ts:37-84 | the poller's loop, in any order, broadcasts every due row and no other, catching errors |
| Communications.CommunicationsService.RetryFailedCommunications | src/modules/communications/services/scheduler.service.ts:86-116 | the hourly loop, in any order, broadcasts every undeleted failed row with a failure entry in the log its broadcasts wrote, and no other |
| Communications.NextKeepsInv | src/modules/communications/communications.service.ts:58-595 | every call keeps: a job for id at t means a SCHEDULED row with that time, and such a row has its job unless archived |
| Communications.ReachableInv | src/modules/communications/communications.service.ts:58-595 | so every reachable state satisfies both |
| Communications.PollerFollowsJobs | src/modules/communications/services/scheduler.service.ts:41-50 | in reachable states the poller picks an unarchived row exactly when its job is due and it is not deleted |
| Communications.ArchivedDueIff | src/modules/communications/services/scheduler.service.ts:41-50 | right after archiving, the row is due at some time if and only if it is scheduled with a time and not deleted |
| Communications.ArchiveStopsPollIff | src/modules/communications/communications.service.ts:336-346 | archiving keeps the poller away for good, over every further run that does not schedule the row again, if and only if the row was not scheduled: a missing time or a deletion at the archive is not enough |
| Communications.ArchivedIsStillSent | src/modules/communications/communications.service.ts:336-346 | a run in which an archived broadcast without a job is due |
| Communications.SentStaysIff | src/modules/communications/communications.service.ts:97-595 | a sent row stays sent through a call if and only if the call is not its removal, and no call broadcasts it |
| Communications.ResendableIffRemoved | src/modules/communications/communications.service.ts:263-514 | after one call, a sent row can be broadcast by a further call if and only if that call removed it; the manual send then does |
| Communications.SentOnce | src/modules/communications/communications.service.ts:462-514 | over runs: a sent row stays sent and is not broadcast again as long as it is not removed |
| Communications.ResendableInRunIff | src/modules/communications/communications.service.ts:263-514 | over runs: a row that was sent becomes sendable again if and only if it is removed in between |
| Communications.SentTwice | src/modules/communications/communications.service.ts:462-514 | a run from the empty tables that broadcasts the same row twice, removing it in between |
| Communications.PolledAgain | src/modules/communications/communications.service.ts:263-556 | a sent row that is removed, restored and scheduled is broadcast by the poller if and only if its time has come |
| Communications.EndsFailedIff | src/modules/communications/services/broadcast.service.ts:75-151 | a broadcast row ends FAILED if and only if, for some recipient and channel, the failure log cannot be written, or the last update fails; otherwise it ends SENT, however many deliveries failed; no job is left |
| Communications.RetriableIff | src/modules/communications/services/scheduler.service.ts:93-105 | a broadcast is picked by the next retry if and only if it did not complete, is not deleted, and some delivery, now or in an earlier broadcast of the row, left a failure entry |
| Communications.EndedAtFirstFailure | src/modules/communications/services/broadcast.service.ts:113-124 | a first broadcast whose loop ends at its first failure leaves no failure entry, and the retry does not pick it |
| Communications.NeverRetried | src/modules/communications/services/broadcast.service.ts:329-335 | over runs: a row without a failure entry is never picked by a retry until some other call broadcasts it |
| Communications.ChannelsOnlyForPosts | src/modules/communications/communications.service.ts:62-386 | in every reachable state a row has a channel if and only if it was made for a blog post: creating, updating and duplicating store no channels |
| Communications.ReachesNobody | src/modules/communications/services/broadcast.service.ts:83-140 | so a broadcast that was not made for a blog post tries no delivery at all and is marked SENT |
| Communications.AllFailedIsSent | src/modules/communications/services/broadcast.service.ts:84-140 | for any number of recipients, a run from empty tables in which every delivery fails and the broadcast ends SENT |
| CommunicationLaws.CreateLaw | src/modules/communications/communications.service.ts:43-97 | refused exactly for a title an undeleted row has; otherwise one row is added with title, time and recipients as given and no channels, scheduled with its job if a time is given and a draft without otherwise |
| CommunicationLaws.UpdateLaw | src/modules/communications/communications.service.ts:210-234 | title and time become what is given and stay otherwise, no other column changes, a scheduled row has its job at its new time if it has one, and no other row has a job |
| CommunicationLaws.RemoveLaw | src/modules/communications/communications.service.ts:263-275 | exactly an existing row becomes deleted and cancelled, its job goes, and nothing else changes |
| CommunicationLaws.RestoreLaw | src/modules/communications/communications.service.ts:303-309 | the row is no longer deleted, and nothing else changes |
| CommunicationLaws.ArchiveLaw | src/modules/communications/communications.service.ts:336-346 | the row is archived and its job goes; status, time and everything else stay |
| CommunicationLaws.DuplicateLaw | src/modules/communications/communications.service.ts:374-397 | one draft is added with the title marked as a copy and the recipients, without time, channels and log |
| CommunicationLaws.SendLaw | src/modules/communications/communications.service.ts:462-514 | refused exactly for a missing or sent row; otherwise only its status and log change, and its job goes |
| CommunicationLaws.MailPostLaw | src/modules/blog-posts/blog-posts.service.ts:365-379 | one row is added for the post, by email, with the given recipients, sent or failed at once |
| CommunicationLaws.ScheduleLaw | src/modules/communications/communications.service.ts:539-556 | exactly a row with a time that is not sent becomes scheduled, with its job at that time |
| CommunicationLaws.CancelLaw | src/modules/communications/communications.service.ts:582-595 | exactly a scheduled row becomes a draft again and loses its job |
| CommunicationLaws.BatchLaw | src/modules/communications/services/scheduler.service.ts:37-116 | the poller writes exactly to the undeleted scheduled rows whose time has come, status and log only, and drops their jobs; the retry writes only to undeleted failed rows |
| CommunicationLaws.DeliveryLaw | src/modules/communications/services/broadcast.service.ts:228-312 | channel by channel: when a delivery counts as successful, when it ends the loop, and when it leaves a failure entry |
| CommunicationLaws.DeliveryAt | src/modules/communications/services/broadcast.service.ts:83-101 | every recipient is tried on every channel, recipients first, with the answer for just that recipient and channel |
| WeeklyAttendance.GetWeeklyAttendance | src/modules/events/events.service.ts:430-455 | the bucketing loop, the sort and the slice yield the specified report |
| WeeklyAttendance.WeekStartIsMonday | src/modules/events/events.service.ts:434-439 | the key is midnight of the one Monday whose seven days hold the record |
| WeeklyAttendance.ReportCounts | src/modules/events/events.service.ts:433-455 | each returned bucket starts on a Monday at midnight, is numbered by position, and counts exactly the records of its seven days, at least one |
| WeeklyAttendance.ReportAscends | src/modules/events/events.service.ts:447-449 | weeks are strictly increasing |
| WeeklyAttendance.LatestKept | src/modules/events/events.service.ts:451 | a record that is not counted lies before every returned week |
| WeeklyAttendance.ReportConserves | src/modules/events/events.service.ts:433-455 | the returned counts plus the records outside every returned week add up to all the records |
| WeeklyAttendance.ReportLength | src/modules/events/events.service.ts:451 | exactly min(weeks, n) of the n weeks with records for weeks >= 1, all of them for weeks = 0; the result has at most the requested length if and only if weeks >= 1, or weeks = 0 and there are no records |
| WeeklyAttendance.ReportIgnoresOrder | src/modules/events/events.service.ts:422-449 | the report does not depend on the order in which the records are fetched |

## Left out

- Controllers, guards, DTO validation, interceptors and strategies; the model starts at the service methods.
- Sending mail, audit log, notifications, WhatsApp and uploads: no state the properties need. A failed mail dispatch after the token rows were written is not modelled.
- Concurrent calls and transaction anomalies, except in `LockInterleaving`; a crash between two writes that share no transaction, such as creating the account and closing the invitation in `acceptInvite`.
- Super-administrator activity changes and soft deletion (`UpdateStatusEffect`, `SoftDeleteEffect`), and creating and removing a department in the performance configuration, are steps of the runs without a class method, as is the broadcast for a blog post (`src/modules/blog-posts/blog-posts.service.ts:365-379`).
- Editing a user's profile, deleting an unverified user, and the super administrator's own hard-delete and resend variants.
- Whatever else a member or worker row holds (ministry, position, training), and other services that write `isWorker` (`src/modules/admin/admin.service.ts:156`).
- TrimLowerIdempotent: lower-cases ASCII letters only; the full Unicode case mapping is not modelled.
- FindByText: compares ASCII letters ignoring case; other letters, and `%` and `_` as wildcards of the database's comparison, are not modelled.
- NoDuplicateTexts: equality ignoring case is that of ASCII letters, for the same reason.
- Floating-point rounding in the rate.
- Counting a department's active members, workers and trainees: the rate takes the three numbers as given.
- Who the recipients of a broadcast are (only their number is kept), what a log entry says beyond channel and success, and the archiving and clean-up jobs of the scheduler.
- A database failure before a broadcast's loops or while marking it failed.
- Daylight saving and time zones in the weekly buckets and in the 48-hour invitation window; the database query that selects the records is an input.
- Search, listings, pagination, birthdays, health checks and the CRUD of the other modules: thin.
- DepartmentsRoster.BackfillWorkersFromRoster: the completion order is a parameter, restricted to the batch's own writes, because the database chooses it.
- DeliverAll: what the channels and the log table answer is a parameter, one answer for each recipient and channel.
