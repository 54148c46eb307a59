# Verified model of the authentication service

A Dafny 4.11 model of the stateful parts of the authentication service and of the shared contracts package, with proofs of
what they keep over whole runs. `dafny verify dfyconfig.toml` checks everything.

| part | modules |
|---|---|
| Accounts, refresh-token families, reset links, lockout, identity events | `UserEntity`, `Accounts`, `AccountInvariants`, `StepFrames`, `SessionTheorems`, `SessionLists`, `Lockout`, `Guesses`, `Lifecycle`, `CallEffects`, `AccountHistory`, `AuthService` |
| Redis Streams consumer | `StreamFields`, `StreamConsumer`, `MessageOutcomes`, `ConsumerLoop` |
| Transactional outboxes, the identity stream | `Outbox`, `OutboxJobs`, `Backoff`, `IdentityStream`, `FeedReaders` |
| Presence | `LikeSearch`, `Presence`, `PresenceRuns` |
| JWT verification cache | `TokenCache` |
| Throttles | `RateLimit`, `ResetThrottle`, `ThrottleRuns`, `ThrottleLimits` (lockout is above), `Windows` |
| Replay and audit partitions | `Replay`, `Partitions`, `PartitionJobs`, `PartitionRolling` |

How the model is built:

- A service call is one atomic step on the tables (`Accounts.Step`); a run is any sequence of calls in time order. The
  services themselves are the methods of `AuthService.Service`, which update rows one statement at a time, restore them when
  a transaction throws, and are proved equal to that step. Theorems about runs are about the step.
- The stream consumer and the outbox workers are machines that move one await at a time, with failures that may or may not
  have taken effect, crashes and any number of workers. The loops as they run (`ConsumerLoop`, `OutboxJobs`) are proved to
  be such machines left alone, so what holds over all interleavings holds for them.
- What a step or a machine answers is also stated without it: in the fields of the tables (`CallEffects`), from the calls
  alone (`AccountHistory`), in the raw fields of a message (`MessageOutcomes`), in the text and claims of a token
  (`TokenCache.Right`).
- Clocks, the outcome of a bcrypt comparison, random token hashes and family ids, the record an invitation link resolves
  to, and every outcome of Redis, PostgreSQL and HTTP are parameters; the hashes and ids are new when they are issued.
- Histories (every token ever issued, every window opened, every link sent) are carried as ghost data or beside the tables,
  so that "ever" and "at most n in any window" can be said.

Results where the code does less than its names or documents suggest, each stated with its exact condition:

- The last identity event written about an account is "deleted" exactly while it is archived, unless an administrator
  suspends an account that is already archived, which writes "updated" last; over a run, exactly if that happened since the
  account was last archived or restored (`FeedAgreesIff`, `FeedAgreesOverRuns`, the run: `SuspendedAfterArchiving`).
- The stream carries these events in the order written, over every run, exactly when there is at most one worker, no failed
  publish is postponed and no two events are written in one instant (`OrderIff`, with the runs `Overtaken`, `Tied`,
  `Overlapping`); then it repeats the outbox, whatever fails or crashes (`StreamRepeatsLog`), and a reader agrees with the
  account exactly when the outbox does (`ReaderAgreesIff`). Otherwise one failed publish can make "updated" the last word on
  an archived account for good (`DeletionOvertaken`).
- docs/SECURITY.md counts every failed password for the lockout; the code counts those of logins (`LockoutBound`). A wrong
  old password given to changePassword is compared too, but neither counted nor refused while the account is locked: a
  window holds up to maxAttempts failed comparisons for each span between clearings and every wrong old password beside
  them, and that bound is sharp (`GuessBound`, `GuessLimitIff`).
- `maxAttempts` of the rate limiter is a limit per fixed window. On a sliding window the sharp bound is 2 maxAttempts - 1
  (`AtMostTwiceLessOne`, `WorstCase`), and maxAttempts itself only if it is 1 or the window is 1 ms (`SlidingLimitIff`).
- The daily cap on password-reset links survives the cleanup job exactly when rows outlive a day or the minimum gap alone
  enforces it (`DailyCapIff`); the shipped configuration meets neither (`DefaultsKeepOnlyTheInterval`). The same holds of
  runs of service calls (`ServiceCapIff`, `ShippedServiceKeepsOnlyTheInterval`).
- Identity replay writes every account once for every way the database may order ties exactly when no two accounts created
  in one instant fall on both sides of a page boundary (`ReplayExactIff`).
- The partition job leaves no gap exactly when calls are at most three months apart, and always has a partition for the
  current instant exactly when they are at most two (`NoGapIff`, `ClockCoveredIff`).
- Failing outbox events wait as long as their failures require, over every run, exactly when there is at most one worker and
  it records each failure with its delay or not at all (`BackoffIff`, with `TornRecording` and `TwoWorkersWaitLess` for the
  other cases).
- A stream entry stays pending exactly while every delivery ends in a retryable failure with a count read below maxRetries
  (`StaysPendingIff`); while counts cannot be read, an always failing handler is retried for ever exactly when maxRetries is
  at least 2 (`UnreadableCountIff`).
- docs/DOMAIN.md and docs/SECURITY.md give 5 attempts and 15 minutes for the lockout; src/config/env.ts:59-64 gives 15 and
  5. Both are parameters here.
- The replay job's log speaks of active users; the query selects every account that is not archived, suspended ones included.

## Model

| member | source | states |
|---|---|---|
| UserEntity.UpdateRefusedIff | src/modules/users/domain/user.entity.ts:29-60 | A patch of a valid record is refused exactly when it activates, by name, an account that ends up archived, makes the counter negative or gives staff a client kind |
| UserEntity.UpdateIs | src/modules/users/domain/user.entity.ts:109-141 | An accepted patch sets the attributes it names and keeps the others, but that an archived record becomes inactive unless the patch says otherwise |
| AccountInvariants.RevokeKeeps | src/modules/users/repository/refresh-tokens.repository.ts:42-70 | Revoking any set of rows keeps the invariant of the tables |
| AccountInvariants.LoginKeeps | src/modules/auth/auth.service.login-session.ts:20-111 | Login, in every branch, keeps the invariant |
| AccountInvariants.RefreshKeeps | src/modules/auth/auth.service.login-session.ts:113-177 | Refresh, with reuse, expiry, refused account and rotation, keeps the invariant |
| AccountInvariants.OnlyOneLive | src/modules/auth/auth.service.login-session.ts:140-174 | A family has at most one unrevoked token |
| AccountInvariants.AcceptKeeps | src/modules/auth/auth.service.invitations.ts:98-166 | Accepting an invitation keeps the invariant, unique e-mails included |
| AccountInvariants.AdminKeeps | src/modules/auth/auth.service.admin.ts:89-180 | Suspending, activating, archiving and restoring keep the invariant |
| AccountInvariants.PasswordKeeps | src/modules/auth/auth.service.password.ts:79-147 | Setting a password, by link or from the old one, keeps the invariant |
| AccountInvariants.PurgeKeeps | src/modules/users/repository/token-cleanup.repository.ts:27-53 | The cleanup keeps the invariant |
| AccountInvariants.StepKeeps | src/modules/auth/auth.service.login-session.ts:19-194 | Every service call keeps the invariant |
| AccountInvariants.RunKeeps | src/modules/auth/auth.service.login-session.ts:19-194 | Every run of calls keeps it: one user and one persistence flag per family, at most one unrevoked token and that the newest, live tokens only on active accounts |
| AccountInvariants.InitialOk | src/modules/users/domain/user.entity.ts:62-85 | The invariant holds before the first call, so it is not vacuous |
| AccountInvariants.LookupIsUnique | src/modules/users/repository/users-read.repository.ts:6-18 | An e-mail names at most one account, so the lookup does not depend on row order |
| SessionTheorems.StepEvolves | src/modules/users/repository/refresh-tokens.repository.ts:6-70 | In one call history only grows, a row keeps its attributes, a revocation is never undone, a lost row never returns, and a token is issued only in a new family or one with an unrevoked row |
| SessionTheorems.DeadForever | src/modules/auth/auth.service.login-session.ts:113-138 | A family with no unrevoked token stays so over every continuation: no refresh in it succeeds and it gains no token |
| SessionTheorems.SpentForever | src/modules/auth/auth.service.login-session.ts:117-131 | A token once revoked or gone stays so over every run, so no refresh with it is granted |
| SessionTheorems.SingleUse | src/modules/auth/auth.service.login-session.ts:140-177 | A token that was rotated is never accepted again |
| SessionTheorems.ReuseEndsFamily | src/modules/auth/auth.service.login-session.ts:119-131 | Presenting a stored revoked token ends its family for good |
| SessionTheorems.ExpiryEndsFamily | src/modules/auth/auth.service.login-session.ts:133-138 | Presenting a stored token after its expiry ends its family for good, although only its own row is revoked |
| SessionTheorems.LogoutEndsFamily | src/modules/auth/auth.service.login-session.ts:179-193 | Logout leaves the family of the presented token dead, which DeadForever makes final |
| SessionTheorems.RevokeSessionEndsFamily | src/modules/auth/auth.service.sessions.ts:31-63 | Revoking one's session leaves its family dead, which DeadForever makes final |
| SessionTheorems.EndsEverySession | src/modules/auth/auth.service.admin.ts:97-118 | After a completed password change, suspension or archiving every family the user ever had is dead for good |
| SessionTheorems.RefreshGrantedIff | src/modules/auth/auth.service.login-session.ts:113-177 | In a reachable state the stored row alone decides a refresh: stored, not revoked, not expired |
| SessionTheorems.RefreshRotates | src/modules/auth/auth.service.login-session.ts:140-174 | A granted refresh revokes exactly the presented row and adds one newest token of the same family, user and persistence; no other row changes |
| SessionTheorems.ListedSessions | src/modules/users/repository/refresh-tokens.repository.ts:72-89 | The session list is exactly the families a refresh would still extend a moment later, one row each |
| SessionLists.SessionsFollowCalls | src/modules/auth/auth.service.login-session.ts:19-194 | For every call, outcome and account: the set of listed sessions afterwards is the one before, plus the opened or rotated family, minus the closed one, or empty; nobody else's changes |
| SessionLists.LoginGrantedIff | src/modules/auth/auth.service.login-session.ts:20-79 | Login is granted exactly to an unarchived, active account of that address with no running lock and the right password |
| SessionLists.RevokingFamily | src/modules/users/repository/refresh-tokens.repository.ts:49-54 | Revoking a family removes exactly that family from every session list |
| SessionLists.RevokingUser | src/modules/users/repository/refresh-tokens.repository.ts:56-61 | Revoking a user's rows empties that user's list and no other |
| SessionLists.RevokingUserFamily | src/modules/users/repository/refresh-tokens.repository.ts:63-70 | Revoking one family of one user removes it from that user's list only |
| SessionLists.PurgeSessions | src/modules/users/repository/token-cleanup.repository.ts:31-40 | The cleanup removes no listed session |
| Lockout.StepLockOk | src/modules/users/repository/users-write.repository.ts:33-84 | Every call keeps: a counter at its maximum is locked, a lock outlasts each failure by the lockout, and without a lock only the counted failures are recent |
| Lockout.FailedAttemptOk | src/modules/users/repository/users-write.repository.ts:62-84 | One more failure keeps that account invariant |
| Lockout.RunLockOk | src/modules/auth/auth.service.login-session.ts:33-77 | It holds over every run |
| Lockout.LockoutBound | src/modules/auth/auth.service.login-session.ts:33-77 | Between two resets of the counter no half-open window of the lockout's length holds more than the maximum of failed comparisons of logins, for every run and account |
| Guesses.FailsFollow | src/modules/auth/auth.service.password.ts:122-131 | The failures the lockout counts are those of the account's log since the last clearing; a wrong old password is not among them |
| Guesses.GuessBound | src/modules/auth/auth.service.login-session.ts:61-77 | Over any run, for every account and window of the lockout's length: failed logins are at most the maximum once more than there are clearings, and all failed comparisons at most that and the wrong old passwords |
| Guesses.Guesser | src/modules/auth/auth.service.password.ts:122-145 | A run at one instant: guesses until locked, a change of the password, guesses again, and wrong old passwords while locked |
| Guesses.GuessLimitIff | src/modules/auth/auth.service.password.ts:128-131 | A number bounds the failed comparisons of every window with so many wrong old passwords and clearings exactly when it is at least that bound |
| Lifecycle.ReachableStates | src/modules/users/domain/user.entity.ts:42-45 | In every reachable state e-mails are unique, an archived account is inactive, and an inactive or archived account has no unrevoked token |
| Lifecycle.LinkSpentForever | src/modules/auth/auth.service.password.ts:86-90 | A used or vanished reset link stays so over every run |
| Lifecycle.LinksDieWithNewPassword | src/modules/auth/auth.service.password.ts:97-109 | After a new password none of the reset links the account had ever sets a password again |
| Lifecycle.AdminWrites | src/modules/auth/auth.service.admin.ts:89-180 | Activating, suspending, archiving and restoring do nothing, or change their one target and write one event about it |
| Lifecycle.FlagWrites | src/modules/auth/auth.service.admin.ts:121-133 | Asking for a new password sets that flag of its target, changes nothing else and writes no event |
| Lifecycle.FeedAgreesIff | src/modules/auth/auth.service.admin.ts:89-119 | One call keeps the identity events written to the outbox, in the order written, in agreement with the account exactly when it does not suspend an archived account |
| Lifecycle.FeedAgreesOverRuns | src/modules/auth/auth.service.admin.ts:89-180 | Over any run the identity events written to the outbox, in the order written, agree with the account in the end exactly when the account was not suspended while archived since it was last archived or restored |
| Lifecycle.InitialFeedIff | src/modules/auth/auth.service.admin.ts:135-161 | Before the first call, when nothing is written, they agree unless the account is archived already |
| Lifecycle.SuspendedAfterArchiving | src/modules/auth/auth.service.admin.ts:89-119 | The run that breaks the agreement: archive, then suspend |
| CallEffects.LoginRefused | src/modules/auth/auth.service.login-session.ts:33-59 | A running lock, then a suspension, refuse a login whatever the password; only a lock that has run out is cleared, with the count |
| CallEffects.LoginFailed | src/modules/auth/auth.service.login-session.ts:61-77 | A wrong password adds one to the count and at the maximum locks for the lockout from now; nothing else changes |
| CallEffects.LoginGranted | src/modules/auth/auth.service.login-session.ts:79-108 | A right one clears count and lock, notes the login and opens a family with the lifetime asked for |
| CallEffects.LoginUnknown | src/modules/auth/auth.service.login-session.ts:21-31 | An address without an unarchived account is refused and nothing is written |
| CallEffects.RefreshRefused | src/modules/auth/auth.service.login-session.ts:113-166 | A revoked token revokes its family, an expired one itself, an unknown one and one of a closed account nothing |
| CallEffects.RefreshGranted | src/modules/auth/auth.service.login-session.ts:140-177 | The token is revoked and one of the same family and kind, with a new term, is added |
| CallEffects.EndingEffect | src/modules/auth/auth.service.login-session.ts:179-194 | Logout revokes the rows of the family, a session revocation those of the user in it, when it is live; nothing else changes |
| CallEffects.AcceptOutcome | src/modules/auth/auth.service.invitations.ts:98-116 | The exact outcome: granted if the invitation exists, is unused and not expired, its address, as given and as stored, belongs to no account, has an @, and a client kind comes with clients only |
| CallEffects.AcceptEffect | src/modules/auth/auth.service.invitations.ts:118-166 | A granted acceptance makes exactly the invited account with the given password, active and unlocked, its first session and its event; a refused one changes nothing |
| CallEffects.StoredAddress | src/modules/users/domain/user.entity.ts:62-68 | The stored address is the given one in small letters without the blanks around it |
| CallEffects.AdminOutcome | src/modules/auth/auth.service.admin.ts:89-180 | The exact outcome of each administrative call; a refused one changes nothing |
| CallEffects.AdminEffect | src/modules/auth/auth.service.admin.ts:89-180 | The whole record after each completed one: activated, suspended, archived now and inactive, restored and active, or flagged |
| CallEffects.AdminSessions | src/modules/auth/auth.service.admin.ts:115-150 | Suspending and archiving revoke every session of the account, the others none |
| CallEffects.ForgotEffect | src/modules/auth/auth.service.password.ts:18-77 | One link with its term for an active account, unless a stored one is younger than the interval or a day's worth is stored |
| CallEffects.ForgotUnknown | src/modules/auth/auth.service.password.ts:18-29 | An unknown address gets the same answer and nothing is written |
| CallEffects.ResetOutcome | src/modules/auth/auth.service.password.ts:86-93 | Done exactly for a stored, unused link not past its expiry, of an account that is not archived; each refusal exactly |
| CallEffects.ChangeOutcome | src/modules/auth/auth.service.password.ts:122-131 | Done exactly for an active, unarchived account and the right old password |
| CallEffects.PasswordEffect | src/modules/auth/auth.service.password.ts:95-147 | The new digest is stored, count, lock and flag cleared, no other account touched, every session revoked and every link used |
| CallEffects.PurgeEffect | src/modules/users/repository/token-cleanup.repository.ts:25-53 | Exactly the expired rows, and the revoked or used ones older than the retention, are deleted |
| AccountHistory.CallTells | src/modules/auth/auth.service.password.ts:95-147 | One call changes password, activity and archiving of an account exactly as what it says, if it is completed |
| AccountHistory.ProfileOverRuns | src/modules/auth/auth.service.ts:32-41 | Over any run an account's password is that of its last completed reset, change or acceptance, and it is open as the last completed administrative call left it |
| AccountHistory.OpenAgain | src/modules/auth/auth.service.admin.ts:152-180 | After restoring or activating, a login is granted exactly with the right password and no running lock; after suspending or archiving never |
| AccountHistory.LockLasts | src/modules/users/repository/users-write.repository.ts:62-84 | Whatever is called meanwhile, short of a new password, the next login after the failure that locked is granted exactly when the lockout is over, the account active and the password right |
| AuthService.Service.constructor | src/modules/users/users.repository.ts:17-29 | The service starts on seeded accounts with no session, an initial state of the model |
| AuthService.Service.RevokeToken | src/modules/users/repository/refresh-tokens.repository.ts:42-47 | Revokes the one row and nothing else |
| AuthService.Service.RevokeTokenFamily | src/modules/users/repository/refresh-tokens.repository.ts:49-54 | Revokes exactly the rows of the family |
| AuthService.Service.RevokeAllRefreshTokensForUser | src/modules/users/repository/refresh-tokens.repository.ts:56-61 | Revokes exactly the rows of the user |
| AuthService.Service.RevokeRefreshTokensForUserFamily | src/modules/users/repository/refresh-tokens.repository.ts:63-70 | Revokes exactly the rows of the user in the family |
| AuthService.Service.SaveRefreshToken | src/modules/auth/auth.token-utils.ts:59-73 | Adds the row with the lifetime its persistence gives |
| AuthService.Service.FindByEmailIncludingDeleted | src/modules/users/repository/users-read.repository.ts:15-18 | Finds the account of the address, archived or not |
| AuthService.Service.FindByEmail | src/modules/users/repository/users-read.repository.ts:6-13 | Finds it unless it is archived |
| AuthService.Service.ClearExpiredAccountLock | src/modules/users/repository/users-write.repository.ts:45-60 | Clears counter and lock exactly when the lock has run out |
| AuthService.Service.RecordFailedLoginAttempt | src/modules/users/repository/users-write.repository.ts:62-84 | Counts the failure and locks when the count reaches the maximum |
| AuthService.Service.StartSession | src/modules/auth/auth.service.login-session.ts:79-91 | Counter and lock cleared, the login noted, the first token of a new family saved: the granted step of login |
| AuthService.Service.UpdateUserById | src/modules/users/repository/users-write.repository.ts:14-31 | Writes the patched record, or nothing when it is refused |
| AuthService.Service.Login | src/modules/auth/auth.service.login-session.ts:20-111 | Outcome and whole new state are those of the step |
| AuthService.Service.RefreshSession | src/modules/auth/auth.service.login-session.ts:113-177 | Likewise, with the revocation undone when the account check throws |
| AuthService.Service.Logout | src/modules/auth/auth.service.login-session.ts:179-193 | Likewise |
| AuthService.Service.RevokeMySession | src/modules/auth/auth.service.sessions.ts:31-63 | Likewise: refused unless the family is listed |
| AuthService.Service.AcceptInvitation | src/modules/auth/auth.service.invitations.ts:98-166 | Likewise, with nothing left behind when the record or the unique address refuses it |
| AuthService.Service.SetPassword | src/modules/auth/auth.service.password.ts:97-109 | New password, counter and lock cleared, sessions revoked, links used |
| AuthService.Service.FindLatestPasswordResetForUser | src/modules/users/repository/password-resets.repository.ts:31-39 | A stored link of the account that none of its links is younger than, none if it has none |
| AuthService.Service.CountPasswordResetsForUserSince | src/modules/users/repository/password-resets.repository.ts:41-52 | The number of the account's stored links created since then |
| AuthService.Service.ForgotPassword | src/modules/auth/auth.service.password.ts:18-79 | One link for an active account, unless a stored one is younger than the interval or a day's worth is stored; no limit in test mode |
| AuthService.Service.ResetPassword | src/modules/auth/auth.service.password.ts:79-113 | Outcome and whole new state are those of the step, errors included |
| AuthService.Service.ChangePassword | src/modules/auth/auth.service.password.ts:115-147 | Likewise |
| AuthService.Service.AdminSetUserActive | src/modules/auth/auth.service.admin.ts:89-119 | Likewise |
| AuthService.Service.AdminSetForcePasswordChange | src/modules/auth/auth.service.admin.ts:121-133 | Likewise |
| AuthService.Service.AdminSoftDelete | src/modules/auth/auth.service.admin.ts:135-161 | Likewise |
| AuthService.Service.AdminRestoreUser | src/modules/auth/auth.service.admin.ts:163-180 | Likewise |
| AuthService.Service.PurgeStaleAuthArtifacts | src/modules/users/repository/token-cleanup.repository.ts:27-53 | Removes exactly the expired rows and the revoked or used ones past the retention, and counts them |
| StreamFields.ParseStreamFields | cima-contracts/src/event-consumer.ts:400-406 | The loop computes the map of the flat list, a last key without value ignored |
| StreamFields.FieldsOfFlatten | cima-contracts/src/event-consumer.ts:400-406 | Reading back a flattened list gives the last value written under each key, and no other key |
| StreamFields.LastKeyIgnored | cima-contracts/src/event-consumer.ts:400-406 | A last key without a value changes nothing |
| StreamConsumer.StepKeeps | cima-contracts/src/event-consumer.ts:248-339 | Every await, failure, lost reply and crash keeps: delivered entries are pending or accounted for |
| StreamConsumer.NoLoss | cima-contracts/src/event-consumer.ts:226-339 | Over any run of any number of consumers no delivered entry is lost: pending, or acknowledged after its handler completed, after the dead-letter callback took it, or as a shutdown marker; an undecodable one only after the callback took it |
| StreamConsumer.EmptyGroupOk | cima-contracts/src/event-consumer.ts:154-169 | A new group meets the invariant |
| StreamConsumer.DriveAllIsRun | cima-contracts/src/event-consumer.ts:248-339 | Working through a batch is a run of the machine in which no other consumer moves |
| StreamConsumer.RetryDecision | cima-contracts/src/event-consumer.ts:315-337 | While acknowledgements and callback work, a message stays on the pending list exactly when it is valid, its handler failed retryably and the count read is below maxRetries |
| StreamConsumer.BatchRests | cima-contracts/src/event-consumer.ts:248-339 | A faultless batch leaves no entry at its last delivery |
| StreamConsumer.RoundDecreases | cima-contracts/src/event-consumer.ts:226-246 | Each redelivery pass strictly decreases the sum of deliveries left |
| StreamConsumer.RedeliveryEnds | cima-contracts/src/event-consumer.ts:193-246 | Over any appends, reads and claims, claims that found something are no more than the deliveries left at the start and those that entries read on the way brought in |
| StreamConsumer.LoopTerminates | cima-contracts/src/event-consumer.ts:193-246 | From a new group, after every turn of the loop, each entry read is acknowledged or has had fewer than maxRetries deliveries, its handler ran at most maxRetries times, and claims that found something are at most maxRetries - 1 for each entry read |
| StreamConsumer.FirstDelivery | cima-contracts/src/event-consumer.ts:200-218 | A faultless first read leaves every entry acknowledged or below its last delivery |
| StreamConsumer.StaysPendingIff | cima-contracts/src/event-consumer.ts:315-359 | Over any number of deliveries with any counts read, a message is still pending exactly when each ended in a retryable failure with a count below maxRetries |
| StreamConsumer.UnreadableCountIff | cima-contracts/src/event-consumer.ts:345-359 | With counts that cannot be read and a handler that keeps failing, a message never leaves exactly when maxRetries is at least 2 |
| MessageOutcomes.MessageIs | cima-contracts/src/event-consumer.ts:252-338 | For any failures, from the raw fields, the decoding and the outcomes of the calls alone: whether the handler was called, the entry completed, dead-lettered, acknowledged, left pending, and whether the loop threw |
| MessageOutcomes.BatchIs | cima-contracts/src/event-consumer.ts:248-339 | A batch works on its messages in turn up to and including the first that throws, and ends normally exactly when none does |
| MessageOutcomes.WorkingBatch | cima-contracts/src/event-consumer.ts:252-338 | While acknowledgements and callback work: a shutdown marker is only acknowledged; a payload missing, empty or not accepted is dead-lettered unhandled; any other message is handled once, and completed, kept for retry or dead-lettered; no other entry is touched |
| ConsumerLoop.RedisStreamConsumer.constructor | cima-contracts/src/event-consumer.ts:138-148 | Starts on the given group and retry limit |
| ConsumerLoop.RedisStreamConsumer.Ack | cima-contracts/src/event-consumer.ts:341-343 | Removes the entry from the pending list, or throws with or without having done so |
| ConsumerLoop.RedisStreamConsumer.DeadLetterAndAck | cima-contracts/src/event-consumer.ts:361-384 | Ends as the machine does from the dead-letter call on |
| ConsumerLoop.RedisStreamConsumer.HandleAndAck | cima-contracts/src/event-consumer.ts:315-337 | Ends as the machine does from the handler call on; a failed acknowledgement counts as a handler failure |
| ConsumerLoop.RedisStreamConsumer.ProcessMessages | cima-contracts/src/event-consumer.ts:248-339 | The loop leaves the group, and throws, exactly as the machine left alone with the batch, and as its messages' own fields and outcomes say |
| ConsumerLoop.RedisStreamConsumer.ReclaimPending | cima-contracts/src/event-consumer.ts:226-246 | Claims, then works through the batch; nothing is thrown |
| ConsumerLoop.RedisStreamConsumer.ReadNext | cima-contracts/src/event-consumer.ts:196-218 | Reads the next entries, then works through them |
| Outbox.DoKeeps | src/modules/users/repository/identity-outbox.repository.ts:25-118 | Every insert, select, await, crash and purge keeps the outbox invariant |
| Outbox.AtLeastOnce | src/jobs/run-email-outbox.ts:7-31 | Over any run of any number of workers every event ever inserted was delivered, is still to be tried, or is a command marked expired no earlier than createdAt + min(ttl, 7 days) |
| Outbox.IdentityAtLeastOnce | src/jobs/run-identity-outbox.ts:16-53 | An identity event was appended to the stream or is still to be tried |
| Outbox.EmptyOutboxOk | src/modules/users/repository/identity-outbox.repository.ts:25-38 | An empty outbox meets the invariant |
| Outbox.DeadlineIs | src/jobs/run-email-outbox.ts:16-19 | The deadline is the creation plus the time to live, or a week if that is longer |
| Outbox.PurgeDrops | src/modules/users/repository/token-cleanup.repository.ts:78-86 | The purge drops exactly the rows published before the retention |
| Outbox.DueIsDelivered | src/modules/users/repository/identity-outbox.repository.ts:60-72 | A pending or failed event whose next try has come may be selected by any worker at rest and, not past its deadline, is delivered and published if the statements work |
| Outbox.RequestsInTime | src/email/media-email-client.ts:11-17 | Over any run, whatever was delivered went out in a request whose expiry, as the client works it out, is the deadline the job checked, and which was begun before it |
| OutboxJobs.JobIsRun | src/jobs/run-identity-outbox.ts:19-43 | A tick of a job is a run of the machine in which no other worker moves |
| OutboxJobs.DeliveredExactly | src/jobs/run-email-outbox.ts:15-23 | A tick hands over an e-mail command exactly when its deadline is still ahead and the send had an effect, in a request that carries this deadline |
| OutboxJobs.TallyIsComplete | src/jobs/run-email-outbox.ts:9-31 | A batch not cut short accounts for every event in exactly one way |
| OutboxJobs.EndingIs | src/jobs/run-email-outbox.ts:13-28 | An event ends published if live, sent and marked; expired if past its deadline and marked; thrown if recording the failure fails; failed otherwise |
| OutboxJobs.TallyCounts | src/jobs/run-email-outbox.ts:13-31 | The counters are the numbers of events that ended in each way, up to the first that ends the job |
| OutboxJobs.RowAfter | src/modules/users/repository/email-outbox.repository.ts:14-51 | Each ending leaves its row published, expired, or failed once more and put off by the delay for that many failures, and no other row changed |
| OutboxJobs.IdentityNeverLate | src/jobs/run-identity-outbox.ts:19-52 | No identity event is counted as expired |
| OutboxJobs.OutboxJob.constructor | src/jobs/run-identity-outbox.ts:16-21 | A job works on the given table |
| OutboxJobs.OutboxJob.Deliver | src/shared/event-publisher.ts:32-73 | A normal return means the event was appended; a throw may leave it appended |
| OutboxJobs.OutboxJob.MarkPublished | src/modules/users/repository/identity-outbox.repository.ts:87-97 | Marks the row, whatever its status |
| OutboxJobs.OutboxJob.MarkExpired | src/modules/users/repository/email-outbox.repository.ts:14-17 | Marks the row expired |
| OutboxJobs.OutboxJob.MarkFailed | src/modules/users/repository/identity-outbox.repository.ts:99-118 | Counts the failure, then sets the next try from the count returned; an error in between leaves only the count |
| OutboxJobs.OutboxJob.DispatchToMedia | src/email/media-email-client.ts:7-37 | The request carries the event's id and the expiry computed from its creation and time to live; a throw may leave it accepted |
| OutboxJobs.OutboxJob.RunIdentityOutbox | src/jobs/run-identity-outbox.ts:16-53 | Table and counters are those of the machine left alone; published and failed add up to the batch unless a mark throws |
| OutboxJobs.OutboxJob.RunEmailOutbox | src/jobs/run-email-outbox.ts:6-31 | Likewise, with expired commands counted apart |
| Backoff.DelayShape | src/modules/users/repository/identity-outbox.repository.ts:14-17 | Delays never shrink and reach five minutes exactly from the seventh failure |
| Backoff.TotalDelayClosed | src/modules/users/repository/identity-outbox.repository.ts:14-17 | The first n delays sum to 5 (2^n - 1) s up to six, 300 s more for each after that |
| Backoff.BackoffOverRuns | src/modules/users/repository/identity-outbox.repository.ts:60-118 | With one worker and failures recorded in one piece, over any run, an event that failed n times is available no earlier than creation plus the first n delays |
| Backoff.MostAttemptsIff | src/modules/users/repository/identity-outbox.repository.ts:14-17 | n failures fit into an age exactly when the first n - 1 delays do |
| Backoff.FailuresTakeTime | src/modules/users/repository/identity-outbox.repository.ts:60-118 | At every point of a lone worker's run, whatever it is doing, no event has more failures than its age admits |
| Backoff.BackoffIff | src/modules/users/repository/identity-outbox.repository.ts:99-118 | From an empty outbox, over every run of n workers, events at rest wait as long as their failures require exactly when n is 0, or 1 with failures recorded in one piece |
| Backoff.TornRecording | src/modules/users/repository/identity-outbox.repository.ts:99-118 | One worker, an error between the two statements: a counted failure with no wait |
| Backoff.TwoWorkersWaitLess | src/modules/users/repository/identity-outbox.repository.ts:99-118 | Two or more workers, even with whole recordings: two failures with one delay |
| IdentityStream.BatchIs | src/modules/users/repository/identity-outbox.repository.ts:60-72 | The batch of a worker that holds nothing is the unpublished events in the order written |
| IdentityStream.MoveTidy | src/jobs/run-identity-outbox.ts:24-43 | With one worker that postpones nothing and no ties, every await, failure, crash and purge keeps: the first events settled, the rest ready, the stream a repetition of the log |
| IdentityStream.StreamRepeatsLog | src/jobs/run-identity-outbox.ts:24-43 | Then over any run the stream is the first events written, each one or more times in a row, and all of them once everything is published |
| IdentityStream.OrderIff | src/modules/users/repository/identity-outbox.repository.ts:60-118 | Over every run of n workers no event is appended after a later one exactly when n is 0, or 1 with no failure postponed and no two events written in one instant |
| IdentityStream.Overtaken | src/modules/users/repository/identity-outbox.repository.ts:99-118 | One failed publish, postponed: the stream ends with the older event, everything published |
| IdentityStream.Tied | src/modules/users/repository/identity-outbox.repository.ts:60-72 | Two events of one instant read the other way round |
| IdentityStream.Overlapping | src/jobs/run-identity-outbox.ts:19-43 | Two workers: the first event is appended again after the second |
| FeedReaders.LastWordOfRepeats | src/shared/event-publisher.ts:32-73 | Repetitions do not change the last word on an account |
| FeedReaders.ReaderAgreesIff | src/jobs/run-identity-outbox.ts:16-53 | Once all events of a run of calls are published in order, a reader of the stream agrees with the account exactly when it was not suspended while archived since it was last archived or restored |
| FeedReaders.DeletionOvertaken | src/modules/users/repository/identity-outbox.repository.ts:99-118 | A run of calls and a run of the worker after which all is published, the account is archived and the reader's last word on it is "updated" |
| LikeSearch.Fold | src/modules/presence/presence.repository.ts:49 | Folding keeps the length, one character for one |
| LikeSearch.EscapedPrefix | src/modules/presence/presence.repository.ts:33 | An escaped text followed by a percent sign matches exactly the strings that start with the text |
| LikeSearch.EscapedIsLiteral | src/modules/presence/presence.repository.ts:33 | Percent sign, escaped text, percent sign matches exactly the strings that contain the text |
| LikeSearch.SearchIsLiteral | src/modules/presence/presence.repository.ts:49 | The search finds a text exactly where it occurs, up to case; no character of it is a wildcard |
| Presence.PresenceStore.constructor | src/modules/presence/presence.repository.ts:6 | Nobody has been seen |
| Presence.PresenceStore.Observe | src/modules/presence/presence.repository.ts:15-31 | Allowed exactly for an active account with a live session; then the stored instant moves only past the cooldown, and no other account's does |
| Presence.Ranked | src/modules/presence/presence.repository.ts:50-53 | The ranking lists each candidate once |
| Presence.RankedInOrder | src/modules/presence/presence.repository.ts:50-53 | Online first, then latest activity, then subject |
| Presence.RankingSorts | src/modules/presence/presence.repository.ts:50-53 | Online before offline, then the later activity, then the smaller subject |
| Presence.RankingIsUnique | src/modules/presence/presence.repository.ts:50-53 | Any ordered listing of the same rows is the ranking |
| Presence.PageSizes | src/modules/presence/presence.repository.ts:55-65 | No page is empty while there is anyone to list, only the last is short, a request past the end shows the last |
| Presence.PagesPartition | src/modules/presence/presence.repository.ts:50-65 | The pages put together are the ranking: every candidate exactly once, in order |
| Presence.OnlineRowsLead | src/modules/presence/presence.repository.ts:50-57 | The first rows, as many as the reported online count, are exactly the online ones |
| PresenceRuns.ListedIff | src/modules/presence/presence.repository.ts:38-49 | Listed are exactly the active, unarchived accounts of the role other than the requester, seen within seven days, whose text contains the search up to case |
| PresenceRuns.WhoIsLetIn | src/modules/presence/presence.repository.ts:7-31 | In a reachable state a heartbeat is accepted exactly with a live session, and the view opens exactly for an administrator with one |
| PresenceRuns.EndingSessionsEndsPresence | src/modules/presence/presence.repository.ts:15-45 | After a completed password change, suspension or archiving the user is offline and heartbeats are refused, until the next login |
| PresenceRuns.StoredFarApart | src/modules/presence/presence.repository.ts:23-27 | Over any run of session calls and heartbeats, instants stored for a user are more than 45 s apart, the last is the one in the table, at most 45 s behind the last accepted heartbeat |
| PresenceRuns.OnlineBetweenBeats | src/modules/presence/presence.repository.ts:43-45 | After any such run a user with a live session is online at every instant less than 105 s after an accepted heartbeat, and no longer time can be promised |
| TokenCache.HitIsDirect | cima-contracts/src/hono-auth-middleware.ts:81-102 | A token served from the cache is one that verification at that instant would accept with the same claims, at most 60 s after it was stored |
| TokenCache.CacheIsInvisible | cima-contracts/src/hono-auth-middleware.ts:104-137 | Over any run, verifications in flight included, the answers are those of verifying without a cache, and the cache holds at most 1000 entries |
| TokenCache.StartOk | cima-contracts/src/hono-auth-middleware.ts:68-71 | An empty cache meets the invariant |
| TokenCache.PartsIff | cima-contracts/src/hono-auth-middleware.ts:112-115 | A token passes the split exactly when its text starts with three non-empty parts with dots between and nothing or a dot behind |
| TokenCache.DirectIsRight | cima-contracts/src/hono-auth-middleware.ts:112-137 | Verification accepts exactly a three-part token that decodes, is signed, has the expected issuer if one is set, and whose expiry is missing, 0 or not before the current second; each rejection exactly |
| TokenCache.AnswersAreRight | cima-contracts/src/hono-auth-middleware.ts:104-137 | Over any run from an empty cache every verification gets that answer |
| TokenCache.ServedExactly | cima-contracts/src/hono-auth-middleware.ts:81-102 | Stored claims are served until their expiry or for a minute, whichever is sooner, and not a moment longer |
| TokenCache.EvictMakesRoom | cima-contracts/src/hono-auth-middleware.ts:91-95 | Eviction leaves room for one entry and changes no other |
| TokenCache.OldestGoesFirst | cima-contracts/src/hono-auth-middleware.ts:91-102 | A token not removed by name stays cached, unchanged, until a thousand stores after its own |
| TokenCache.TokenVerificationCache.constructor | cima-contracts/src/hono-auth-middleware.ts:68-71 | Starts empty |
| TokenCache.TokenVerificationCache.GetCachedVerifiedPayload | cima-contracts/src/hono-auth-middleware.ts:81-89 | Serves an entry until its expiry, then removes it |
| TokenCache.TokenVerificationCache.SetCachedVerifiedPayload | cima-contracts/src/hono-auth-middleware.ts:91-102 | Evicts when full, stores only what is still alive |
| TokenCache.TokenVerificationCache.VerifyRs256 | cima-contracts/src/hono-auth-middleware.ts:104-137 | Gives the one right answer, told from the text and claims of the token, the issuer and the clock, and stores what it accepted |
| TokenCache.TokenVerificationCache.InvalidateTokenCache | cima-contracts/src/hono-auth-middleware.ts:221-223 | Removes the one entry |
| RateLimit.RunKeeps | src/shared/middlewares/rate-limit.middleware.ts:57-70 | Over any run the counter counts the scripts since its window opened and hits come window by window, rank by rank |
| RateLimit.AtMostTwiceLessOne | src/shared/middlewares/rate-limit.middleware.ts:57-83 | Windows open at least windowMs apart, each admits at most maxAttempts, and any half-open windowMs holds at most 2 maxAttempts - 1, lost replies included |
| RateLimit.RefusedOnlyAfterMax | src/shared/middlewares/rate-limit.middleware.ts:72-78 | A request is refused for its number only if the script ran maxAttempts times in the windowMs before it |
| RateLimit.WorstCase | src/shared/middlewares/rate-limit.middleware.ts:57-78 | A run that reaches 2 maxAttempts - 1, for every limit and every window of at least 2 ms |
| RateLimit.SlidingLimitIff | src/shared/middlewares/rate-limit.middleware.ts:57-78 | maxAttempts bounds every sliding window exactly when it is 1 or the window is 1 ms |
| RateLimit.RateLimiter.constructor | src/shared/middlewares/rate-limit.middleware.ts:57 | No counter yet |
| RateLimit.RateLimiter.CheckRedisLimit | src/shared/middlewares/rate-limit.middleware.ts:23-84 | Admits exactly an answered request whose count is within the limit; without an answer it refuses, counted or not |
| ResetThrottle.WithoutCleanups | src/modules/auth/auth.service.password.ts:44-74 | Without cleanups links are at least the interval apart and no closed day holds more than the cap |
| ResetThrottle.WithCleanups | src/modules/users/repository/token-cleanup.repository.ts:42-53 | With cleanups they are at least min(interval, lifetime of a row + 1 ms) apart, and the cap holds when rows outlive a day or that gap enforces it |
| ResetThrottle.DailyCapIff | src/modules/users/repository/password-resets.repository.ts:41-52 | The cap holds over every run exactly under that condition |
| ResetThrottle.MinIntervalIff | src/modules/users/repository/password-resets.repository.ts:31-39 | The interval holds over every run exactly when rows outlive it |
| ResetThrottle.OneTooMany | src/modules/auth/auth.service.password.ts:44-74 | The run that breaks the cap otherwise |
| ResetThrottle.DefaultsKeepOnlyTheInterval | src/config/env.ts:55-76 | With the shipped values the interval holds and the cap does not |
| ResetThrottle.LatestAt | src/modules/users/repository/password-resets.repository.ts:31-39 | The latest creation among the rows, and none for an empty table |
| ResetThrottle.PurgedFrom | src/modules/users/repository/token-cleanup.repository.ts:42-53 | The cleanup leaves exactly the rows that are neither expired nor used and past the retention |
| ThrottleRuns.ThrottleAgrees | src/modules/auth/auth.service.password.ts:31-64 | The service refuses a link exactly when the machine over the account's rows does |
| ThrottleRuns.StepMirrors | src/modules/users/repository/password-resets.repository.ts:7-67 | One service call moves an account's rows as its event moves the machine, and sends a link exactly when the machine does |
| ThrottleRuns.RunMirrors | src/modules/auth/auth.service.password.ts:17-147 | A run of service calls is, for one account, a run of the machine that sends the same links |
| ThrottleRuns.ServiceThrottles | src/modules/auth/auth.service.password.ts:31-77 | Over any run of service calls the links of any account are apart, and within the cap as far as stored rows reach back; without cleanups both limits hold in full |
| ThrottleLimits.RunServes | src/modules/auth/auth.service.password.ts:17-147 | Any run of the machine is a run of service calls for one account that sends the same links |
| ThrottleLimits.ServiceCapIff | src/modules/auth/auth.service.password.ts:52-64 | Over every run of service calls no account is sent more links in a day than the cap exactly when rows outlive a day or the gap enforces it |
| ThrottleLimits.ServiceIntervalIff | src/modules/auth/auth.service.password.ts:31-50 | Over every run of service calls links are the interval apart exactly when rows outlive it |
| ThrottleLimits.ShippedServiceKeepsOnlyTheInterval | src/config/env.ts:55-76 | With the shipped values every run of service calls keeps the interval, and some run breaks the cap |
| Windows.SpreadBoundsWindow | src/shared/middlewares/rate-limit.middleware.ts:57-78 | A log whose n + 1 consecutive events always span a length has at most n in any window of it |
| Replay.ReplayIsExact | src/shared/replay-request-listener.ts:122-169 | With one order for all reads every account is replayed once, in that order, after floor(n / 500) + 1 page reads |
| Replay.ReadsFrom | src/shared/replay-request-listener.ts:130-168 | The number of page reads does not depend on the order |
| Replay.ReplayExactIff | src/modules/users/repository/users-read.repository.ts:137-142 | Exact for every order of ties at each read, exactly when no tie spans a page boundary |
| Replay.TieRepeats | src/modules/users/repository/users-read.repository.ts:137-142 | A tie across pages lets an account be replayed twice |
| Replay.SamePage | src/modules/users/repository/users-read.repository.ts:137-142 | Without a tie at its ends a page holds the same accounts in every order |
| Replay.ReplayJob.constructor | src/shared/replay-request-listener.ts:122-126 | Nothing written yet |
| Replay.ReplayJob.CreateIdentityOutboxEventsBatch | src/modules/users/repository/identity-outbox.repository.ts:41-58 | Appends the batch, nothing for an empty one |
| Replay.ReplayJob.TriggerIdentityReplay | src/shared/replay-request-listener.ts:122-169 | The loop writes one event per replayed account, in order, and counts them |
| Partitions.YearLength | src/db/scripts/audit-partition-utils.ts:12-14 | A year has 366 days exactly if divisible by 4 and not a full century, or by 400 |
| Partitions.StartsRise | src/db/scripts/audit-partition-utils.ts:12-14 | Month starts rise strictly |
| Partitions.MonthIsUnique | src/db/scripts/audit-partition-utils.ts:16-18 | Every instant falls in exactly one month |
| Partitions.NameRoundTrip | src/db/scripts/audit-partition-utils.ts:41-46 | A partition name reads back as its month, and passes the name check exactly for years of four digits |
| Partitions.DateRoundTrip | src/db/scripts/audit-partition-utils.ts:21-26 | A bound reads back as its month exactly up to year 9999 |
| Partitions.SliceCovers | src/db/scripts/audit-partition-utils.ts:16-27 | The bounds of a slice, read as dates, cover exactly the instants of its month |
| PartitionJobs.ConsecutiveTile | src/db/scripts/audit-partition-utils.ts:29-39 | Slices of consecutive months end where the next begins and differ in name |
| PartitionJobs.ConsecutiveCover | src/db/scripts/audit-partition-utils.ts:29-39 | Every instant from the first month to the last is in exactly one of them |
| PartitionJobs.EnumerateUtcMonths | src/db/scripts/audit-partition-utils.ts:30-39 | The loop yields the slices of all months from the first to the last, none when they are reversed |
| PartitionJobs.EnumerationTiles | src/db/scripts/audit-partition-utils.ts:29-39 | Every instant between the two dates is in exactly one slice |
| PartitionJobs.DropRepeatedNames | src/db/scripts/migrate-audit-logs-partitioned.ts:98-103 | Keeps the first slice of each name |
| PartitionJobs.NothingToDrop | src/db/scripts/migrate-audit-logs-partitioned.ts:98-103 | Which is all of them when names differ |
| PartitionJobs.MigrationIsConsecutive | src/db/scripts/migrate-audit-logs-partitioned.ts:83-96 | The migration's months are consecutive: oldest entry to three past the newest, or this month and the next two |
| PartitionJobs.WantedSlices | src/db/scripts/migrate-audit-logs-partitioned.ts:83-96 | The slices wanted are those of these months |
| PartitionJobs.CreateAll | src/db/scripts/migrate-audit-logs-partitioned.ts:105-112 | Creates all slices, or stops at a year that has not four digits |
| PartitionJobs.MigrationSlices | src/db/scripts/migrate-audit-logs-partitioned.ts:76-112 | Creates exactly the slices of these months: the dedupe drops nothing |
| PartitionJobs.MigrationCovers | src/db/scripts/migrate-audit-logs-partitioned.ts:83-103 | Every instant from the oldest entry to three months past the newest has exactly one partition |
| PartitionRolling.AfterHolds | src/db/scripts/ensure-audit-log-partitions.ts:59-68 | A month has a partition exactly when some call was in it or in one of the two before, and never two |
| PartitionRolling.NoGapIff | src/db/scripts/ensure-audit-log-partitions.ts:59-68 | No month from the first call to two past the last is missing exactly when calls are at most three months apart |
| PartitionRolling.ClockCoveredIff | src/db/scripts/ensure-audit-log-partitions.ts:59-68 | Every instant between calls finds its partition made before exactly when calls are at most two months apart |
| PartitionRolling.RollingCovers | src/db/scripts/ensure-audit-log-partitions.ts:59-68 | With calls at most three months apart every instant from the first call's month through the second month after the last has exactly one partition |
| PartitionRolling.AuditLogTable.constructor | src/db/scripts/ensure-audit-log-partitions.ts:48-57 | A partitioned table with no partition |
| PartitionRolling.AuditLogTable.CreatePartition | src/db/scripts/ensure-audit-log-partitions.ts:27-42 | Throws exactly for a year that has not four digits; otherwise adds the partition unless its name exists |
| PartitionRolling.AuditLogTable.EnsureAuditLogPartitions | src/db/scripts/ensure-audit-log-partitions.ts:48-69 | Makes sure of this month and the next two and changes nothing else; a year that has not four digits stops it, and the months before that one stay |

## Left out

- Interleaving inside a service call: `refreshSession`, `login` and `recordFailedLoginAttempt` read before or outside the write, so the session and lockout theorems are for calls that run one after the other.
- AuthService.Service.AcceptInvitation: the record the link resolves to is a parameter, so creating, renewing and marking invitations is not modelled; any invitation, stale or inconsistent, is allowed.
- AuthService.Service.PurgeStaleAuthArtifacts: refresh tokens and reset links only; the purge of published outbox rows is a step of Outbox, the other tables are not modelled.
- Creating invitations, registering workers, verifying e-mail addresses and the profile: they write no field of a user that is modelled.
- Ids and public subjects of users are one thing here, and so are a refresh token, its row id and its hash; the lookup of links stored before hashing is left out.
- E-mail addresses are trimmed and lowered for ASCII only.
- Names, company and profession of users, device labels, the audit log written by the services, cookies and access tokens: written, never read by the modelled logic.
- The Redis marker that rejects a revoked user's access tokens until they expire, and JWKS lookup.
- StreamConsumer.NoLoss: entries trimmed from the stream, and entries XAUTOCLAIM drops because they were trimmed, are not modelled; any set of pending entries may be claimed, whatever its idle time and consumer.
- ConsumerLoop.RedisStreamConsumer.ProcessMessages: JSON parsing, version lookup and schema check are one parameter with their four outcomes.
- StreamConsumer.LoopTerminates: for one consumer without faults and maxRetries of at least 1; with faults entries may be redelivered any number of times.
- The consumer's `start`, `stop` and read loop around the two batches, timers and back-off included.
- Outbox.AtLeastOnce: "delivered" for an identity event means appended; the stream may trim it later. "Published" is not final with several workers.
- OutboxJobs.OutboxJob.Deliver: the schema check, the missing connection and the append of the publisher have one result between them.
- IdentityStream.OrderIff: an event is visible from its creation on; in PostgreSQL created_at is when its transaction began.
- An e-mail job that cannot be decrypted behaves as a send that failed without effect; the up to three attempts inside one send count as one.
- TokenCache.CacheIsInvisible: the cache is keyed by the token alone, so the claim is for one key and one expected issuer; exp is a real number, without rounding, and a claim of another type is not modelled.
- RateLimit.AtMostTwiceLessOne: for limits and windows of at least 1, as the configuration demands, on the one clock of Redis; test mode, which skips the check, is left out.
- ThrottleRuns.ServiceThrottles: one clock for the service and the database, one retention for all cleanups, requests one after the other.
- Presence.PagesPartition: the three roles are ranked and paged alike, so one role is modelled; the JSON around the rows is left out.
- LikeSearch.SearchIsLiteral: ILIKE is taken as LIKE after folding each character by itself; foldings that change the length or the wildcard characters are excluded.
- Replay.ReplayIsExact: the accounts do not change while the pages are read; its events are not among those of Lifecycle.
- Partitions.SliceCovers: years 1000 to 9999, where text and check agree; the process and the database session are taken to be in UTC.
- PartitionRolling.AuditLogTable.EnsureAuditLogPartitions: errors other than "already exists" and the check that the table is partitioned are left out.
- Routing, OpenAPI, metrics, logging, environment parsing, cryptography and the seeding and clean-up scripts.
