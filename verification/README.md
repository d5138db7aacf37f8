# SoulAuth: verified model

SoulAuth is an identity service. Its hard logic lies in a tamper-evident audit log and in
small concurrent protocols built on guarded database updates. This project models that
logic and proves what it is for, for all inputs, all runs and all interleavings.

How to read it:

- A protocol is a machine: a `State`, an `Action` for each SQL statement or surrounding
  event, a total `Step` (a step that is not due changes nothing) and `Run`, the fold of
  `Step` over any sequence of actions. A main theorem quantifies over every such sequence.
  A statement can be lost, or carried out with its answer lost (`Base.Fate`), and a request
  can die between any two steps.
- The code that changes state is also written as the code it is: classes with the source's
  fields and methods with its statements and loops. Each such method is proved against the
  functions of the machine; a call of the OIDC, bootstrap, audit-writer, checkpoint and MFA
  handlers, taken by itself, is shown to be a run of its machine. What happens between its
  statements when other requests are about is left to the machine.
- Hashes and signatures are parameters. Nothing is assumed of them globally: a theorem that
  needs "no collision among these texts" or "only signed messages verify" says so.
- Clocks, randomness and the fate of statements are parameters of the steps.

| file | component |
|---|---|
| `Base`, `Text`, `Lex` | options and fates; decimal numbers that read back; the order of byte strings |
| `CanonicalJson`, `AuditIntegrity` | the canonical text of `details`, the framing of the digest, checkpoints |
| `AuditVerify`, `AuditTamper` | the integrity report and what its verdict proves about the past |
| `AuditLog`, `AuditWriter`, `CheckpointTask`, `AuditEvidence`, `AuditStall` | many writers and checkpoint tasks on two tables, what that makes of the report, and when a writer can go on |
| `Scopes`, `Oidc`, `OidcSafety`, `OidcService`, `OidcRevocation`, `OidcCleanup` | authorization codes, rotating refresh tokens, their revocation and the cleanup of what has expired (sections 4.1.2 and 6 of RFC 6749, section 4.6 of RFC 7636) |
| `Bootstrap`, `BootstrapGate` | the one-time gate for the first administrator |
| `RateRules`, `RateKeys`, `SlidingWindow`, `RateLimiter`, `RateTable`, `SharedWindow` | the limiter inside a process and the counter shared by replicas |
| `Lockout`, `LockoutCounting`, `LockoutService` | account and address lockout |
| `CacheHistory`, `AuthCache`, `LogoutRace` | the cache of authenticated requests, and logging out beside them |
| `Mfa`, `MfaService` | time-based codes (section 5.2 of RFC 6238) and backup codes |

Strings in the audit modules are sequences of UTF-8 bytes: the original orders keys, escapes
and counts lengths by byte. Everywhere else they are sequences of characters.

Where the code does not do what its own text or tests promise, the model follows the code,
a lemma names a case, and another says exactly when the promise holds:

- The message a checkpoint signs joins its fields with bars and no lengths.
  `AuditIntegrity.SameMessageIff` says exactly which checkpoints share one: equal ones, and
  those where the longer head hash starts with a number and a bar, or holds a number between
  bars, and ends in the shorter one (`AuditIntegrity.CheckpointMessageIsAmbiguousOnBars`).
  Head hashes of one length, as all real ones are, never confuse two
  (`AuditIntegrity.EqualLengthHeadsReadBack`).
- The integrity report reads rows and checkpoints in two queries. A row written and signed in
  between makes an untouched log look broken (`AuditLog.TwoReadsCanShowABreak`);
  `AuditLog.TwoReadsReport` gives the exact condition, and of one snapshot the report is
  right (`AuditLog.HonestRunsVerify`).
- The report counts the chains it has read exactly when none has the empty name
  (`AuditVerify.ChainsBegunIsExactIff`, `AuditVerify.UnnamedChainIsNotCounted`).
- A writer whose insert is carried out while its answer is lost has a head behind the table
  (`AuditStall.LostAnswerLeavesBehind`); it gets on without a restart if and only if it is
  not behind (`AuditStall.GetsOnIffNotBehind`).
- A request that has consumed its code or token can outrun the revocation of its family
  (`OidcRevocation.RevocationCanBeOutrun`); the revocation is final if and only if there is
  no such request for that client and user (`OidcRevocation.RevocationIsFinalIff`).
- A code or token that is read in its last second can be swept before its guarded update
  (`OidcCleanup.CleanupCanBeSeen`). After any run the cleanup changes no later answer if and
  only if no request has read an unused row that it removes and is about to consume it
  (`OidcCleanup.CleanupIsInvisibleIff`).
- Both limiters forget a client after an idle hour, so their bounds and the invisibility of
  the cleanup hold exactly for windows of at most an hour, or when nothing is let through at
  all (`SlidingWindow.BoundedIffShortWindow`, `SlidingWindow.InvisibleIffShortWindow`, and
  `SharedWindow.QuotaIffShortWindow` for requests executed in the window they have read).
- A process reads the index of the shared window before its statements run and keeps it over
  retries, so a late request can set the row back and the quota of the newer window starts
  again (`SharedWindow.LateRequestLeaks`). Whatever the clocks and delays, the quota holds in
  every run if and only if no request is executed behind the row, or nothing is let through
  (`SharedWindow.QuotaIffTimely`).
- In the instant a block of the shared counter ends, neither of its two strict comparisons
  holds and a request over the limit passes, whatever the rule
  (`SharedWindow.EdgeLetsThrough`); in every run nothing else passes beyond the quota
  (`SharedWindow.BeyondQuotaIffBlockEnds`).
- A lockout cleanup that falls between a check and its attempt can forget a count
  (`Lockout.UnguardedCleanupIsVisible`); `Lockout.CleanupBetweenCheckAndAttempt` says
  exactly when, and `Lockout.CleanupIsInvisible` that nothing else can be told.
- A request that read its session before a logout can cache it afterwards
  (`LogoutRace.LogoutCanBeOutrun`); the token can be let through again if and only if there
  is such a request (`LogoutRace.HitAfterLogoutIff`).
- The update that accepts a time-based code writes back the secret it read, so a request that
  outlasts its enrolment puts the earlier secret back (`Mfa.StaleEnableRestoresSecret`). All
  through a run the stored secret is that of its enrolment if and only if no update takes
  effect for a request that had read an earlier one (`Mfa.SecretCurrentIffNoStaleWrite`).
- A set-up that found an enrolment incomplete replaces it even if it has become complete
  (`Mfa.CompleteEnrolmentIsReplaced`), and so does one that could not read the status, for
  that error is ignored (`Mfa.UnreadStatusReplaces`). A complete enrolment can be replaced in
  a later run without being disabled if and only if a set-up is past its status test now or
  a status read may fail; with readable statuses, exactly if such a set-up is under way
  (`Mfa.ReplacedIffPreparing`).
- A bootstrap that dies between registering the account and recording it, or that never hears
  that it took the gate, leaves a claim that nobody can resume
  (`Bootstrap.DeathLeavesItStuck`, `Bootstrap.LostAnswerLeavesItStuck`);
  `Bootstrap.RetryOutcome` says exactly which claims a retry can complete.

## Model

| member | source | states |
|---|---|---|
| `CanonicalJson.CanonicalIsMeaning` | src/services/audit_integrity.rs:67-106 | Two values print to the same text if and only if they are equal once null object members are dropped and key order is forgotten at every depth; array order and array nulls count |
| `CanonicalJson.PrintReadsBack` | src/services/audit_integrity.rs:67-106 | A printed value can be read back from the front of any text that follows it with a separator, so no two values share a text |
| `CanonicalJson.NormalFormIsUnique` | src/services/audit_integrity.rs:71-79 | Values in normal form (no null members, keys strictly increasing) with the same meaning are identical |
| `CanonicalJson.SortedKeyFindsMember` | src/services/audit_integrity.rs:71-86 | Looking up the i-th sorted key in the map finds the member that stands i-th in the sorted object |
| `CanonicalJson.LiteralsLookLike` | src/services/audit_integrity.rs:99-101 | `null`, `true`, `false` and what is empty print as JSON has them |
| `CanonicalJson.ArrayLooksLike` | src/services/audit_integrity.rs:88-98 | An array prints as its items between brackets, with commas |
| `CanonicalJson.ObjectLooksLike` | src/services/audit_integrity.rs:70-87 | An object prints as its kept members in the order of their keys between braces, each as quoted key, colon and value, with commas |
| `CanonicalJson.StringLooksLike` | src/services/audit_integrity.rs:82-101 | A string prints as the escapes of its characters, one after the other, between quotes |
| `CanonicalJson.CanonicalText` | src/services/audit_integrity.rs:67-106 | The recursive writer that appends to one buffer, with its two comma loops, produces exactly the canonical text |
| `CanonicalJson.Write` | src/services/audit_integrity.rs:68-101 | Writing a value appends its canonical text to what the buffer held, and nothing else |
| `CanonicalJson.WriteObject` | src/services/audit_integrity.rs:70-87 | The loop over filtered, sorted keys appends the text of the normalised object |
| `CanonicalJson.WriteArray` | src/services/audit_integrity.rs:88-98 | The loop over items appends the text of the array, in its order |
| `AuditIntegrity.FramingIsInjective` | src/services/audit_integrity.rs:113-138 | The length-prefixed byte stream fed to the hash determines all eleven fields, for arbitrary contents including digits, colons and bars |
| `AuditIntegrity.StreamReadsBack` | src/services/audit_integrity.rs:131-136 | Framed fields can be read back one by one: equal streams come from equal lists of fields |
| `AuditIntegrity.StreamInOrder` | src/services/audit_integrity.rs:113-138 | What is hashed are the eleven fields in the order of the source, each as its length, a colon, its bytes and a bar |
| `AuditIntegrity.ComputeEventHash` | src/services/audit_integrity.rs:113-138 | The loop of four hasher updates per field hashes exactly the framed stream |
| `AuditIntegrity.HexIsInjective` | src/services/audit_integrity.rs:295-297 | The hexadecimal text of a digest determines its bytes |
| `AuditIntegrity.HashDeterminesEvent` | src/services/audit_integrity.rs:113-138 | Two events with one hash are equal in all eleven fields, or SHA-256 has collided on their two streams |
| `AuditIntegrity.SameMessageIff` | src/services/audit_integrity.rs:290-293 | Two checkpoints share a signed message if and only if they are equal, or have one time and the longer head hash is a number, or anything and a bar and a number, before a bar and the shorter head hash, the rest going to the other chain name |
| `AuditIntegrity.EqualLengthHeadsReadBack` | src/services/audit_integrity.rs:290-293 | With head hashes of one length, as all real ones have, the message determines the checkpoint |
| `AuditIntegrity.CheckpointMessageReadsBack` | src/services/audit_integrity.rs:290-293 | So it does when neither head hash holds a bar, whatever their lengths |
| `AuditIntegrity.CheckpointMessageIsAmbiguousOnBars` | src/services/audit_integrity.rs:290-293 | A family of different checkpoints with the same message: any head hash after a number and a bar |
| `AuditVerify.ScanIsExact` | src/routes/audit.rs:1229-1300 | Over ordered rows the adjacent-row scan finds no fault if and only if every chain is numbered from 1 without gap or repeat, linked from genesis, and every row recomputes |
| `AuditVerify.FirstFaultIsFirstUnsoundPrefix` | src/routes/audit.rs:1229-1300 | The row where the scan stops ends the shortest unsound prefix of the table |
| `AuditVerify.ScanRows` | src/routes/audit.rs:1217-1300 | The loop with its running hash, expected number, current chain and anchors map stops at the first faulty row with its reason, and its map holds exactly the accepted rows |
| `AuditVerify.MatchCheckpoints` | src/routes/audit.rs:1320-1371 | The second loop counts exactly the own-key checkpoints with a valid signature that equal the row hash at their position, and finds the first that does not |
| `AuditVerify.SomeVerified` | src/routes/audit.rs:1320-1378 | The count is positive if and only if some checkpoint is verified |
| `AuditVerify.VerifyIntegrity` | src/routes/audit.rs:1175-1388 | `intact` holds exactly for a non-empty sound table all of whose own checkpoints match and which has at least one; no break is reported exactly if table and checkpoints are sound; otherwise the first failing position is, with its reason: the number is not the next of its chain, or it is and the hash of the row before is not named, or it is and the row does not recompute |
| `AuditVerify.MissingSeqMeans` | src/routes/audit.rs:1247-1258 | In ordered rows, after a sound prefix: a row is reported as out of number if and only if its position is taken already, or it is not the first of its chain and no row before it has the number before its own |
| `AuditVerify.ChainsBegunIsExactIff` | src/routes/audit.rs:1217-1245 | Over ordered rows the counter of chains equals the number of chain names read if and only if none of them is empty |
| `AuditVerify.UnnamedChainIsNotCounted` | src/routes/audit.rs:1217-1245 | A table of one row for which the counter is wrong |
| `AuditTamper.SameHashSameFacts` | src/routes/audit.rs:1270-1290 | Two rows that recompute to one hash agree in every stored field, details up to canonical form |
| `AuditTamper.SameHashSameHistory` | src/routes/audit.rs:1229-1300 | Two accepted tables that carry the same `event_hash` at some row agree on that row and on every row before it in its chain |
| `AuditTamper.SignedPrefixIsFixed` | src/services/audit_integrity.rs:180-209 | If only honestly signed messages verify and the report says `intact`, the table agrees with the original on every row up to each counted checkpoint |
| `AuditLog.MultiWriterSafety` | src/services/audit_logger.rs:397-462 | For any number of writers on a chain, any interleaving, restarts and commits whose answer is lost or late: stored rows are linked, numbered and sealed, and no event is stored twice |
| `AuditLog.NoGaps` | src/services/audit_logger.rs:397-462 | In such a table a chain that has row n has every row from 1 to n |
| `AuditLog.RowsCarryEvents` | src/services/audit_logger.rs:464-538 | Every row stored after any run carries, column by column, the data of an event that some writer of that run began to write, and the time at which it did |
| `AuditLog.CommitKeepsInv` | schema.sql:431 | Filling a free position under the unique index keeps every writer, request and checkpoint consistent with the table |
| `AuditLog.StepKeepsInv` | src/services/audit_logger.rs:464-538 | Every single action of writers, database and checkpoint tasks keeps the invariant |
| `AuditLog.RunKeepsRows` | src/services/audit_logger.rs:464-538 | No run ever changes or removes a stored row or checkpoint |
| `AuditLog.HonestTableIsSound` | src/routes/audit.rs:1194-1300 | Any ordered listing of the table of any run is sound, even if details come back reordered and without their nulls |
| `AuditLog.HonestRunsVerify` | src/services/audit_integrity.rs:215-287 | Of one snapshot of both tables after any run the report shows no break, counts every own-key checkpoint as verified, and is `intact` if and only if there is one |
| `AuditLog.TwoReadsReport` | src/routes/audit.rs:1194-1310 | With anything happening between its two queries the report finds every checkpoint anchored if and only if the rows read already contained the rows of the own checkpoints read |
| `AuditLog.TwoReadsCanShowABreak` | src/routes/audit.rs:1194-1310 | A run in which the report shows a break although nothing was tampered with |
| `AuditEvidence.OnlyStoredRowsAreSigned` | src/services/audit_integrity.rs:215-287 | Whatever a checkpoint task is about to sign, at any moment of any run, names a row that is stored and stays |
| `AuditEvidence.TamperingIsNoticed` | src/routes/audit.rs:1175-1388 | After any run of writers and tasks: if the own key signed only what the tasks sign and the report on what is found later is `intact`, then up to every counted checkpoint the rows found are the rows written |
| `AuditWriter.ActivityTable.Create` | src/services/audit_logger.rs:464-538 | The insert takes effect exactly if it is executed and the position is free; success is seen only when it is also answered |
| `AuditWriter.LastOfChain` | src/services/audit_logger.rs:278-329 | The query gives the greatest number of the chain, 0 for an empty one (also used for checkpoints) |
| `AuditWriter.WriterTask.LoadChainHead` | src/services/audit_logger.rs:278-329 | A failed read leaves the head unknown; a read gives number and hash of the last row of the chain, or genesis, sixty-four zeros, for an empty one |
| `AuditWriter.WriterTask.MarkDropped` | src/services/audit_logger.rs:340-344 | Counts the event as lost, marks the log unhealthy, and leaves the head |
| `AuditWriter.WriterTask.WriteWithRetry` | src/services/audit_logger.rs:397-462 | Up to three attempts with one fixed row: a run of the machine. The first attempt that reached the database decides; if the position after the head was free, it then holds the event column by column, the hash before it and the hash of all that, and nothing else changes; the head moves exactly if that was answered, and otherwise the event counts as dropped |
| `AuditWriter.WriterTask.HandleEvent` | src/services/audit_logger.rs:153-189 | One queued event, head load included, is a run of the machine; with a head, cached or read, the event is written after it as above, and with an unreadable head nothing is written and the event counts as dropped |
| `AuditWriter.DecisiveGrows` | src/services/audit_logger.rs:397-462 | Another attempt changes the outcome only if none before it reached the database |
| `CheckpointTask.IssueCheckpoint` | src/services/audit_integrity.rs:215-287 | A call is a run of the machine; exactly if the chain has a head beyond all its checkpoints, its position, hash and time are signed with the own key, stored unless the insert is lost, and reported if its answer arrives; otherwise nothing is stored, and an error is told from nothing new |
| `AuditStall.GetsOnIffNotBehind` | src/services/audit_logger.rs:397-462 | After any run a writer between two events can advance without a restart if and only if the position after its cached head is free |
| `AuditStall.StalledNeverStores` | src/services/audit_logger.rs:397-462 | Once behind, in every later run without its restart the head stays and no row it begins is stored |
| `AuditStall.LostAnswerLeavesBehind` | src/services/audit_logger.rs:397-462 | A commit whose answer is lost, and two more refused attempts, leave a writer behind |
| `Scopes.JoinReadsBack` | src/services/oidc.rs:252 | Joining words with spaces and splitting at white space gives the same words |
| `Scopes.ResolveScope` | src/services/oidc.rs:232-253 | Grants exactly the words asked for, each once and in the order of first use, or bare `openid` for a blank request; refuses exactly if a word is not allowed |
| `Scopes.GrantedWithinAllowed` | src/services/oidc.rs:232-253 | A granted scope lies within the allowed ones, or is the bare `openid` of a request that is present but blank |
| `Scopes.RefreshNeverWidens` | src/services/oidc.rs:412-424 | A refresh goes through exactly if it asks for a subset of the original scope; it gets what it asks for, or the original scope if it names none |
| `Scopes.CheckRefreshScope` | src/services/oidc.rs:412-424 | The loop over the requested words decides that subset test and gives that scope |
| `Oidc.AddCodeKeepsInv` | src/services/oidc.rs:177-202 | Saving a code under a bearer never drawn before keeps all records and requests consistent |
| `Oidc.ConsumeCodeKeepsInv` | src/services/oidc.rs:927-945 | The guarded update makes its caller the only winner of the code, also when the answer is lost |
| `Oidc.ConsumeRefreshKeepsInv` | src/services/oidc.rs:1105-1119 | The same for a refresh token |
| `Oidc.MintKeepsInv` | src/services/oidc.rs:473-500 | A saved refresh token is the one successor of what its request consumed, with the same client and user and no wider scope |
| `Oidc.DeleteKeepsInv` | src/services/oidc.rs:1122-1200 | Rows may be deleted at any time (revocation, logout, cleanup) without harm |
| `OidcSafety.StepKeepsInv` | src/services/oidc.rs:283-523 | Every action of the machine keeps the invariant |
| `OidcSafety.OneAnswerPerSource` | src/services/oidc.rs:283-434 | Under every interleaving a code, and a refresh token, is answered by at most one token response |
| `OidcSafety.CodeAnsweredAsIssued` | src/services/oidc.rs:304-349 | The response to a code goes only to a request that presented it, and only to its client and redirect URI, with an S256 verifier behind the stored challenge, or without a challenge only to a confidential client that showed its secret; for the user and scope it was issued with |
| `OidcSafety.OneSuccessorInEveryRun` | src/services/oidc.rs:368-434 | In every run each refresh token, and each code, has at most one successor |
| `OidcSafety.OnePerGeneration` | src/services/oidc.rs:368-434 | The refresh tokens that descend from a code form a line, one per generation |
| `OidcSafety.OlderIsConsumed` | src/services/oidc.rs:368-434 | Every token of that line but the last has been consumed |
| `OidcSafety.OneLiveTokenPerCode` | src/services/oidc.rs:368-434 | In every run at most one unused refresh token descends from a code |
| `OidcSafety.ScopesNeverGrow` | src/services/oidc.rs:412-424 | Along any chain of refreshes scopes only shrink from parent to child and from the code, client and user stay, and the code's scope lies within the allowed ones or is the blank-request `openid` |
| `OidcSafety.AnswerWithinSource` | src/services/oidc.rs:436-523 | The code or token answered for is the one presented; what is answered is for the user and within the scope of what was presented, and the refresh token in it is that source's successor |
| `OidcService.Tables.UpdateAuthorizationCode` | src/services/oidc.rs:927-945 | Marks the code as used if it is there and unused, and says whether it did |
| `OidcService.Tables.ConsumeRefreshToken` | src/services/oidc.rs:1105-1119 | Marks the token as used if it is there and unused, and says whether it did |
| `OidcService.Tables.RevokeClientTokensForUser` | src/services/oidc.rs:1122-1152 | Deletes the access tokens and then the refresh tokens of that user with that client and nobody else's; the second delete is skipped when the first gives no answer |
| `OidcService.Tables.CleanupExpiredArtifacts` | src/services/oidc.rs:1179-1200 | Deletes exactly the rows that have expired |
| `OidcCleanup.CleanupIsInvisibleIff` | src/services/oidc.rs:1179-1200 | After any run, removing expired rows, by all statements of a cleanup or by some, leaves every later run, of reads not earlier than it, with the same requests, answers and history, if and only if no request has read one of them that is an unused code or refresh token and is about to consume it |
| `OidcCleanup.RunStaysHidden` | src/services/oidc.rs:1179-1200 | While nobody holds a removed row, the runs with and without the cleanup stay equal in all but those rows, step by step, whatever else happens |
| `OidcCleanup.HolderIsTold` | src/services/oidc.rs:927-945 | A request that holds such a row goes on without the cleanup and is refused after it |
| `OidcCleanup.CleanupCanBeSeen` | src/services/oidc.rs:304-365 | A run from the start in which a code is read in its last second and swept before its update |
| `OidcService.AuthenticateClient` | src/services/oidc.rs:265-281 | Gives the client exactly if it is there and active and its secret matches, or it is public and shows none |
| `OidcService.HandleAuthorizationCodeGrant` | src/services/oidc.rs:283-366 | A call is a run of the machine. There is an answer if and only if the client authenticates, may use codes and shows an unused code in time, issued to it for this redirect URI, with the S256 verifier of its challenge (a public client has one), and every statement is answered; the code is used up and the rows for its user, scope and session are stored as far as their statements are executed; without such a code nothing is touched |
| `OidcService.GenerateTokens` | src/services/oidc.rs:436-523 | An answer if and only if the account is usable and each insert, and the ID token if the scope holds `openid`, is answered; the access token and, if the client may have one, the refresh token are stored as issued as far as their statements are executed; for an account that is not usable nothing is |
| `OidcService.RevokeFamily` | src/services/oidc.rs:390-398 | All tokens of that user and client are deleted, the access tokens unless that statement is not executed, the refresh tokens if the first is answered and the second executed; nobody else's are; the request is refused |
| `OidcRevocation.RevocationIsFinalIff` | src/services/oidc.rs:390-398 | After any run that leaves no refresh token of a client and user stored: some later run stores an unused one of a family consumed before, if and only if a request for them has consumed its code or token, may have a refresh token, and has not saved it |
| `OidcRevocation.RevokingEmpties` | src/services/oidc.rs:1122-1152 | The second delete of a revocation leaves no refresh token of its client and user stored |
| `OidcRevocation.RunStaysGone` | src/services/oidc.rs:390-398 | Without such a request no later run brings an unused token of the family back |
| `OidcRevocation.RevocationCanBeOutrun` | src/services/oidc.rs:368-434 | A run from the start in which a token is rotated, presented again and its family revoked, and yet can come back |
| `OidcService.RotateRefreshToken` | src/services/oidc.rs:400-424 | A grant if and only if the token is unused, both statements are answered and the scope asked for is a subset; the token is consumed and its access token deleted before the scope is looked at, so a scope that is too wide still uses the token up |
| `OidcService.HandleRefreshTokenGrant` | src/services/oidc.rs:368-434 | A call is a run of the machine. There is an answer if and only if the client authenticates, presents an unused token of its own in time, asks for no more scope and every statement is answered; the tables are then, or up to the statement that failed, those of one rotation. A used token takes every token of its client and user with it and nobody else's; anything less touches nothing |
| `OidcService.CreateAuthorizationCode` | src/services/oidc.rs:139-229 | A call is a run of the machine; a code is due exactly if the client is active and the redirect URI, response type, challenge and every scope word are allowed; it is stored for 600 seconds, with everything it is bound to, unless the insert is lost, and given out if the answer arrives |
| `Bootstrap.AtMostOneAdmin` | src/routes/bootstrap.rs:238-297 | Over every interleaving, loss and crash at most one user is ever granted the role here, it is an account registered here, and every request that gets to the role, resumed or not, works for it under the email it was registered with |
| `Bootstrap.StepKeepsInv` | src/routes/bootstrap.rs:160-322 | Every step keeps the gate with at most one holder, whose email the claim row carries |
| `Bootstrap.RegisterKeepsInv` | src/routes/bootstrap.rs:239-272 | Registering the account fixes the one user everything is about from then on |
| `Bootstrap.ReleaseKeepsInv` | src/routes/bootstrap.rs:388-397 | Deleting the claim row never takes the gate from somebody else |
| `Bootstrap.RunStaysStuck` | src/routes/bootstrap.rs:372-381 | A claim left without an account behind it refuses everybody for good: no run from there grants anything |
| `Bootstrap.DeathLeavesItStuck` | src/routes/bootstrap.rs:250-265 | A request that dies between registering the account and recording it: whatever comes later, nobody is granted the role |
| `Bootstrap.LostAnswerLeavesItStuck` | src/routes/bootstrap.rs:343-382 | The same when the answer of the insert that took the gate is lost, with no account at all |
| `Bootstrap.RetryOutcome` | src/routes/bootstrap.rs:343-382 | After any run, while nobody holds the role, one more request with the right token succeeds exactly if there is no claim row or the row records an account under the same email, and then for that account |
| `BootstrapGate.Tables.CreateClaim` | src/routes/bootstrap.rs:343-356 | Creates the row only if it is absent; the gate is held only by whoever hears of it |
| `BootstrapGate.Tables.MarkRolePending` | src/routes/bootstrap.rs:400-417 | Records the account in an existing row, and creates none |
| `BootstrapGate.Tables.FinishBootstrap` | src/routes/bootstrap.rs:420-425 | Marks an existing row as done |
| `BootstrapGate.Tables.ReleaseBootstrap` | src/routes/bootstrap.rs:388-397 | Deletes the row |
| `BootstrapGate.ClaimBootstrap` | src/routes/bootstrap.rs:343-382 | A run of the machine: fresh exactly if no claim was there and its insert is answered; resumed exactly for the account of a claim left with the role pending under the same email that is read; turned away otherwise |
| `BootstrapGate.GrantAdmin` | src/services/rbac.rs:618-710 | A run of the machine: succeeds exactly if the account is seen not to have the role and the assignment is answered; the claim is then marked as done; the role is given whenever the assignment is executed |
| `BootstrapGate.BootstrapAdmin` | src/routes/bootstrap.rs:160-322 | A call is a run of the machine. It succeeds if and only if nobody has the role, the token is right, the request works for an account (registered under a claim it took, or recorded in a claim left pending under its email) and role check and assignment are answered; that account alone then has the role; what the claim row holds is given in every case, and with an administrator in place or a wrong token nothing is touched |
| `SlidingWindow.BoundedIffShortWindow` | src/services/rate_limiter.rs:190-243 | In every run of checks and cleanups every half-open interval of a window's length holds at most `max_requests` passed requests, if and only if the window is at most an hour or nothing is let through |
| `SlidingWindow.InvisibleIffShortWindow` | src/services/rate_limiter.rs:409-439 | Cleanup changes no later answer under exactly the same condition |
| `SlidingWindow.LongWindowLeaks` | src/services/rate_limiter.rs:413-430 | The run that shows it for longer windows: a full quota, a cleanup an hour later, one request more |
| `SlidingWindow.RunTracks` | src/services/rate_limiter.rs:190-243 | After any run a record holds the end of the history of passed requests and lacks only times a window old, and requests `max_requests` apart are a window apart |
| `SlidingWindow.CleanupSimulation` | src/services/rate_limiter.rs:409-439 | A run and the same run without its cleanups answer alike and end in records that mean the same |
| `SlidingWindow.BlockLasts` | src/services/rate_limiter.rs:204-221 | After any run in which a check starts a block: until the configured time has passed nothing is let through, whatever comes, and the next check is refused as blocked exactly if it sees a time before that |
| `SlidingWindow.BlockStands` | src/services/rate_limiter.rs:204-221 | A block in force is neither lifted, moved nor forgotten by a check or a cleanup |
| `RateKeys.KeyIsInjective` | src/services/rate_limiter.rs:162-169 | Two pairs share a counter if and only if they are the same pair, as long as no client name holds the separator |
| `RateKeys.SeparatorCollides` | src/services/rate_limiter.rs:162-169 | With the separator inside a client name two pairs do share one |
| `RateKeys.PrefixIsClient` | src/services/rate_limiter.rs:385-390 | The prefix that a reset looks for picks out exactly the records of one client |
| `RateLimiter.RequestRecord.CleanupExpired` | src/services/rate_limiter.rs:60-63 | `retain` keeps exactly the timestamps after the cutoff, in order |
| `RateLimiter.RequestRecord.Decide` | src/services/rate_limiter.rs:204-235 | One check of a record changes it and answers as one step of the window |
| `RateLimiter.RateLimiter.CheckInProcess` | src/services/rate_limiter.rs:190-243 | A check is one step of the table of all pairs. By the rule given for its endpoint, or the default, it is let through exactly if no block is in force and fewer than the maximum of remembered requests lie within the window; a block lasts the configured time |
| `RateLimiter.RateLimiter.CheckRateLimitVerbose` | src/services/rate_limiter.rs:190-277 | The layer in the process decides by the rule given for the endpoint or the default; the shared counter is asked exactly for requests that passed it on endpoints with a rule of their own, with the window index this process has read, decides then, and lets through when it gives no answer |
| `RateLimiter.RateLimiter.CleanupExpiredRecords` | src/services/rate_limiter.rs:409-433 | Keeps exactly the records that block or saw a request within the hour |
| `RateLimiter.RateLimiter.ResetLimit` | src/services/rate_limiter.rs:385-390 | Drops exactly the records under the prefix |
| `RateLimiter.RateLimiter.GetRemainingRequests` | src/services/rate_limiter.rs:393-406 | By the rule given for the endpoint or the default: nothing is left while blocked; otherwise what is left of the quota |
| `RateLimiter.SharedTable.SharedDecision` | src/services/rate_limiter.rs:285-366 | The four statements in order, with the index that was read before them, are one step of the shared window, for one row; in its fields: another window counts from one, a block begins over the limit unless one is in force, and one in force refuses |
| `RateLimiter.SharedTable.CleanupSharedRecords` | src/services/rate_limiter.rs:446-461 | Deletes exactly the rows that neither block nor changed within the hour |
| `RateTable.LimitForEveryPair` | src/services/rate_limiter.rs:190-243 | In every mixed run over all clients and endpoints every interval of a window's length holds at most the maximum of passed requests of a pair, by the rule given for its endpoint, or the default for an endpoint without one, as long as that window is at most an hour |
| `RateTable.RunOfPair` | src/services/rate_limiter.rs:190-243 | The record and passes of a pair in a mixed run are those of the run of its own events |
| `SharedWindow.BlocksApart` | src/services/rate_limiter.rs:285-366 | In every run two answers that start a block are more than a block apart |
| `SharedWindow.HitsCount` | src/services/rate_limiter.rs:300-310 | In every run the first hit of a window counts as 1 and each next one in it as one more, unless more than an idle hour lies between |
| `SharedWindow.IndexIsOfWindow` | src/services/rate_limiter.rs:292-297 | The index of an instant is that of the window it lies in: windows of whole seconds, at least one, follow each other without gap from the epoch |
| `SharedWindow.BlockStands` | src/services/rate_limiter.rs:313-317 | A block in force is neither extended nor lifted by requests or cleanup, and refuses |
| `SharedWindow.QuotaIffTimely` | src/services/rate_limiter.rs:285-366 | With every request bringing an index of its own: in every run at most `max_requests` hits within the quota of a window are `Allowed`, if and only if no executed request may carry an index behind the row (or, with the row cleaned up, not beyond every window counted), or nothing is let through |
| `SharedWindow.TimelyKeepsQuota` | src/services/rate_limiter.rs:294-326 | Without late requests the row is of the latest window counted and has counted whatever was let through in it, whatever the clocks |
| `SharedWindow.LateRequestLeaks` | src/services/rate_limiter.rs:285-366 | For every rule that lets something through, the run in which one late request makes a window give out its quota and one more, with no index ahead of the clock |
| `SharedWindow.PunctualIsTimely` | src/services/rate_limiter.rs:446-461 | With windows of at most an hour a request that is executed in the window it has read is never late, cleanups included |
| `SharedWindow.QuotaIffShortWindow` | src/services/rate_limiter.rs:285-366 | In every run of requests executed in the window they have read the quota of every window is kept, if and only if the window is at most an hour or nothing is let through |
| `SharedWindow.LongWindowLeaks` | src/services/rate_limiter.rs:446-461 | The run that shows it for longer windows |
| `SharedWindow.BeyondQuotaIffBlockEnds` | src/services/rate_limiter.rs:285-366 | In every run an answer is refused as blocked if and only if it falls into a block begun by an earlier answer, starts a block if and only if it is over the limit, in no block and not at the end of one, and over the limit is `Allowed` if and only if it is given in the instant at which a block begun by an earlier answer ends |
| `SharedWindow.OverLimitAllowedIff` | src/services/rate_limiter.rs:313-322 | A counted request over the limit is let through if and only if the stored end of the block is this instant |
| `SharedWindow.EdgeLetsThrough` | src/services/rate_limiter.rs:313-322 | For every rule, the run that shows it: the limit is passed once, and when the block ends there come as many requests and one more |
| `Lockout.CleanupIsInvisible` | src/services/account_lockout.rs:440-484 | In every run whose attempts are separated from earlier cleanups by a check, cleanups change no check, no count and no unlock |
| `Lockout.CleanupBeforeAttempt` | src/services/account_lockout.rs:440-484 | A cleanup right before an attempt changes neither its row nor its answer if and only if it leaves the row or the row counts for nothing |
| `Lockout.CleanupBetweenCheckAndAttempt` | src/services/account_lockout.rs:440-484 | At the end of any such run, a cleanup between the last check and the attempt leaves its answer alone if and only if the row checked is kept or counts for nothing |
| `Lockout.UnguardedCleanupIsVisible` | src/services/account_lockout.rs:440-484 | For every maximum above one, a run in which a cleanup between the last check and the attempt keeps the account from being locked |
| `LockoutCounting.CountIsExact` | src/services/account_lockout.rs:260-339 | For any statement-level interleaving of n increments from an unlocked count c below the maximum: the count ends at c+n, the row is locked exactly if that reaches the maximum, and then exactly one caller saw `just_locked` |
| `LockoutCounting.LockStands` | src/services/account_lockout.rs:276-281 | Later failures never move the end of a lock |
| `LockoutCounting.LockLasts` | src/services/account_lockout.rs:276-281 | After any statement-level interleaving of increments of an unlocked row in which one caller sees `just_locked`, its second statement at instant t: checks before t plus the configured time refuse and leave the row, and a check from then on lifts the lock |
| `LockoutCounting.LockedRowRefuses` | src/services/account_lockout.rs:102-144 | Until that end every check refuses and leaves the row as it is |
| `LockoutService.Service.CheckLockout` | src/services/account_lockout.rs:102-192 | Lifts a lock exactly when its end has come, forgets a count exactly when it is too old, refuses exactly while a lock is in force, and gives the attempts left, for both kinds; when the kind is off it touches nothing |
| `LockoutService.Service.IncrementFailedAttempts` | src/services/account_lockout.rs:195-339 | The three statements count one failure, and lock for the configured time exactly when the maximum is reached on a row that is not locked |
| `LockoutService.FailThenCheck` | src/services/account_lockout.rs:102-192 | A failure that locks, then a check: refused until the configured time has passed since the lock, and free with a full count of attempts from then on |
| `LockoutService.Service.ResetAttempts` | src/services/account_lockout.rs:353-389 | Clears an existing row and creates none |
| `LockoutService.Service.Unlock` | src/services/account_lockout.rs:392-432 | Clears the row, its last attempt apart, and says so exactly if the lock is in force |
| `LockoutService.Service.CleanupExpiredLockouts` | src/services/account_lockout.rs:440-484 | Deletes exactly the locks that are over and the counts older than the reset window |
| `LockoutService.AccountLockout.UnlockAccount` | src/models/account_lockout.rs:102-108 | The record is unlocked, for every instant, with nothing counted and its last attempt kept |
| `LockoutService.AccountLockout.RemainingLockoutSeconds` | src/models/account_lockout.rs:135-146 | The whole seconds left, given exactly if there is at least one |
| `CacheHistory.HitIsRecentAndValid` | src/services/auth_cache.rs:55-67 | In every run a hit gives the user of the latest insert for the token, made less than one lifetime ago, with no later insert or invalidation of the token or of its user |
| `CacheHistory.NeverOverfull` | src/services/auth_cache.rs:69-93 | The map never holds more than 10,000 entries |
| `CacheHistory.PurgeIsInvisible` | src/services/auth_cache.rs:115-124 | Purging at any points, with a clock reading however old, changes no later lookup, also across overflow eviction |
| `CacheHistory.LookupIsExact` | src/services/auth_cache.rs:55-93 | As long as live entries leave room, a lookup is exactly what the history says |
| `LogoutRace.HitAfterLogoutIff` | src/utils/jwt.rs:248-308 | After a logout, and from any instant on, the cache can let the token through again if and only if a request read its session before and has not yet cached it |
| `LogoutRace.HitAfterLogoutIsShort` | src/services/auth_cache.rs:69-93 | Whatever follows a logout, a token that is let through after it was cached after it, less than one lifetime ago |
| `LogoutRace.HitFillsNothing` | src/utils/jwt.rs:248-271 | A request that hits the cache reads no session and fills nothing in any later run, so a hit never prolongs the life of an entry |
| `LogoutRace.LogoutDone` | src/services/auth.rs:1125-1129 | The two statements of a logout, with anything happening between them, leave the token without session and without entry |
| `LogoutRace.LogoutAllDone` | src/services/auth.rs:1131-1135 | After any run the two statements that log a user out everywhere, with anything happening between them, leave every token issued to that user before without session and without entry |
| `LogoutRace.LogoutCanBeOutrun` | src/utils/jwt.rs:248-308 | A run in which it can be let through again at any later time |
| `AuthCache.Cache.Get` | src/services/auth_cache.rs:55-67 | Gives the entry of the token while it lives; nothing without a lifetime |
| `AuthCache.Cache.Insert` | src/services/auth_cache.rs:69-93 | Sweeps a full map, drops it if that leaves it full, then stores the entry; the bound is kept |
| `AuthCache.Cache.InvalidateToken` | src/services/auth_cache.rs:96-101 | Removes that token alone |
| `AuthCache.Cache.InvalidateUser` | src/services/auth_cache.rs:104-112 | Removes exactly the entries of that user |
| `AuthCache.Cache.PurgeExpired` | src/services/auth_cache.rs:115-124 | Keeps exactly the live entries |
| `Mfa.MatchTotpStep` | src/services/mfa.rs:24-40 | The loop over the offsets finds the earliest of the three steps around the clock that gives the code, never a negative one, and none exactly if none does |
| `Mfa.MatchIsEarliest` | src/services/mfa.rs:24-40 | A step is the one matched if and only if it gives the code, is not negative, lies within one period of thirty seconds around the clock, and no earlier such step gives the code |
| `Mfa.AcceptedStepsIncrease` | src/services/mfa.rs:390-449 | Within one enrolment, under every interleaving, accepted steps strictly increase: none is accepted twice |
| `Mfa.ReplayBound` | src/services/mfa.rs:390-449 | At most floor(t1/30) - floor(t0/30) + 3 codes matched during [t0, t1] are accepted in one enrolment |
| `Mfa.BackupCodeOnce` | src/services/mfa.rs:455-477 | A backup code is accepted at most once over all runs |
| `Mfa.SecretCurrentIffNoStaleWrite` | src/services/mfa.rs:390-449 | All through a run the stored secret is the one drawn for its enrolment, if and only if no update takes effect for a request that had read an earlier enrolment |
| `Mfa.AcceptedForOwnSecretIff` | src/services/mfa.rs:390-449 | After any run in which that went well, an accepted code leaves the secret of the current enrolment stored and is a code of that secret, if and only if its request read the current enrolment; it completes the enrolment if it was to |
| `Mfa.StaleWriteCanBePutRight` | src/services/mfa.rs:404-432 | A run in which a stale update is overwritten by one that had read the current enrolment: why the condition speaks of all moments |
| `Mfa.StaleEnableRestoresSecret` | src/services/mfa.rs:404-432 | A run in which a request that outlasts its enrolment puts the earlier secret back and enables it |
| `Mfa.ReplacedIffPreparing` | src/services/mfa.rs:77-157 | From any state with a complete enrolment, some later run replaces it without disabling it first, if and only if a set-up is already past its status test or a set-up of the later run may fail to read the status |
| `Mfa.RunKeepsEnrolment` | src/services/mfa.rs:77-157 | With no set-up under way, readable statuses and no disabling, no later run replaces a complete enrolment |
| `Mfa.CompleteEnrolmentIsReplaced` | src/services/mfa.rs:81-150 | A run in which an overtaken set-up replaces it |
| `Mfa.UnreadStatusReplaces` | src/services/mfa.rs:81-150 | A run in which a set-up that begins after the enrolment is complete, and cannot read so, replaces it |
| `Mfa.FindHashIsFirst` | src/services/mfa.rs:246-250 | Finds the first stored hash the code answers to, and none exactly if there is none |
| `MfaService.Store.ConsumeTotpStep` | src/services/mfa.rs:410-449 | The update takes effect exactly on a row whose watermark is below the step, and writes step, secret and status as given; a watermark never goes back |
| `MfaService.Store.AcceptTotpCode` | src/services/mfa.rs:390-449 | Accepted if and only if the earliest step near the clock that gives the code is above the stored watermark and the update is answered; the row is changed by that step alone |
| `MfaService.Store.VerifyTotp` | src/services/mfa.rs:160-225 | A call is a run of the machine. Accepted if and only if the row has the right status, the earliest step near the clock that gives a code of its secret is above its watermark, and the update is answered; once a code is accepted the same code is refused |
| `MfaService.Store.UseBackupCode` | src/services/mfa.rs:228-284 | A call is a run of the machine. Accepted if and only if the user is enabled, a stored hash answers to the code, and the update is answered; it removes exactly the first such hash |
| `MfaService.Store.ConsumeBackupCode` | src/services/mfa.rs:455-477 | Takes effect exactly if the hash is still stored, and then removes it and no other |
| `MfaService.Store.SetupTotp` | src/services/mfa.rs:77-157 | A call is a run of the machine. Refused exactly if the status was read and is enabled; otherwise, a failed read included, the row is replaced by a pending one without a watermark |
| `MfaService.Store.DisableMfa` | src/services/mfa.rs:287-301 | A call is a run of the machine. Deletes the row if it could be read and the delete is executed; without a row it is an error |

## Left out

- HTTP, cookies, extractors, SMTP, social logins, configuration and the reporting queries of src/routes/audit.rs: plumbing with no invariant of their own.
- SHA-256, Ed25519, Argon2 and the generator of time-based codes are parameters; constant-time comparison is plain equality; a bearer, a cache key and a shared bucket are identified with their digests.
- JSON numbers are integers: the printing of floating-point numbers is not modelled.
- The normalisation of actor and user identifiers and the lookup of actor names: identifiers are opaque keys already in their stored form.
- The queue of the audit logger and its capacity, `flush`, and the health endpoint; events reach the writer one by one, and rows from before the chain existed are only counted.
- That a writer which is not behind does get on: `AuditStall.GetsOnIffNotBehind` says that it can, not that the database lets it.
- `AuditLog.HonestRunsVerify`: of one snapshot of both tables; what two queries can show is `AuditLog.TwoReadsReport`.
- `AuditTamper.SignedPrefixIsFixed`: up to the last own checkpoint; rows after it can be recomputed by whoever can write the whole table, which is what the original says too.
- In the OIDC machine a fresh bearer is one never drawn before; `state`, `nonce`, the contents of ID tokens and their disclosure by scope, userinfo and RP-initiated logout are not modelled. That an ID token may fail is.
- `OidcService.CreateAuthorizationCode`: reading the client and saving the code are one step; clients may change arbitrarily before and after it.
- A `Fate` decides each statement when it is sent; that a statement takes effect only after its caller has gone on is modelled for the audit writers alone.
- `Bootstrap.AtMostOneAdmin`: the check for existing administrators and the assignment of roles elsewhere are arbitrary, and the theorem does not need them; the token comparison is a parameter.
- `RateLimiter.SharedTable.SharedDecision`: the four statements are one transaction on the clock of the database. An attempt that ends in a write conflict has changed nothing and is not a step; the attempt that goes through is, with the index read before the first. That a transaction is carried out and its answer lost is not modelled.
- `SlidingWindow.BoundedIffShortWindow`: instants are unbounded integers; on platforms whose monotone clock cannot show times before its start, subtracting the window can fail in the original.
- `LockoutCounting.CountIsExact`: no check or reset writes the row meanwhile, and every caller gets through; exhausted retries and a check that saves a stale record over a newer count are not modelled.
- Record identifiers of lockout rows, in which blanks become underscores: a row is found by its identifier.
- `CacheHistory.LookupIsExact`: while no insert finds the map full of live entries; then everything is dropped and only the other theorems apply.
- The setting up of a QR code, the encryption of stored secrets and the re-encryption of plain ones: a secret is an opaque value.
- src/services/ai_actor.rs, email verification and password reset: they repeat the conditional update proved for codes and refresh tokens.
