# Callora API: verification model

This project models the parts of the Callora API that keep state, and proves what they promise. It
covers the mobile trust protocol, lead import and rule assignment, follow-ups, call ingestion, the
encrypted personal fields, the pairing limiter, the outbox, and the CSV and ZIP writers.
`dafny verify dfyconfig.toml` checks all of it.

| file | about |
|---|---|
| `Common.dfy` | identifiers, times, optional values |
| `TrustModel.dfy` | devices, credentials, consent and the request ledger as a transition system |
| `TrustInvariant.dfy`, `TrustSteps.dfy`, `TrustRuns.dfy` | the inductive invariant, that every operation keeps it, and what follows for every run |
| `TrustIssued.dfy`, `TrustOutcomes.dfy` | how long issued credentials are accepted; what each operation answers and writes |
| `TrustSessions.dfy`, `TrustActive.dfy`, `TrustReplay.dfy`, `TrustReceipts.dfy` | one usable credential per device; linear rotations; how long a session stays active; replays; pairing codes that pair once |
| `TrustRepository.dfy` | the same operations as methods of one object, proved against the transition system |
| `LeadModel.dfy` | leads, employees, rules, scopes, and the tests on them |
| `LeadFacts.dfy`, `LeadArrivals.dfy` | what assignment and import promise, in the fields of the records; the leads a commit adds |
| `LeadAssignment.dfy`, `LeadFairness.dfy` | dry-run and apply; fairness over whole runs |
| `LeadImport.dfy`, `LeadProgress.dfy`, `LeadForesight.dfy` | preview and commit; counters and completion; when a preview predicts its commit |
| `LeadRepository.dfy` | the loops over leads and rows as methods of one object |
| `DueTimes.dfy`, `FollowUps.dfy` | due times as text and as instants; the derived due time of the next follow-up |
| `CallIngestion.dfy` | batches of calls against a last-writer-wins log |
| `Utf8.dfy`, `CallPii.dfy` | text and bytes; envelopes, blind indexes, duplicate look-up |
| `Limiter.dfy`, `Outbox.dfy` | the sliding window; leases |
| `Csv.dfy`, `CsvReports.dfy`, `Zip.dfy` | printing and reading back |

## How the source is represented

- Identifiers, hashes, fingerprints, team names and codes are natural numbers: the source compares them
  for equality and, where it sorts them, by order. Times are integers in milliseconds, except due times.
- Due times are text, because the source orders them as text: by `localeCompare` where it computes the
  next one afresh, by code units where it compares with the stored one. `DueTimes.Instant` reads the
  instant. The web path stores what `toISOString` gives (apps/api/src/app.ts:219-228), the device path
  the text of the request, which may carry any UTC offset
  (packages/contracts/src/lead-operations.ts:274-290). The collation is a parameter, a numbering of the
  texts; lemmas about canonical texts assume that it sorts digits as digits.
- Each repository method is one atomic step. Clocks, generated identifiers, random nonces, digests,
  compression and ciphers are parameters; their laws (a digest that does not collide on the items
  compared, unsealing that undoes sealing) are preconditions of the lemmas that need them.
- Callers of the trust protocol supply unused identifiers (`TrustModel.Fresh`). A redemption that pairs a
  device must also propose a bootstrap hash that is not stored, which the source does not test;
  `RedeemKeepsExactly` says what happens otherwise. Retries and refused redemptions may repeat any hash.
- The trust repository holds its private maps as one record, replaced in each assignment; the lead
  store keeps them as separate fields. A rule's version counter is kept beside the rule, and a lead's
  team inside the lead.
- Phone numbers of import rows carry the verdict of the E.164 test: a number, or none. They are taken
  as trimmed (the source stores the alternate phone of a row untrimmed).

## What differs from what one would expect

- A preview does not always predict its commit, even if every valid row has a proposed owner: the lead
  of an owner without a team lands elsewhere than the row was checked. `PreviewPredictsCommit` gives the
  exact condition, `TeamlessOwnerMisleads` an input.
- `decryptField` drops a leading byte order mark before it recomputes the blind index, so a text that
  begins with one is encrypted and then never decrypted; lone surrogates are replaced silently.
- A report without columns does not read back: its lines come back with one empty cell.
- The ZIP flags announce data descriptors that are not written.
- An update of a call keeps the SIM card of the first item.
- Due times with a UTC offset are ordered by their text. An update from the device can turn a right next
  due time wrong, and computing it afresh does not help (`OffsetMisleadsUpdate`).
- Seeded leads carry a due time without a follow-up; an update from the device corrects it only if its own
  due time is not textually after the seeded one (`SeededLeadExactly`).
- A device that redeems a second code with the bootstrap credential of the first overwrites the stored
  credential, whose identifier then leads to the new one (`SecondCodeOverwrites`).
- A worker whose lease has run out may still mark its event delivered if nobody claimed it since.

## Model

| member | source | states |
|---|---|---|
| `TrustRuns.StepKeeps` | apps/api/src/repository.ts:2448-2893 | every one of the twelve operations keeps the invariant of `TrustInvariant.Valid`, moves each credential only forward and leaves recorded ledger entries as they are |
| `TrustRuns.RunKeeps` | apps/api/src/repository.ts:2448-3073 | over every legal run: the invariant, credential states only moving pending, active, consumed, revoked with their identity and stamps kept, and a write-once ledger |
| `TrustRuns.ResolveExactly` | apps/api/src/repository.ts:791-827 | in every valid state a credential is accepted exactly when it has the requested type, is usable and unexpired, and its organization is trial or active; the other checks follow from the invariant |
| `TrustRuns.RedeemForwardExactly` | apps/api/src/repository.ts:2448-2566 | redemption does not test whether the bootstrap hash is free: credentials move forward if and only if no pairing overwrites a stored one |
| `TrustRuns.RedeemKeepsExactly` | apps/api/src/repository.ts:2448-2566 | a redemption keeps the invariant if and only if it does not pair a device under a bootstrap hash that is stored already |
| `TrustRuns.SecondCodeOverwrites` | apps/api/src/repository.ts:2448-2566 | from every state in which a device can be paired such an overwriting redemption is reached by redeeming a second code of the employee with the same bootstrap credential; the state after it breaks the invariant |
| `TrustRuns.FirstDevicePairs` | apps/api/src/repository.ts:2448-2566 | an organization with one invited employee and one code is such a state |
| `TrustRuns.RotationRotates` | apps/api/src/repository.ts:2844-2893 | a confirmation that passes its tests names a pending credential and the active session it was prepared from, on one device |
| `TrustRuns.PendingConfirmsExactly` | apps/api/src/repository.ts:2603-2893 | a pending credential resolved for its prepare request can be confirmed exactly as long as the session it was prepared from is still usable |
| `TrustSteps.PairsTrusted` | apps/api/src/repository.ts:2448-2566 | after a pairing, what usable and frozen credentials imply about device, employee and consent still holds, for the paired device and all others |
| `TrustSteps.ActivateTrusted` | apps/api/src/repository.ts:2628-2720 | consuming the bootstrap credential and issuing the session keeps one usable credential per device, backed by device, employee and consent |
| `TrustSteps.ConfirmTrusted` | apps/api/src/repository.ts:2844-2893 | swapping the session for its rotation keeps one usable credential per device |
| `TrustSteps.SuspendTrusted` | apps/api/src/repository.ts:968-989 | suspension stamps credentials without revoking them, and nothing usable is left on the devices it reaches |
| `TrustSessions.LiveStep` | apps/api/src/repository.ts:2448-3073 | one step decides whether a device has a usable credential: pairing gives one, revocation and suspension end it, everything else leaves it |
| `TrustSessions.UsableCount` | apps/api/src/repository.ts:2448-3073 | over every run a device has one usable credential if its last pairing or ending was a pairing, and none otherwise |
| `TrustSessions.OneFromPairingToEnding` | apps/api/src/repository.ts:2448-2893 | from a pairing to the next revocation or suspension there is exactly one usable credential under any interleaving |
| `TrustSessions.OneSuccessor` | apps/api/src/repository.ts:2844-2893 | after a rotation of a session is confirmed, no other credential prepared from that session is ever confirmed |
| `TrustSessions.RotationsLinear` | apps/api/src/repository.ts:2789-2893 | in every reachable state no two confirmed rotations replaced the same session |
| `TrustIssued.PairedAccepted` | apps/api/src/repository.ts:2448-2566 | the bootstrap credential of a pairing is accepted, over every run that follows, exactly until the expiry that was proposed and answered, while it stays in use and its organization is on trial or active |
| `TrustIssued.ActivatedAccepted` | apps/api/src/repository.ts:2628-2720 | so is the session that an activation issues, until the expiry proposed for it |
| `TrustIssued.PreparedConfirms` | apps/api/src/repository.ts:2789-2893 | after every run a prepared rotation can be confirmed exactly until the proposed expiry and while the session it was prepared from stays in use; the answer names that expiry |
| `TrustIssued.RotatedAccepted` | apps/api/src/repository.ts:2789-2893 | the session of a confirmed rotation is accepted, over every run that follows, exactly until the expiry proposed when it was prepared |
| `TrustIssued.InUseRun` | apps/api/src/repository.ts:2448-3073 | a usable credential stays usable exactly until an activation with it, a rotation away from it, a new pairing, or a revocation or suspension of its device |
| `TrustIssued.FoundExactly` | apps/api/src/repository.ts:791-827 | an operation finds a current credential for a context exactly if one in use and unexpired fits it in identity, installation and mode, and the organization is on trial or active |
| `TrustIssued.PreparedResolves` | apps/api/src/repository.ts:2603-2617 | over every run, while its source session stays in use, a prepared credential is accepted for the confirmation of its own preparation exactly until it expires |
| `TrustOutcomes.EndedForGood` | apps/api/src/repository.ts:968-3073 | once a device is revoked or its employee suspended, no credential it had is accepted at any time in any later state |
| `TrustOutcomes.RedeemAnswers` | apps/api/src/repository.ts:2466-2490 | a first redemption pairs exactly for an unrevoked, unused, unexpired code of the requested mode, of an employee neither paused nor deactivated, on an installation of nobody else; each refusal has its one cause |
| `TrustOutcomes.RedeemWrites` | apps/api/src/repository.ts:2491-2566 | what a pairing writes into device, mode, installation, consent, code and employee |
| `TrustOutcomes.RedeemSpends` | apps/api/src/repository.ts:2525-2532 | every earlier credential of the paired device is revoked, and no other device is touched |
| `TrustOutcomes.RecordedRedemption` | apps/api/src/repository.ts:2456-2465 | a recorded redemption is answered again exactly for the same code, payload and installation |
| `TrustOutcomes.RevokedCodeRefused` | apps/api/src/repository.ts:2469 | a revoked code is refused as revoked |
| `TrustOutcomes.ActivateAnswers` | apps/api/src/repository.ts:2649-2669 | with an accepted bootstrap credential a first activation succeeds exactly for a new active session and consent to the policy in force, at most fifteen minutes old and five ahead |
| `TrustOutcomes.ActivateWrites` | apps/api/src/repository.ts:2671-2720 | what an activation writes into consent, device, employee and bootstrap credential, and what it answers |
| `TrustOutcomes.ReconsentAnswers` | apps/api/src/repository.ts:2740-2755 | with an accepted session a first renewal succeeds exactly for such consent |
| `TrustOutcomes.ReconsentWrites` | apps/api/src/repository.ts:2756-2787 | what a renewal writes and answers |
| `TrustOutcomes.PublishEndsConsent` | apps/api/src/repository.ts:829-835 | publishing a policy leaves consent current exactly on devices of another mode or if it is the one agreed to |
| `TrustOutcomes.PrepareAnswers` | apps/api/src/repository.ts:2807-2842 | with an accepted session a first preparation succeeds exactly for a new pending session, rotated from it, under current consent |
| `TrustOutcomes.ResolvedContext` | apps/api/src/repository.ts:841-857 | the identity that an accepted credential gives, field by field |
| `TrustOutcomes.SelfRevokeWrites` | apps/api/src/repository.ts:3043-3073 | a first self-revocation with an accepted session always succeeds; device, consent and credentials afterwards |
| `TrustOutcomes.AdminRevokeAnswers` | apps/api/src/repository.ts:2333-2356 | a first recovery succeeds exactly for a device in service, an active user of the organization and unused evidence identifiers; each refusal has its causes |
| `TrustOutcomes.AdminRevokeWrites` | apps/api/src/repository.ts:2358-2418 | device, consent and live credentials after a recovery, with the number revoked, one audit event and one outbox event |
| `TrustOutcomes.RecordedRecovery` | apps/api/src/repository.ts:2333-2340 | a recorded recovery is answered again exactly for the same device, user and payload |
| `TrustOutcomes.SuspendWrites` | apps/api/src/repository.ts:968-989 | suspension reaches exactly the devices and credentials of the employee |
| `TrustReplay.ConsumedRun` | apps/api/src/repository.ts:2525-2532 | over every run a consumed bootstrap credential stays consumed exactly as long as its device is not paired again and no session of it revokes itself |
| `TrustReplay.SelfRevokeReplays` | apps/api/src/repository.ts:3027-3073 | a completed self-revocation is authenticated and answered from the ledger in every later state, which it does not change |
| `TrustReplay.ActivationReplays` | apps/api/src/repository.ts:2580-2720 | a completed activation is answered again, with no change of state, exactly until the device is reset, and refused afterwards |
| `TrustActive.ActiveRun` | apps/api/src/repository.ts:2448-3073 | over every run a session stays active exactly until it is rotated away, its device is paired again, or the device is revoked by itself or by an administrator; suspension does not stop it |
| `TrustReplay.ResolvedIsAnswered` | apps/api/src/repository.ts:2580-2601 | a retry resolved from the ledger is answered with the recorded response and changes nothing, and is a conflict only if it proposes another credential |
| `TrustReplay.RecordedAnswers` | apps/api/src/repository.ts:2628-3073 | a recorded request is answered as recorded exactly for the recorded credential, payload and proposed credential, and is a conflict otherwise |
| `TrustReplay.ReconsentReplays` | apps/api/src/repository.ts:2580-2787 | a completed renewal of consent is answered again, with no change of state, exactly until its session is rotated away, its device paired again, or the device revoked by itself or an administrator |
| `TrustReplay.PrepareReplays` | apps/api/src/repository.ts:2580-2842 | the same for a completed preparation of a rotation, whatever else the retry proposes under the same hash |
| `TrustReplay.ConfirmReplays` | apps/api/src/repository.ts:2580-2893 | the same for a confirmed rotation, until the session it activated is rotated away in turn, or its device is paired again or revoked |
| `TrustReceipts.RedemptionReplays` | apps/api/src/repository.ts:2448-2566 | a successful redemption is answered from its record in every later state, which it does not change |
| `TrustReceipts.AdminRevokeReplays` | apps/api/src/repository.ts:2322-2418 | so is a device recovery by an administrator |
| `TrustReceipts.CodePairsOnce` | apps/api/src/repository.ts:2448-2566 | in every later state any other request with a redeemed code is refused as consumed, unless a new code took its place |
| `TrustReceipts.ConsentMadeCurrent` | apps/api/src/repository.ts:829-835 | activation and renewed consent leave consent current under the policy in force |
| `TrustRepository.MobileTrustRepository.FindCurrentMobileCredential` | apps/api/src/repository.ts:791-827 | the search finds the one credential that passes every check, or nothing |
| `TrustRepository.MobileTrustRepository.ResolveDeviceCredential` | apps/api/src/repository.ts:2568-2578 | resolves as the transition system does, so `ResolveExactly` holds of it |
| `TrustRepository.MobileTrustRepository.RedeemPairingCode` | apps/api/src/repository.ts:2448-2566 | in place, for every redemption including retries and overwriting ones: state and answer are those of the transition, and the invariant holds afterwards exactly if no stored hash was overwritten |
| `TrustRepository.MobileTrustRepository.ActivateMobileDevice` | apps/api/src/repository.ts:2628-2720 | in place: state and answer are those of the transition, and the invariant is kept |
| `TrustRepository.MobileTrustRepository.ReconsentMobileDevice` | apps/api/src/repository.ts:2722-2787 | in place: state and answer are those of the transition, and the invariant is kept |
| `TrustRepository.MobileTrustRepository.PrepareDeviceSessionRotation` | apps/api/src/repository.ts:2789-2842 | in place: state and answer are those of the transition, and the invariant is kept |
| `TrustRepository.MobileTrustRepository.ConfirmDeviceSessionRotation` | apps/api/src/repository.ts:2844-2893 | in place: state and answer are those of the transition, and the invariant is kept |
| `TrustRepository.MobileTrustRepository.RevokeMobileSession` | apps/api/src/repository.ts:3027-3073 | in place: state and answer are those of the transition, and the invariant is kept |
| `TrustRepository.MobileTrustRepository.RevokeDeviceByAdministrator` | apps/api/src/repository.ts:2322-2418 | in place: state and answer are those of the transition, and the invariant is kept |
| `TrustRepository.MobileTrustRepository.SuspendEmployee` | apps/api/src/repository.ts:968-989 | in place: state and answer are those of the transition, and the invariant is kept |
| `TrustRepository.RevokeLiveCredentials` | apps/api/src/repository.ts:2358-2369 | the sweep revokes the active and pending credentials of the device and no other, and counts them |
| `TrustRepository.MobileTrustRepository.Seeded` | apps/api/src/repository.ts:583-677 | the two seeded workspaces, with their users, employees, connected devices and policies, satisfy the invariant |
| `LeadModel.BestRule` | apps/api/src/repository.ts:1462-1474 | of the rules that match, the one of least priority number and then least identifier, and none only if none matches |
| `LeadFacts.BestIsFirst` | apps/api/src/repository.ts:1453-1474 | the same with matching told in the fields of rule, lead and employees: active, of the team, within reach, all owners at work in the team, conditions met |
| `LeadModel.DefaultTeam` | apps/api/src/repository.ts:1501-1504 | the least of the teams of active employees within the caller's reach, and one of them; none only if there is none |
| `LeadModel.FirstHolder` | apps/api/src/repository.ts:1564-1569 | the first active lead of the team with one of the phones |
| `LeadAssignment.DryRunEqualsApply` | apps/api/src/repository.ts:1915-1994 | an application gives each employee what the dry-run before it announced, leaves unmatched leads alone, and a dry-run after it matches none and leaves the same ones over |
| `LeadAssignment.DueOwnerMayOwn` | apps/api/src/repository.ts:1961-1975 | the owner that a rule yields may always be given the lead, so no assignment of the loop is refused |
| `LeadAssignment.OwnScopeMatchesNothing` | apps/api/src/repository.ts:991-998 | a caller limited to their own leads reaches no unassigned lead |
| `LeadFacts.AppliedRightly` | apps/api/src/repository.ts:1954-1991 | an application gives a lead, which is free and taken by some rule, to an owner of the rule of least priority number, and leaves every other lead as it was |
| `LeadFacts.TurnsRight` | apps/api/src/repository.ts:1960-1990 | an application moves the cursor of a round-robin rule by the leads it is the first to take, and no other cursor |
| `LeadFacts.NewLeadRight` | apps/api/src/repository.ts:1206-1245 | an imported lead has its row's phone, alternate phone and source in their places, the named or default status, the owner, version 1, and the team of the owner or else the caller's first or the organization's first |
| `LeadFacts.PreviewRight` | apps/api/src/repository.ts:1497-1613 | a previewed row is decided and proposed as told in the fields of rows, leads, employees, statuses and rules |
| `LeadArrivals.FateRight` | apps/api/src/repository.ts:1699-1808 | what becomes of a row at commit: the first lead that has its phone, or its own lead with an owner in order |
| `LeadArrivals.BatchArrives` | apps/api/src/repository.ts:1697-1822 | a commit adds one lead for each row it imports, in row order, each the lead of its row |
| `LeadArrivals.BatchMoves` | apps/api/src/repository.ts:1773-1834 | a commit moves the cursor of a round-robin rule by the rows it imports under it, and no other cursor |
| `LeadRepository.ReportRight` | apps/api/src/repository.ts:1915-1940 | a dry-run counts the free leads that rules take and leave, and what every employee is due under a right plan |
| `LeadImport.PreviewUnique` | apps/api/src/repository.ts:1510-1613 | what a preview must say determines every row |
| `LeadImport.BatchSettles` | apps/api/src/repository.ts:1697-1822 | a batch settles exactly its rows, whatever becomes of them, and touches no other row |
| `LeadImport.PendingAfter` | apps/api/src/repository.ts:1697 | after the first c valid rows are settled the remaining ones are the next in line, in order |
| `LeadProgress.Conservation` | apps/api/src/repository.ts:1625-1640 | total = valid + duplicate + erroneous rows, and the processed rows are those no longer valid |
| `LeadProgress.TallyKeeps` | apps/api/src/repository.ts:1705-1823 | counting one row's fate keeps every counter in step with the rows |
| `LeadProgress.CompletesExactly` | apps/api/src/repository.ts:1697-1838 | a job is complete after exactly max(1, ceil(v/50)) fresh commits, whatever else changes between them |
| `LeadForesight.PreviewPredictsCommit` | apps/api/src/repository.ts:1476-1846 | committing to completion imports every valid row, in order, as the lead of its cells with the owner that was proposed, if and only if each such owner is acceptable to lead creation and no lead of an earlier row lands in a later row's team with one of its phones |
| `LeadForesight.OwnersWithTeamsGoThrough` | apps/api/src/repository.ts:1206-1240 | it is enough that every valid row has a proposed owner with a team, who is the caller if the caller is limited to their own leads |
| `LeadForesight.TeamlessOwnerMisleads` | apps/api/src/repository.ts:1238-1242 | a file in which every valid row has a proposed owner and the commit still departs from the preview |
| `LeadForesight.FateForeseen` | apps/api/src/repository.ts:1699-1823 | with the earlier rows gone as proposed, commit reaches the lead of the row's cells with the proposed owner exactly if the row goes through |
| `LeadForesight.BatchesAddUp` | apps/api/src/repository.ts:1697-1838 | committing in batches of fifty comes to committing the valid rows one after the other |
| `LeadFairness.RoundRobinIsFair` | apps/api/src/repository.ts:1773-1832 | over any run that leaves a rule's owners unchanged the t-th lead goes to position (c + t) mod k, only leads given away move the cursor, and owners' totals differ by at most one |
| `LeadFairness.CommitServes` | apps/api/src/repository.ts:1773-1832 | within one commit: imported rows of the rule are served in turn; skipped, duplicate and invalid rows do not move the cursor |
| `LeadFairness.ApplyServes` | apps/api/src/repository.ts:1954-1991 | within one application: matched leads are served in turn |
| `LeadFairness.Balanced` | apps/api/src/repository.ts:1785-1787 | of two owners served in turn the one who waits longer is never ahead and at most one behind |
| `LeadRepository.LeadStore.DryRunLeadAssignmentRules` | apps/api/src/repository.ts:1915-1940 | the loop over all leads reports leads taken and left over and each employee's share, under a plan that gives each lead to an owner of the first rule that takes it |
| `LeadRepository.LeadStore.ApplyLeadAssignmentRules` | apps/api/src/repository.ts:1942-1994 | every lead is given rightly or left alone, applied equals matched, each advanced rule gets one new version, and a repeated request changes nothing |
| `LeadRepository.LeadStore.DecideRow` | apps/api/src/repository.ts:1510-1580 | the tests on fields, the look-ups in the given map of phones and the search through the leads decide a row as the quantified specification over that map says; `StageRows` ties the map to the earlier rows |
| `LeadRepository.LeadStore.StageRows` | apps/api/src/repository.ts:1510-1613 | a row with its cells in order is valid if and only if its phones differ from each other, from those of earlier valid rows of its team, and from those of active leads of the team; it goes to the owner it names or to an owner of the first rule that takes it |
| `LeadRepository.LeadStore.PreviewLeadImport` | apps/api/src/repository.ts:1476-1653 | a fresh request stores a job with rows decided and proposed rightly and counters that account for them; a repeated one is answered from the stored job, refused, or in conflict |
| `LeadRepository.LeadStore.SettleRow` | apps/api/src/repository.ts:1699-1808 | a row becomes a duplicate of the first active lead of its team with one of its phones, if there is one; an imported lead is that of the row, cell by cell, with an owner in order |
| `LeadRepository.LeadStore.CommitRows` | apps/api/src/repository.ts:1697-1823 | leads, rows and cursors after the batch are those of committing its rows in order, and each new lead is that of its row |
| `LeadRepository.LeadStore.CommitLeadImport` | apps/api/src/repository.ts:1675-1846 | a fresh commit does one batch, adds the leads of the rows it imports, and completes the job exactly when no row is left valid; every other call leaves leads, jobs and cursors alone |
| `DueTimes.CanonicalOrder` | apps/api/src/repository.ts:1008-1012 | on texts in the form of `toISOString` the order of the texts is the order of the instants |
| `DueTimes.OffsetsMislead` | apps/api/src/repository.ts:2132-2134 | on the texts that the device path accepts it is not: two due times whose text order is the reverse of their time order |
| `DueTimes.BeforeExactly` | apps/api/src/repository.ts:2132-2134 | the order of texts by code units: a proper beginning comes first, else the lesser character where they part decides |
| `DueTimes.ZoneShifts` | apps/api/src/repository.ts:2088-2089 | an offset of hours and minutes makes the instant of a text that much earlier, a negative one later |
| `DueTimes.FractionReads` | apps/api/src/repository.ts:2088-2089 | the digits of a fraction are tenths, hundredths and thousandths of a second, and further ones are dropped |
| `DueTimes.DaysClosed` | apps/api/src/repository.ts:2088-2089 | the days before a year, counted year by year, are those of the Gregorian calendar in closed form |
| `DueTimes.EpochInstant` | apps/api/src/repository.ts:2088-2089 | the epoch of the clock stands 719,528 days into that calendar |
| `FollowUps.NextDueUnique` | apps/api/src/repository.ts:1008-1012 | the instant of the earliest pending due time, and whether there is one, is unique |
| `FollowUps.PickedIsNext` | apps/api/src/repository.ts:1379-1381 | the textually first pending due time is the earliest if and only if no pending one is earlier; it is if text order and time order agree on the pending due times |
| `FollowUps.KeptIsNext` | apps/api/src/repository.ts:2132-2134 | what the comparison with the stored text keeps is the earliest pending due time if and only if a condition on the state before the update holds, whatever was stored |
| `FollowUps.CanonicalRepair` | apps/api/src/repository.ts:2132-2134 | on canonical texts that condition says: the stored time was right, or the new one is neither after it nor after the right one |
| `FollowUps.OffsetMisleadsUpdate` | apps/api/src/repository.ts:2132-2134 | a right stored time that an update from the device turns wrong; computing the time afresh picks the same wrong one |
| `FollowUps.SeededLeadExactly` | apps/api/src/repository.ts:695-732 | a lead seeded with a due time and no follow-up is wrong, and a follow-up from the device puts it right if and only if its due time is not textually after the seeded one |
| `FollowUps.FollowUpBook.NextDue` | apps/api/src/repository.ts:1008-1012 | the search finds the first pending follow-up by text and identifier; its due time is the earliest if and only if no pending one is earlier |
| `FollowUps.FollowUpBook.CreateLeadFollowUp` | apps/api/src/repository.ts:1356-1396 | whatever was stored before, the textually first pending due time is stored, told in the fields of the follow-ups; the lead is right afterwards if and only if no pending one is earlier; other leads are as right as before, and a book of canonical due times stays right |
| `FollowUps.FollowUpBook.CompleteLeadFollowUp` | apps/api/src/repository.ts:1398-1444 | the same for the follow-ups that remain pending, with no due time if none does |
| `FollowUps.FollowUpBook.ApplyMobileLeadUpdate` | apps/api/src/repository.ts:2058-2161 | exactly when an update is carried out, refused or answered again; the lead is right afterwards if and only if the condition of `KeptIsNext` held before; with canonical due times a right book stays right |
| `CallIngestion.RunReflected` | apps/api/src/repository.ts:2930-3025 | after any run of accepted batches from any devices, a device has a call for each local identifier it sent, holding the last item sent (employee, SIM card and creation time: those of the first) |
| `CallIngestion.ResultTells` | apps/api/src/repository.ts:2953-3008 | a result names the call that holds the item and says whether it is new, changed, or neither |
| `CallIngestion.OneCallEach` | apps/api/src/repository.ts:2998-3008 | every call added is known under exactly one new identifier |
| `CallIngestion.SplitBatch` | apps/api/src/repository.ts:2947-3008 | splitting a batch in two yields the same results item by item and the same calls up to the times written, and at one time the same store |
| `CallIngestion.ResendDuplicates` | apps/api/src/repository.ts:2953-2961 | a batch yields only duplicates if and only if all its items are current, and then changes nothing |
| `CallIngestion.LastIsCurrent` | apps/api/src/repository.ts:2953-2961 | an item is current if and only if it is the last one the device sent under its identifier |
| `CallIngestion.CallBook.IngestMobileCallBatch` | apps/api/src/repository.ts:2930-3025 | one batch identifier is accepted once: a repeat is answered from the receipt or is a conflict, and changes nothing |
| `CallPii.FrameInjective` | apps/api/src/call-pii-crypto.ts:268-276 | length-prefixed framing is injective on lists of any length |
| `CallPii.FramesReadBack` | apps/api/src/call-pii-crypto.ts:268-276 | framed parts read back, whatever their number, by a reader that goes by the lengths |
| `CallPii.AuthenticatedDataReadsBack` | apps/api/src/call-pii-crypto.ts:278-305 | the authenticated bytes read back: domain, versions, organization and row in lower case, field and blind index, in order |
| `CallPii.AuthenticatedDataInjective` | apps/api/src/call-pii-crypto.ts:278-305 | over all envelopes that decryption considers, in both formats, equal authenticated bytes mean equal organization, row, field, versions and blind index |
| `CallPii.MovedNeverDecrypts` | apps/api/src/call-pii-crypto.ts:278-305 | a ciphertext presented in another organization, row or field, or with another version or blind index, never decrypts, if the cipher binds it to its data |
| `CallPii.RowMessageInjective` | apps/api/src/call-pii-crypto.ts:337-362 | equal row-identity messages mean the same organization, source, device and external identifier |
| `CallPii.RowMessageReadsBack` | apps/api/src/call-pii-crypto.ts:347-353 | the row-identity message reads back: domain, organization, source, device or nothing, external identifier |
| `CallPii.RowIdShows` | apps/api/src/call-pii-crypto.ts:355-361 | a row identifier is a UUID of version 8 whose digits show the first half of the digest, but for the six bits so marked |
| `CallPii.RowIdExactly` | apps/api/src/call-pii-crypto.ts:337-362 | derived row identifiers are equal if and only if the identities are, unless the kept 122 bits of the digest collide |
| `CallPii.EncryptsExactly` | apps/api/src/call-pii-crypto.ts:364-395 | encryption fails only for a malformed address or an overlong plaintext |
| `CallPii.DecryptsEncrypted` | apps/api/src/call-pii-crypto.ts:364-448 | under every later keyring that keeps the keys used, decryption gives the plaintext back if and only if it has no lone surrogate and no leading byte order mark |
| `CallPii.DecryptedTells` | apps/api/src/call-pii-crypto.ts:397-448 | only well-formed envelopes under configured keys decrypt, at well-formed addresses, to a text whose blind index is the stored one |
| `CallPii.SurrogatesReplaced` | apps/api/src/call-pii-crypto.ts:364-448 | lone surrogates come back as U+FFFD, without an error |
| `CallPii.MarkNeverDecrypts` | apps/api/src/call-pii-crypto.ts:429-441 | a plaintext with a leading byte order mark is accepted and then never decrypted, short of a hash collision |
| `CallPii.FieldKeyTells` | apps/api/src/call-pii-crypto.ts:307-311 | the key of a field tells the master key, the field and the format, as far as the keyed hash does |
| `CallPii.IndexKeyTells` | apps/api/src/call-pii-crypto.ts:450-474 | so does the key of a blind index for master key, version and field |
| `CallPii.OtherKeyNeverDecrypts` | apps/api/src/call-pii-crypto.ts:364-448 | under another master key for its version an envelope never decrypts, if the hash tells the keys apart and the cipher needs the key |
| `CallPii.IndexMessageInjective` | apps/api/src/call-pii-crypto.ts:450-474 | a blind-index message determines organization, field and value |
| `CallPii.IndexMessageReadsBack` | apps/api/src/call-pii-crypto.ts:466-470 | the message reads back: organization and field behind their lengths, then the value |
| `CallPii.LookupAgrees` | apps/api/src/postgres/repository.ts:465-478 | whatever mix of configured versions a lead was indexed under, the candidates hit it exactly when one of its phones is searched for |
| `Utf8.RoundTrip` | apps/api/src/call-pii-crypto.ts:429-430 | strict decoding undoes encoding exactly on texts without lone surrogates and without a leading mark |
| `Utf8.Reencodes` | apps/api/src/call-pii-crypto.ts:429-430 | bytes that decode are the one encoding of what they decode to |
| `Utf8.KnownBytes` | apps/api/src/call-pii-crypto.ts:429-430 | examples of section 7 of RFC 3629 have the bytes given there |
| `Limiter.WindowBound` | apps/api/src/security.ts:276-292 | over every run any window holds at most the maximum of accepted attempts of a key since its last reset |
| `Limiter.TrackedKeysBounded` | apps/api/src/security.ts:286-288 | the number of tracked keys never exceeds the cap |
| `Limiter.StaysRejected` | apps/api/src/security.ts:280-284 | a key over its limit stays rejected until its oldest recent attempt leaves the window, whatever else happens, unless it is reset |
| `Limiter.AttemptExactly` | apps/api/src/security.ts:276-292 | the verdict on an attempt in any run, from the accepted attempts within the window and the keys that have any |
| `Limiter.KeptExactly` | apps/api/src/security.ts:258-265 | a key stays tracked exactly while it has an accepted attempt within the window since its last reset |
| `Limiter.RetryAfterExact` | apps/api/src/security.ts:282 | the returned seconds are the least that reach the end of the oldest attempt's window |
| `Limiter.WaitingSuffices` | apps/api/src/security.ts:276-292 | over every run: after a rejection for too many attempts, whatever other keys do and however often the key itself is rejected, an attempt after the returned seconds is accepted if and only if the key is still tracked or the table has room |
| `Limiter.PairingAttemptLimiter.ConsumeAttempt` | apps/api/src/security.ts:276-292 | table and verdict in place |
| `Limiter.PairingAttemptLimiter.PruneExpired` | apps/api/src/security.ts:258-265 | forgets exactly the attempts outside the window and the keys left without any |
| `Outbox.ClaimsApart` | apps/api/src/postgres/repository.ts:5822-5848 | two claims of one event are more than the lease time apart |
| `Outbox.OnlyLatestClaimerMarks` | apps/api/src/postgres/repository.ts:5866-5878 | only the worker of the latest claim can mark an event delivered |
| `Outbox.DeliveredOnce` | apps/api/src/postgres/repository.ts:5822-5878 | an event is marked delivered at most once and never claimed afterwards |
| `Outbox.LatestClaimerMayMark` | apps/api/src/postgres/repository.ts:5866-5878 | the latest claimer may mark the event however late, as long as nobody claimed it since |
| `Outbox.ClaimableExactly` | apps/api/src/postgres/repository.ts:5822-5835 | over every run an event can be claimed exactly from when it is due, while it is not marked, and when every lease on it has run out |
| `Outbox.RunTells` | apps/api/src/postgres/repository.ts:5837-5842 | a row tells who claimed it last, when, and how often |
| `Outbox.OutboxTable.ClaimOutboxEvents` | apps/api/src/postgres/repository.ts:5807-5854 | claims the first open rows by time and identifier, as many as the limit allows, skipping rows held by others |
| `Outbox.OutboxTable.MarkOutboxDelivered` | apps/api/src/postgres/repository.ts:5856-5880 | marks the event exactly if the worker holds it undelivered |
| `Csv.CsvRoundTrip` | apps/api/src/report-worker.ts:20-28 | reading printed lines back gives the table of header and cells, with their commas, quotes and line breaks, if and only if the report has a column |
| `CsvReports.ReportReadsBack` | apps/api/src/report-worker.ts:24-28 | the bytes begin with a byte order mark and read back as a header that names every column once in the order of first mention, and for each row the values under those names |
| `Csv.RenderedBytesReadBack` | apps/api/src/report-worker.ts:24-28 | the same for the rendered bytes, exactly for reports without lone surrogates |
| `Csv.ReadsCell` | apps/api/src/report-worker.ts:20-23 | a printed cell is read back as the cell, up to its comma or line break |
| `Zip.FilesReadBack` | apps/api/src/report-renderers.ts:18-29 | a reader that goes by end record, directory and local headers, and refuses what disagrees, recovers every name and compressed body in order, with checksum and length of the original body |
| `Zip.HeadersStand` | apps/api/src/report-renderers.ts:22-26 | each entry stands at its recorded offset and each directory record behind the one before |
| `Zip.LocalsTouch` | apps/api/src/report-renderers.ts:25 | every offset is the sum of the lengths before it |
| `Zip.DescriptorAnnouncedButAbsent` | apps/api/src/report-renderers.ts:22 | the flags announce a data descriptor that is never written |
| `Zip.WriteArchive` | apps/api/src/report-renderers.ts:18-29 | the loop writes the archive exactly when every number fits its field and the total is within the limit |
| `Zip.ColumnName` | apps/api/src/report-renderers.ts:30 | the one string of letters that stands for the index plus one |

## Left out

- HTTP routing, request parsing, headers, logging, the web and iOS clients: no state of the kind modelled here.
- The SQL text, row-level security, locks and stored functions; of the PostgreSQL repository only the outbox statements and the look-up predicate are modelled, and the assignment loop is modelled in its in-memory form.
- Cryptography itself (AES-GCM, HMAC, SHA-256), deflate and CRC-32: functions with stated laws.
- Parsing of key configuration, and wiping of key buffers after use.
- Device heartbeats and call synchronization stamps: they write device fields that no modelled check reads.
- Details of `createEmployee` beyond a new invited employee without devices.
- Activities, notes, audit events other than device recovery, and the linking of calls to leads.
- Conversion and loss time stamps of leads, and all lead fields that neither rules nor duplicate tests read.
- Issue texts of import rows: a row keeps its decision, duplicate, owner, team and rule.
- Creating and editing assignment rules: any change between steps that keeps a rule's owners is allowed in `RoundRobinIsFair`.
- The e-mail, phone, name and source format tests of import rows: their verdicts are inputs.
- `getRetryAfterSeconds` of the limiter, a read without pruning.
- Report e-mails, schedules, PDF and spreadsheet markup, listings, dashboards and lead reports.
