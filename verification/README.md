# Verified model of the InfraBox control plane

This project models the parts of the InfraBox repository that keep state under failure, concurrency or hostile input,
and proves what they promise over whole runs. `dafny verify dfyconfig.toml` checks all of it.

Each component has a specification (functions on values), the source's step-by-step form (classes and methods with
loops, proved equal to the specification), lemmas that say exactly when each operation succeeds and what it leaves
(`*Effects`, `*Exact`, `RegistrationAccess`, `AgentVerdicts`), and lemmas about runs.

**Registration and licensing** (`Registration*.dfy`, `Agent*.dfy`, `EndToEnd.dfy`). The server is a transition system
over its ten tables; each handler is one transaction, because all of them take the same advisory lock. A handler ends
in one of five ways: it commits, it commits and then raises (`reject`), it rolls back with an HTTP error, the database
refuses the transaction, or it meets an unhandled exception. Keys and random values are compared for equality only; a
signature verifies under the key and message it was made with and no other; a signed document is a member of the set of
documents the server has signed. The agent takes arbitrary answers from the network. `EndToEnd` joins server, agent
and clock; `HonestServer` shows that the agent accepts what the server answers.

**WireGuard peers** (`Config*.dfy`, `Peer*.dfy`, `Enrollment*.dfy`). The configuration is text, cut character by
character as the source's regular expression cuts it, and read field by field. The transaction over configuration,
registry and kernel table can fail at every write; a failing kernel command may have taken effect; each compensating
write may fail as well. The kernel takes a network away from whoever had it when it is given to a peer, and never
lets two peers have one. Leases bind a request before anything else is written; the file of authorized keys is text
(`AuthorizedKeys.dfy`), searched for a key and cut into lines as the source does.

**Staging pool** (`Staging*.dfy`, `Sums.dfy`). One step per stretch of `store_upload` between two awaits. The invariant
speaks about every subset of the running uploads.

**Streams** (`Utf8.dfy`, `Guacamole*.dfy`, `Jpeg*.dfy`). UTF-8 as the incremental decoder reads it; printer, parser,
chunked reader and forwarding loop of Guacamole instructions; the two JPEG splitters.

**Time-driven inputs** (`Debounce.dfy`, `Keypad.dfy`, `PowerButton.dfy`, `LoginLimiter.dfy`, `Session*.dfy`,
`AuthStore.dfy`). State machines whose specification is a property of the whole history of samples or attempts.
Times are integers in microseconds.

## Findings

- The quota of the staging pool does not hold when an upload brings the task id of an upload that is still active:
  the entry, and with it the reservation, of the first is overwritten (`StagingReuse.ReuseOverflows`). What is lost is
  the declared length of the active task under that id, so the reservation still covers all running uploads iff there
  is none or its length is 0 (`StagingQuota.AdmitReserves`; on the disk iff it has nothing left to write,
  `StagingQuota.AdmitSetsAside`). Even then the two uploads share an entry, and when the first ends the second has
  nothing reserved (`StagingQuota.SharedEntryEnds`); over runs the quota is therefore proved for ids not in use.
- The agent reads the clock when a sync starts and again when it checks the cached document, and stores the first
  reading. With a clock that jumps in between, a document can be accepted at an earlier time than before
  (`Agent.TwoReadingsGoBack`). It cannot, iff the start reading or the issue of the document less 30 seconds is not
  behind the clock that was checked (`Agent.NeverEarlier`), and under that condition the uses of a document are in order
  (`Agent.GraceWindow`). They lie within its window in any case (`Agent.GraceSpan`). `EndToEnd` does not need it,
  because there the clock does not run backwards.
- A failed change of a peer leaves the previous state whenever the compensating writes succeed
  (`PeerAgreement.AllOrNothing`); `PeerAgreement.UnchangedExactly` gives the exact faults. After the others each store
  holds either its old or its new content, they can be mixed (`PeerAgreement.Mixed`, `PeerAgreement.OrphanRecord`), and
  still no peer other than the selected one has changed (`PeerAgreement.Halfway`, `PeerRuns.UnmanagedStays`).
- How the bytes of a Guacamole stream are cut does not matter if they begin a UTF-8 text
  (`GuacamoleReader.ChunkingDoesNotMatter`). If they do not, the decoder raises an error in the chunk with the first byte
  that no text can go on with, and the reader drops all characters of that chunk. The cut then matters
  (`GuacamoleReader.BadStreamsDiffer`) iff different instructions are complete in the chunks in front of it
  (`GuacamoleReader.BadStreamsAlike`).

## Model

| member | source | states |
|---|---|---|
| `RegistrationInvariant.StepSound` | registration-server/app/main.py:117-142 | every request, from every state that satisfies the whole-machine invariant: the invariant holds afterwards, no handler meets an unhandled exception, and the database refuses a transaction only because a drawn identifier was taken |
| `RegistrationRuns.ReachableInv` | registration-server/app/main.py:117-128 | the invariant in every state of every run with a clock that does not run backwards |
| `RegistrationRuns.RunsNeverFail` | registration-server/app/models.py:63-90 | from the empty database no run crashes, and neither the partial unique indexes nor any other constraint ever fires except on a colliding random identifier |
| `RegistrationRuns.ReachableLicensing` | registration-server/app/main.py:392-418 | in every reachable state: bindings of a license number at most max_devices; a device is bound iff it has a current installation, and never two; a bound device belongs to its license's customer; ACTIVE implies bound; archived implies stored REVOKED; no license of an archived customer is ACTIVE and unexpired |
| `RegistrationInvariant.BindKeeps` | registration-server/app/main.py:412-417 | the writes of an activation keep the invariant exactly because of the checks made before them: capacity, same license, no other current installation |
| `RegistrationInvariant.ReleaseKeeps` | registration-server/app/main.py:838-857 | releasing identity, tokens and license together keeps the invariant |
| `RegistrationInvariant.ConsumeSound` | registration-server/app/main.py:205-222 | every way a proof can be wrong has an answer, and an accepted proof names a device, an installation of it and the key of that installation |
| `RegistrationRuns.Moves` | registration-server/app/main.py:364-421 | which requests can change a device's stored status, and only from which status; a device gets a spendable token only from an approval of its own |
| `RegistrationRuns.StaysDown` | registration-server/app/main.py:548-567 | a revoked or suspended device stays so up to the first reassignment, which leaves it no token to spend |
| `RegistrationRuns.StaysCleared` | registration-server/app/main.py:743-802 | after that it stays inactive up to the first approval |
| `RegistrationRuns.StaysInactive` | registration-server/app/main.py:364-421 | and after that up to an activation proved with a challenge of its own that spends an unused token |
| `RegistrationRuns.ReactivationNeedsAllThree` | registration-server/app/main.py:364-421 | a device that was revoked, suspended or archived and is effectively ACTIVE later was in between reassigned, then approved, then activated, in that order, although `activate` never looks at `archived_at` |
| `RegistrationProofs.OutcomeSpends` | registration-server/app/main.py:205-222 | a live challenge is spent by a request naming it iff the request succeeds or its rejection is committed; a rolled back request (as the 409 of `active_customer` inside `activate`) leaves it fresh |
| `RegistrationProofs.ChallengeAnsweredOnce` | registration-server/app/main.py:205-222 | once a proof for a challenge was answered, every later proof for it is refused as a replay and changes nothing |
| `RegistrationProofs.TokenBindsOnce` | registration-server/app/main.py:372-421 | an activation token changes devices, installations, keys, bindings or licenses at most once in a run |
| `RegistrationProofs.Retry` | registration-server/app/main.py:381-390 | a retry with a used token and a fresh proof succeeds iff the original binding still stands; it then answers what an authentication would, and never changes a row |
| `RegistrationProofs.SignedTruthful` | registration-server/app/main.py:241-279 | every document in a reply, also one equal to a document signed before, and every document that becomes a signed one is handed out, carries the signature and is true of the state the step leaves: device, installation and key held ACTIVE and current under a usable license of a customer that is not archived, with the truncated stamps |
| `RegistrationProofs.RepliesTruthful` | registration-server/app/main.py:241-279 | so in every run from the empty database: whatever document a reply carries, it is true of the state at that moment |
| `RegistrationFrames.AuthorizeFrame` | registration-server/app/main.py:241-279 | `authorize` changes nothing but sessions and issued documents |
| `RegistrationFrames.ActivateStep` | registration-server/app/main.py:364-421 | an activation changes rows only by spending an unused token of a device that is neither revoked nor suspended |
| `RegistrationFrames.ConsumeFrame` | registration-server/app/main.py:205-222 | a refused proof changes at most the challenge it names |
| `RegistrationSpec.Identify` | registration-server/app/main.py:186-203 | an identity is known only if serial, installation and public key belong together, and unknown only if both installation and key are new |
| `RegistrationServer.Server.ConsumeChallenge` | registration-server/app/main.py:205-222 | the method that spends a challenge and judges the proof, equal to the specification on every path |
| `RegistrationServer.Server.AuthorizeIdentity` | registration-server/app/main.py:241-279 | status, document and session, written in place, equal to the specification |
| `RegistrationServer.Server.EnrollDevice` | registration-server/app/main.py:302-322 | enrollment in place, equal to the specification |
| `RegistrationServer.Server.IssueChallenge` | registration-server/app/main.py:324-357 | issuing a challenge in place, equal to the specification |
| `RegistrationServer.Server.VerifyDevice` | registration-server/app/main.py:359-363 | authentication in place, equal to the specification |
| `RegistrationServer.Server.ActivateDevice` | registration-server/app/main.py:364-421 | activation in place, with its committed rejections and its rollbacks, equal to the specification |
| `RegistrationServer.Server.SpendToken` | registration-server/app/main.py:372-421 | the token half of an activation: retry, refusals in the source's order, binding writes |
| `RegistrationServer.Server.HeartbeatDevice` | registration-server/app/main.py:281-294 | the session check and a heartbeat, equal to the specification |
| `RegistrationServer.Server.ArchiveOneCustomer` | registration-server/app/main.py:500-517 | archival of a customer with its two guards, equal to the specification |
| `RegistrationServer.Server.AddLicense` | registration-server/app/main.py:450-469 | creation of a license, equal to the specification |
| `RegistrationServer.Server.ExtendLicense` | registration-server/app/main.py:860-880 | renewal, equal to the specification |
| `RegistrationServer.Server.SetLicense` | registration-server/app/main.py:883-902 | suspend, revoke and resume of a license, equal to the specification |
| `RegistrationServer.Server.AddDevice` | registration-server/app/main.py:519-532 | creation of a device by an administrator, equal to the specification |
| `RegistrationServer.Server.ChangeDevice` | registration-server/app/main.py:534-546 | change of ownership, refused for a licensed device, equal to the specification |
| `RegistrationServer.Server.ArchiveOneDevice` | registration-server/app/main.py:548-559 | archival of a device, equal to the specification |
| `RegistrationServer.Server.ApproveDevice` | registration-server/app/main.py:743-802 | approval, equal to the specification |
| `RegistrationServer.Server.VoidTokens` | registration-server/app/main.py:555-557 | the loop that expires every unused token of a device |
| `RegistrationServer.Server.RetireInstallations` | registration-server/app/main.py:838-846 | the nested loops that retire every installation of a device together with its keys |
| `RegistrationServer.Server.ReassignDevice` | registration-server/app/main.py:828-858 | reassignment, equal to the specification |
| `RegistrationServer.Server.Handle` | registration-server/app/main.py:302-902 | any request at a clock that has not gone back, handled in place: the tables make exactly the step of the specification, the invariant holds afterwards, nothing crashes, and the database refuses only a drawn identifier that was taken |
| `RegistrationPromises.OutOfService` | registration-server/app/main.py:804-826 | after a revocation, a suspension or an archival was answered with success, no reply carries a document of the device before it was reassigned, then approved, then activated |
| `RegistrationPromises.TakenDown` | registration-server/app/main.py:804-826 | such a request leaves the device stored REVOKED or SUSPENDED in every run |
| `RegistrationPromises.LicenseWithdrawn` | registration-server/app/main.py:883-902 | after a license was suspended no reply carries a document under it before it was resumed; after it was revoked, never again |
| `RegistrationAccess.StatusExactly` | registration-server/app/main.py:172-184 | the effective status case by case; ACTIVE iff not archived, stored ACTIVE and bound to a license that is ACTIVE and has not run out |
| `RegistrationAccess.IdentityStatusExactly` | registration-server/app/main.py:224-238 | an identity is ACTIVE iff it is the current one and its device is; one that is not current waits for an activation iff it has a token that can still be spent |
| `RegistrationAccess.IdentifiedExactly` | registration-server/app/main.py:186-203 | known iff serial, installation and key belong together, new iff installation and key both are |
| `RegistrationAccess.EnrollTakesEffect` | registration-server/app/main.py:302-322 | an enrollment succeeds iff the identity is known or new; it names the device of the serial, changes nothing the second time, and adds the identity, not current, the first time |
| `RegistrationAccess.ChallengeTakesEffect` | registration-server/app/main.py:324-357 | a challenge is given iff the identity is known; its message states identity, purpose, nonce and the configured expiry, and nothing else changes |
| `RegistrationAccess.AcceptedExactly` | registration-server/app/main.py:205-222 | a proof is accepted iff it names a fresh, live challenge of its purpose and carries the challenged key's signature of the challenged message, the serial being unchanged |
| `RegistrationAccess.AuthorizeExactly` | registration-server/app/main.py:240-279 | a proved identity is always answered; with a document and a session iff it is current and its device ACTIVE. The document ends with offline_grace_seconds or the license, whichever is first, the session after device_session_seconds |
| `RegistrationAccess.VerifyExactly` | registration-server/app/main.py:359-363 | an authentication succeeds iff the proof is good, with that answer and no change of a row |
| `RegistrationAccess.HeartbeatExactly` | registration-server/app/main.py:281-294 | a heartbeat succeeds iff its session has not run out and its identity is current, with that answer |
| `RegistrationAccess.ActivateExactly` | registration-server/app/main.py:364-421 | an activation with an unused token succeeds iff the proof is good and the token, live and of this identity, meets a device that is not down, a usable license with room and no rival installation; then exactly the rows of device, identity, binding and token change, and there is a document at once |
| `RegistrationEffects.MarkTakesEffect` | registration-server/app/main.py:804-826 | a revocation and a suspension succeed iff the device exists and is not archived, and change its status and nothing else |
| `RegistrationEffects.ArchiveTakesEffect` | registration-server/app/main.py:548-559 | archival succeeds iff the device is not effectively ACTIVE; the device is REVOKED, keeps an earlier mark, and its unused tokens end |
| `RegistrationEffects.RestoreTakesEffect` | registration-server/app/main.py:561-567 | a restored device can be edited and is still REVOKED if it was archived |
| `RegistrationEffects.DeviceCreated` | registration-server/app/main.py:519-532 | a device is created iff its serial is new and its customer, if any, not archived; it is PENDING |
| `RegistrationEffects.OwnerTakesEffect` | registration-server/app/main.py:534-546 | the owner of a device changes iff it is not archived, no license is bound to it, and the new owner is not archived |
| `RegistrationEffects.ApprovalTakesEffect` | registration-server/app/main.py:743-802 | an approval succeeds iff device, identity and license allow it; it adds exactly one token, for this identity and license and the time asked for |
| `RegistrationEffects.ReassignTakesEffect` | registration-server/app/main.py:828-858 | a reassignment leaves no binding, no owner, no current installation or key and no token to spend of this device, and everything of others |
| `RegistrationEffects.CustomerArchived` | registration-server/app/main.py:500-514 | a customer is archived iff no license of his can be used and no device of his is ACTIVE or SUSPENDED |
| `RegistrationEffects.CustomerCreated` | registration-server/app/main.py:438-448 | a new customer is not archived |
| `RegistrationEffects.CustomerRestored` | registration-server/app/main.py:515-517 | a restored customer is not archived |
| `RegistrationEffects.LicenseCreated` | registration-server/app/main.py:450-469 | a license is created iff its terms are valid and its customer not archived, and can be used exactly up to its expiry |
| `RegistrationEffects.RenewalTakesEffect` | registration-server/app/main.py:860-880 | a renewal succeeds iff the license is not revoked, the new expiry lies ahead and the customer is not archived; it moves the expiry and nothing else |
| `RegistrationEffects.ControlTakesEffect` | registration-server/app/main.py:883-902 | suspended and revoked licenses cannot be used at any time, resumed ones up to their expiry; a revoked one is never touched again |
| `HonestServer.StepParents` | registration-server/app/main.py:828-858 | no request moves an installation to another device or a key to another installation |
| `HonestServer.StepSerials` | registration-server/app/main.py:836-836 | no request changes the serial of a device |
| `EndToEnd.AuthorizedMeansRecentlyHeld` | device-registration/client.py:232-342 | with one clock that does not run backwards and any network: if the agent is authorized at time t, then at some earlier step at s, s <= t < s + offline_grace_seconds, the server held a device of the agent's serial ACTIVE with exactly the agent's installation and key current, and t is before the expiry its license had then, integer truncation included |
| `EndToEnd.SignedSomewhere` | registration-server/app/main.py:241-279 | every document in circulation was signed by one step and was true of the server right then |
| `HonestServer.HonestServerAuthorizes` | device-registration/client.py:203-301 | if the three answers a sync got are those the server gave to its enrollment, its challenge and its proof, the last with ACTIVE, and the sync is back before the document runs out, it is authorized online and holds that document |
| `Agent.RegistrationAgent.Synchronize` | device-registration/client.py:232-317 | one synchronisation rewriting the cache, equal to the specification on every answer of the network |
| `Agent.RegistrationAgent.FallBack` | device-registration/client.py:286-312 | the offline branch in place, equal to the specification |
| `AgentVerdicts.OnlineExactly` | device-registration/client.py:203-301 | a sync is authorized online iff the enrollment names its installation, the challenge is about it, for an activation iff it has a token, live and with a long enough nonce, and the proof is answered for the enrolled device with ACTIVE and a document that fits; every condition is spelled out |
| `AgentVerdicts.OfflineExactly` | device-registration/client.py:289-311 | if a post does not reach the server, the cached document decides, iff no token was given and it fits; the cache is kept, and only its clock moves |
| `AgentVerdicts.DeniedExactly` | device-registration/client.py:312-317 | every other answer erases the document and is reported with the reason of the first thing that was wrong |
| `AgentVerdicts.BreakingOff` | device-registration/client.py:232-317 | an exception that nothing handles leaves the cache alone |
| `Agent.DocumentKept` | device-registration/client.py:265-301 | only a sync that was granted online puts a document into the cache |
| `Agent.DenialHolds` | device-registration/client.py:299-317 | after the server was reached and did not say ACTIVE, no sync is authorized offline before one is authorized online again |
| `Agent.GraceSpan` | device-registration/client.py:185-199 | however the clock is set and however long a sync takes, one document authorizes only from 30 seconds before its issue to its expiry, and all its uses lie within less than 604830 seconds |
| `Agent.GraceWindow` | device-registration/client.py:185-199 | and it does so at clocks that never go back, as long as every authorized sync before is firm: its start reading, or the document's issue less 30 seconds, is not behind its check |
| `Agent.NeverEarlier` | device-registration/client.py:236-309 | after an authorized sync no offline check of its document is ever accepted at an earlier clock, iff the sync's start reading or the document's issue less 30 seconds is not behind the clock that was checked |
| `Agent.TwoReadingsGoBack` | device-registration/client.py:236-309 | a run in which two readings per sync let a document be authorized at an earlier clock than before |
| `ConfigText.BlocksConcat` | scripts/kdx-wg-server.py:62-63 | concatenating the blocks of any text gives the text |
| `ConfigSections.JoinSections` | scripts/kdx-wg-server.py:265-266 | joining any selection of blocks and cutting the result again gives the selected sections, up to white space at their ends |
| `ConfigSections.AppendSections` | scripts/kdx-wg-server.py:248-249 | a text that begins with a header, put where a line begins, adds its sections behind those that were there |
| `PeerEdits.AddedSections` | scripts/kdx-wg-server.py:248-249 | adding a peer keeps every section as it was and appends one |
| `PeerEdits.RemovedSections` | scripts/kdx-wg-server.py:265-266 | removing a key drops exactly the sections that name it and keeps every other as it was |
| `PeerEdits.EntryFields` | scripts/kdx-wg-server.py:248-249 | the appended block reads as one public key and one address |
| `PeerEdits.PeersAdded` | scripts/kdx-wg-server.py:76-92 | on a text that `peers` accepts, the peers after an addition are the peers before and the new key with its one address |
| `PeerEdits.PeersRemoved` | scripts/kdx-wg-server.py:76-92 | the peers after a removal are the peers before without that key |
| `PeerEdits.RemoveUndoesAdd` | scripts/kdx-wg-server.py:248-266 | removing what was just added gives the original peers, and the original sections if none mentioned the key |
| `PeerServer.ReadFields` | scripts/kdx-wg-server.py:66-73 | the dictionary built by the loop holds, for every key, the values of the block in order |
| `PeerServer.ReadPeers` | scripts/kdx-wg-server.py:76-92 | the loop over the blocks finds exactly the specified peers or its error |
| `PeerExact.AllocateExactly` | scripts/kdx-wg-server.py:165-180 | without a request the lowest address of the whole pool that is not taken, and none iff all are; with a request exactly that address, iff it lies in the pool and is not taken |
| `PeerExact.TakenExactly` | scripts/kdx-wg-server.py:165-172 | taken is what a peer of the file, a peer of the kernel, a registered peer or an interface address covers |
| `PeerExact.NotTheInterface` | scripts/kdx-wg-server.py:169-172 | an address that was given out is none of the interface's, of which one setting may list several |
| `PeerExact.RegisteredExactly` | scripts/kdx-wg-server.py:236-252 | a peer is registered iff the request is valid, name, key, device and request are new everywhere, configuration and endpoint are in order, there is an address for it, and no write fails; it gets the address that is due |
| `PeerExact.DeletedExactly` | scripts/kdx-wg-server.py:254-269 | a peer is removed iff it is registered, file and kernel agree on its address, and no write fails |
| `PeerAgreement.LeastFree` | scripts/kdx-wg-server.py:165-180 | the search for the lowest address, between any two bounds, finds it, and fails only if every address is covered |
| `PeerAgreement.AllocatedFree` | scripts/kdx-wg-server.py:165-180 | an allocated address, requested or not, lies in the pool and nobody has it |
| `PeerServer.PeerRegistry.FindAddress` | scripts/kdx-wg-server.py:165-180 | the method with its list of used networks and its loop, equal to the specified allocation |
| `PeerAgreement.AllOrNothing` | scripts/kdx-wg-server.py:192-234 | a failure at any step, a kernel command that fails after taking effect included: the transaction changes all three stores, or none of them, unless its compensation fails; and it succeeds iff no step fails |
| `PeerAgreement.Halfway` | scripts/kdx-wg-server.py:211-233 | even when compensation fails each store holds its old or its new content |
| `PeerAgreement.UnchangedExactly` | scripts/kdx-wg-server.py:211-233 | the exact set of faults after which a transaction that changes configuration and registry leaves everything as it was |
| `PeerAgreement.Mixed` | scripts/kdx-wg-server.py:211-233 | a fault after which the stores are mixed: new configuration, old registry and kernel table |
| `PeerAgreement.OrphanRecord` | scripts/kdx-wg-server.py:211-233 | a fault of an addition after which the registry names a peer that neither configuration nor kernel has |
| `PeerAgreement.RestoreLive` | scripts/kdx-wg-server.py:223-229 | the compensation restores the kernel table whether the failed command had taken effect or not |
| `PeerAgreement.AddKeeps` | scripts/kdx-wg-server.py:236-252 | an addition keeps the agreement: every record's key has exactly its address in file and kernel, nobody else's network covers it, and no two records share key, device or request |
| `PeerAgreement.RemoveKeeps` | scripts/kdx-wg-server.py:254-269 | so does a removal |
| `PeerRuns.ReachableAgreed` | scripts/kdx-wg-server.py:192-269 | agreement after every sequence of additions, removals and failures in which no compensation fails |
| `PeerRuns.UnmanagedStays` | scripts/kdx-wg-server.py:192-269 | a peer this tool did not register never changes in file or kernel, whatever is added or removed and whatever fails, compensation included |
| `PeerRuns.AddRoutes` | scripts/kdx-wg-server.py:236-252 | an addition gives the new peer one address that no network carried and changes for no other address which peer and network carry it |
| `PeerRuns.AddThenRemove` | scripts/kdx-wg-server.py:236-269 | a registered peer can be removed, and then the peers of file and kernel and the registry are what they were before it was added |
| `PeerServer.PeerRegistry.Transaction` | scripts/kdx-wg-server.py:192-234 | the writes one after the other, with the place where each may fail, equal to the specification |
| `PeerServer.PeerRegistry.Compensate` | scripts/kdx-wg-server.py:218-233 | the compensating writes in their order, each of which may fail, equal to the specification |
| `PeerServer.PeerRegistry.Add` | scripts/kdx-wg-server.py:236-252 | addition in place, equal to the specification |
| `PeerServer.PeerRegistry.Remove` | scripts/kdx-wg-server.py:254-269 | removal in place, equal to the specification |
| `EnrollmentRuns.LeaseAdvances` | scripts/kdx-wg-enroll.py:88-136 | over any run a lease keeps its first request and its registration, and once revoked never changes again |
| `EnrollmentRuns.OneAnswer` | scripts/kdx-wg-enroll.py:96-118 | all successful answers for one lease are the same registration, for the same request |
| `EnrollmentExact.GrantedExactly` | scripts/kdx-wg-enroll.py:88-118 | a request is granted iff the lease is its device's, neither revoked nor over, and either was completed with it, or is bound to no other, can be written, and the peer is registered or can be |
| `EnrollmentExact.BoundForGood` | scripts/kdx-wg-enroll.py:105-109 | once a lease let a request through, even if adding the peer failed, every other request for it is denied and changes nothing, in every run |
| `EnrollmentExact.ReceiveLeaves` | scripts/kdx-wg-enroll.py:105-118 | a request touches its own lease only, and binds it before anything else |
| `EnrollmentExact.LeaseGrantedExactly` | scripts/kdx-wg-enroll.py:49-85 | a lease is granted iff device, name, lifetime, endpoint and key are valid and the key is new; it ends after the lifetime asked for and is bound to nothing |
| `EnrollmentExact.KeyOnce` | scripts/kdx-wg-enroll.py:78-80 | the key of a lease is refused for another one while its line is there |
| `EnrollmentExact.RevokedExactly` | scripts/kdx-wg-enroll.py:121-136 | a revocation marks its own lease only and takes its key out; if the key file cannot be written the lease is revoked all the same |
| `AuthorizedKeys.LeaseLineRestricts` | scripts/kdx-wg-enroll.py:70-72 | an installed key is restricted to the command of its lease, up to its expiry |
| `EnrollmentRuns.RevokedForGood` | scripts/kdx-wg-enroll.py:121-136 | after a revocation every request for the lease is denied and changes nothing |
| `EnrollmentRuns.RetryAddsNothing` | scripts/kdx-wg-enroll.py:110-115 | a request that is in the registry already adds no peer and gets the record that is there |
| `EnrollmentRuns.LostCompletion` | scripts/kdx-wg-enroll.py:99-118 | over any run: once a request has obtained a registration, whether or not its completion was saved, every later request for the lease leaves the stores alone; the same request is answered with that registration and any other is denied, unless the lease is revoked or expired or its file cannot be written, and provided nobody removed the record in between |
| `PeerRuns.RecordStays` | scripts/kdx-wg-server.py:192-269 | no operation but the removal of its name changes a record of the registry, whatever fails, broken compensation included |
| `EnrollmentRuns.OwnRecordOnly` | scripts/kdx-wg-enroll.py:107-115 | a request changes the registry by at most its own record, which was not there before under any name, device, key or request |
| `EnrollmentRuns.EnrollmentAgreed` | scripts/kdx-wg-enroll.py:49-136 | leases and local administration together keep configuration, registry and kernel in agreement |
| `EnrollmentRuns.OthersStay` | scripts/kdx-wg-enroll.py:49-136 | a peer that was not registered never changes in file or kernel, whatever leases and administrators do and whatever fails, compensation included |
| `EnrollmentRuns.Undivided` | scripts/kdx-wg-enroll.py:107-115 | a request between whose reading of the registry and addition anything else may happen ends as an undivided request: one before the others if the registry knew it, else one after them, perhaps with its completion lost |
| `EnrollmentRuns.KeyInstalledExactly` | scripts/kdx-wg-enroll.py:49-136 | over any run the authorized keys hold a line of a lease iff some step installed it and no later step took it out |
| `EnrollmentRuns.RevokeUndoesAuthorize` | scripts/kdx-wg-enroll.py:71-135 | a revocation gives back the text of the keys as it was before the authorization, line feeds at its end aside |
| `AuthorizedKeys.HasLineWithout` | scripts/kdx-wg-enroll.py:131-135 | a revocation takes out every line of the lease and no line of another, also where lines join because one between them is gone |
| `AuthorizedKeys.LeaseLineMark` | scripts/kdx-wg-enroll.py:71-72 | what is installed is one line, and it carries the mark of this lease and of no other |
| `AuthorizedKeys.UnmarkedExact` | scripts/kdx-wg-enroll.py:131-135 | the lines kept are exactly those without the mark, each as often as it was there |
| `Enrollments.EnrollmentServer.Receive` | scripts/kdx-wg-enroll.py:88-118 | the request handler with its two lease writes and the addition between them, equal to the specification |
| `Enrollments.EnrollmentServer.Revoke` | scripts/kdx-wg-enroll.py:121-136 | revocation in place, with its loop over the lines of the key file, equal to the specification |
| `Enrollments.EnrollmentServer.Authorize` | scripts/kdx-wg-enroll.py:49-85 | a new lease and its key line, with the checks of identity, name, lifetime, endpoint and key, refused if the key occurs anywhere in the text, taken back when the key cannot be installed, equal to the specification |
| `StagingQuota.QuotaHolds` | backend/app/services/storage.py:232-324 | for every interleaving of uploads that declare their length and keep it: the files stay within the capacity and the disk keeps its reserve, and for every subset of the running uploads that would stay so if exactly those completed now |
| `StagingQuota.StepKeeps` | backend/app/services/storage.py:220-371 | every step keeps the reservation invariant over all subsets of running uploads |
| `StagingQuota.AdmitKeepsBooks` | backend/app/services/storage.py:262-284 | an admitted upload keeps every running upload an entry of its own iff it does not reuse the id of an active task |
| `StagingQuota.AdmitReserves` | backend/app/services/storage.py:70-80 | after an admission the table reserves what the running uploads may turn into files, less the declared length of an active task under the same id; so it covers them iff there is none or its length is 0 |
| `StagingQuota.AdmitSetsAside` | backend/app/services/storage.py:70-80 | on the disk likewise: the reservation covers what is still to be written iff an active task under the same id has nothing left to write |
| `StagingQuota.SharedEntryEnds` | backend/app/services/storage.py:70-80 | when the first of two uploads that share an entry ends without a file, nothing is reserved for the second |
| `StagingQuota.QuotaReservation` | backend/app/services/storage.py:70-80 | the task table reserves exactly what the running uploads may still turn into files |
| `StagingQuota.DiskReservation` | backend/app/services/storage.py:70-80 | and on the disk exactly what they still have to write |
| `StagingQuota.ReportedSpaceIsAdmitted` | backend/app/services/storage.py:186-199 | an upload as large as the reported free space is admitted |
| `StagingEffects.DiskConserved` | backend/app/services/storage.py:285-371 | over every run free bytes, files and fragments add up to the same: what an aborted, replaced or deleted file occupied becomes free, and nothing else |
| `StagingEffects.FileIsWhatArrived` | backend/app/services/storage.py:287-330 | a finished upload leaves a file of exactly the bytes that arrived for it |
| `StagingEffects.CancelTakesEffect` | backend/app/services/storage.py:40-48 | once the end of a running task was asked for, its next chunk ends the upload as cancelled, without a file, in every run |
| `StagingEffects.AdmittedExactly` | backend/app/services/storage.py:232-284 | an upload is admitted iff nobody uploads the name, its target may be written, and a declared length is within the limit and fits beside files and promises; it adds exactly its entry |
| `StagingEffects.AllowanceExactly` | backend/app/services/storage.py:248-262 | what an upload may deliver at most is what fits at its admission |
| `StagingEffects.ReportedExactly` | backend/app/services/storage.py:186-199 | the reported free space is the most that fits |
| `StagingEffects.ReceivedExactly` | backend/app/services/storage.py:287-306 | a chunk is taken iff nobody asked for the end and it keeps both limits; otherwise the upload ends without a file and its space is free again |
| `StagingEffects.FinishedExactly` | backend/app/services/storage.py:307-330 | an upload becomes a file iff something arrived and the target may still be written; a replaced file is gone |
| `StagingEffects.InterruptedExactly` | backend/app/services/storage.py:344-357 | a broken connection ends the upload without a file |
| `StagingEffects.DeletedExactly` | backend/app/services/storage.py:363-371 | a file is deleted iff it is there and not in use, and only that file |
| `StagingReuse.ReuseOverflows` | backend/app/services/storage.py:228-284 | three uploads, the second with the task id of the first, put 18 bytes into a pool of 10 although each was admitted and kept its declared length, whatever the two task ids are |
| `Staging.StagingStore.ActiveUploadReservations` | backend/app/services/storage.py:70-80 | one pass over the table computes both sums of the specification |
| `Staging.StagingStore.ManagedBytes` | backend/app/services/storage.py:144-154 | the sum over the managed files without one of them |
| `Staging.StagingStore.Admit` | backend/app/services/storage.py:232-284 | admission in place, equal to the specification |
| `Staging.StagingStore.Receive` | backend/app/services/storage.py:287-306 | one chunk, equal to the specification |
| `Staging.StagingStore.Finish` | backend/app/services/storage.py:307-330 | the end of an upload, equal to the specification |
| `Staging.StagingStore.DeleteStagedFile` | backend/app/services/storage.py:363-371 | deletion, equal to the specification |
| `GuacamoleSpec.RoundTrip` | backend/app/services/guacamole.py:9-39 | what was printed is read back in front of any text iff it has 1 to 256 elements and keeps the length limit |
| `GuacamoleSpec.PrefixIncomplete` | backend/app/services/guacamole.py:13-39 | every strict prefix of a printed instruction is incomplete |
| `GuacamoleSpec.ParseMore` | backend/app/services/guacamole.py:13-39 | more text never changes a verdict: an instruction stays that instruction, an error an error |
| `GuacamoleSpec.Recognised` | backend/app/services/guacamole.py:13-39 | an instruction is recognised at its last character, not before, and independently of what follows |
| `Utf8.DecodesExactly` | backend/app/services/guacamole.py:45-60 | the incremental decoder yields a text and holds bytes back iff it was given the UTF-8 encoding of the text and then bytes that begin one more character |
| `Utf8.DecodesPrefix` | backend/app/services/guacamole.py:45-60 | it raises an error as soon as, and only if, no text begins with the bytes |
| `Utf8.BeginsExactly` | backend/app/services/guacamole.py:45-60 | bytes are held back iff some character's encoding begins with them; overlong forms, surrogates and values above U+10FFFF begin none |
| `Utf8.DecodeCat` | backend/app/services/guacamole.py:43-62 | decoding bytes piece by piece gives the text of all of them |
| `GuacamoleReader.Independent` | backend/app/services/guacamole.py:42-62 | if each instruction leaves room for one chunk more, the reader yields the instructions of the whole text and ends alike however the bytes are cut, whether the stream ends cleanly, in an instruction, in a character or in an error |
| `GuacamoleReader.ChunkingDoesNotMatter` | backend/app/services/guacamole.py:42-62 | two chunkings of one stream that decodes are read alike |
| `GuacamoleReader.BadStream` | backend/app/services/guacamole.py:42-62 | a stream that does not decode is read to an error in every chunking, after a beginning of the instructions in front of the bad bytes, whatever the lengths |
| `GuacamoleReader.BadChunk` | backend/app/services/guacamole.py:42-62 | for each chunking of such a stream, exactly the instructions complete in the chunks in front of the one with the first bad byte are read |
| `GuacamoleReader.SomeChunkFails` | backend/app/services/guacamole.py:42-62 | in each chunking of such a stream there is a chunk with the first bad byte |
| `GuacamoleReader.BadStreamsAlike` | backend/app/services/guacamole.py:42-62 | two chunkings of such a stream are read alike iff the same instructions are complete in the chunks in front of the ones with the first bad byte |
| `GuacamoleReader.BadStreamsDiffer` | backend/app/services/guacamole.py:42-62 | for every instruction and all bytes that do not decode: behind it in one chunk they make it disappear, in a chunk of their own they do not |
| `GuacamoleReader.BadBytes` | backend/app/services/guacamole.py:42-62 | such bytes: FF, and E2 28, of which the second is refused although a third could still come |
| `GuacamoleReader.PrintedRead` | backend/app/services/guacamole.py:9-62 | printed, encoded, cut into any chunks and read: the instructions that went in come out, and then the stream is closed |
| `Guacamole.ParseText` | backend/app/services/guacamole.py:13-39 | the parser's loop, equal to the specification |
| `Guacamole.InstructionReader.Read` | backend/app/services/guacamole.py:48-62 | the reader's loop over its buffer, equal to the specification |
| `GuacamoleReader.ReadAllReads` | backend/app/services/guacamole.py:48-62 | reading to the end is calling `read` again and again |
| `Guacamole.Forward` | backend/app/api/remote.py:121-149 | the forwarding loop ends, writes a prefix of the message made of whole allowed instructions up to the first that is not, and the whole message iff it raises no error |
| `Guacamole.AllowedExactly` | backend/app/api/remote.py:130-146 | six instructions pass with any elements, a display size with exactly two numbers within their bounds, and no other |
| `JpegSpec.FramesAreImages` | frontend/src/kvm-video.js:13-33 | every piece that is cut out runs from FF D8 to the first FF D9 at or after its third byte |
| `JpegSpec.NothingMissed` | frontend/src/kvm-video.js:13-33 | the data is its images, gaps in which no image begins, and a tail without a complete image whose end is kept |
| `JpegSpec.SplitMore` | frontend/src/kvm-video.js:7-35 | cutting a part first and going on with what was kept gives the images of the whole |
| `JpegSpec.ChunksDoNotMatter` | frontend/src/kvm-video.js:7-35 | the images of any chunking are those of the whole stream |
| `JpegStreams.BrowserImages` | frontend/src/kvm-video.js:7-35 | a stream whose images leave room for one chunk under 8 MiB is never refused, and every chunking gives its images |
| `JpegStreams.ServerLatest` | backend/app/api/video.py:256-273 | below 16 MiB the server's latest image is the last one of the stream, for every chunking |
| `JpegStreams.SameImage` | backend/app/api/video.py:256-273 | the server's latest image is the last one the browser got, for any two chunkings of the same bytes |
| `JpegStreams.CutImages` | frontend/src/kvm-video.js:13-35 | the nested scans over the byte array, equal to the specification |
| `JpegStreams.JPEGFrames.Push` | frontend/src/kvm-video.js:7-35 | one push: refused iff over the limit and then without effect, otherwise the images and the bytes kept |
| `JpegStreams.FrameReader.Read` | backend/app/api/video.py:256-273 | the server's loop over its buffer, equal to the specification |
| `Keypad.ReportsExactly` | backend/app/hardware/keypad.py:28-43 | a key is reported iff this sample is a steady release, there was one before, and since then there were steady samples and each was exactly that key |
| `Keypad.StateMeans` | backend/app/hardware/keypad.py:28-43 | what the scanner's flags mean after every history of samples |
| `Keypad.KeyScanner.Update` | backend/app/hardware/keypad.py:28-43 | the update in place, equal to the specification |
| `PowerGestures.TriggersExactly` | backend/app/hardware/power_button.py:21-36 | an action is triggered iff this sample is a debounced release that follows a debounced press, itself after an earlier debounced release, held between the two raw edges for as long as the action demands |
| `PowerGestures.OncePerPress` | backend/app/hardware/power_button.py:21-36 | between two triggered actions the button was pressed anew |
| `PowerGestures.ActionExactly` | backend/app/hardware/power_button.py:13-19 | five seconds switch the power off, two but less than five restart |
| `PowerGestures.PowerButton.Update` | backend/app/hardware/power_button.py:21-36 | the update in place, equal to the specification |
| `LoginLimiter.PruningNeverMatters` | backend/app/security/auth.py:107-120 | in every run the limiter decides by the full log of admitted attempts, although it has thrown old ones away |
| `LoginLimiter.AdmittedByRule` | backend/app/security/auth.py:107-120 | the attempts the limiter lets through are exactly those the rule admits by the full log |
| `LoginLimiter.WindowBounds` | backend/app/security/auth.py:107-120 | in any 60 seconds the limiter lets at most 5 attempts of one client and 30 in all through to the password check |
| `LoginLimiter.AdmittedExactly` | backend/app/security/auth.py:107-120 | in every run an attempt is let through iff fewer than 5 of its client and fewer than 30 in all were in the last 60 seconds |
| `AuthStores.AuthStore.Admit` | backend/app/security/auth.py:107-120 | the pruning and counting of queues in place, equal to the specification |
| `SessionEffects.TokenNeedsPassword` | backend/app/security/auth.py:107-168 | in every run a session comes into being only by a login as admin with the password then in force, or by a change of the password with it |
| `SessionEffects.PasswordInForce` | backend/app/security/auth.py:149-168 | the password in force is that of the last successful change, or the first one |
| `SessionEffects.LogInExactly` | backend/app/security/auth.py:107-129 | a login succeeds iff the limit lets it through, the credentials can be read (and written where there are none yet), the name is admin and the password is right; it adds one session for eight hours, and a login that fails changes no session |
| `SessionEffects.ChangeExactly` | backend/app/security/auth.py:149-168 | the password changes iff the session is in time, the current password right, the new one long enough and different, and the file can be read and written |
| `SessionEffects.CheckExactly` | backend/app/security/auth.py:131-143 | a session is accepted iff it is in the table, not over and used within thirty minutes |
| `SessionEffects.StillAccepted` | backend/app/security/auth.py:131-147 | over every run a session in time is accepted as long as it was not logged out, superseded or displaced |
| `SessionEffects.LogOutExactly` | backend/app/security/auth.py:145-147 | signing out ends this session and no other |
| `SessionRuns.AtMost32` | backend/app/security/auth.py:94-105 | in every run there are at most 32 sessions |
| `SessionRuns.NewSessionSpares` | backend/app/security/auth.py:94-105 | a new session displaces at most one living session, only when there are 32, and then one seen least recently |
| `SessionRuns.AcceptedIsRecent` | backend/app/security/auth.py:131-143 | a session is accepted only within eight hours of its issue and thirty minutes of its issue or of an earlier accepted use |
| `SessionRuns.DeadStaysDead` | backend/app/security/auth.py:131-147 | a token that has left the table, for whatever reason, never comes back |
| `SessionRuns.RefusedForGood` | backend/app/security/auth.py:131-143 | once a check has refused a token, every later check refuses it |
| `SessionRuns.ChangeEndsOthers` | backend/app/security/auth.py:149-168 | a change of the password needs a living session and the current password, and leaves exactly one session |
| `AuthStores.AuthStore.LogIn` | backend/app/security/auth.py:107-129 | login in place, equal to the specification |
| `AuthStores.AuthStore.CheckSession` | backend/app/security/auth.py:131-143 | the session lookup in place, equal to the specification |
| `AuthStores.AuthStore.ChangePassword` | backend/app/security/auth.py:149-168 | the change of the password in place, equal to the specification |
| `AuthStores.AuthStore.LeastRecent` | backend/app/security/auth.py:101-102 | the search for a session seen least recently |
| `RegistrationServer.Server.BindIdentity` | registration-server/app/main.py:412-417 | the writes of an activation, equal to the specification |
| `RegistrationServer.Server.RetireKeys` | registration-server/app/main.py:842-846 | the inner loop of a reassignment: the keys of one installation |
| `RegistrationServer.Server.End` | registration-server/app/main.py:117-128 | the end of a transaction: commit, or rollback when the database refuses it |
| `RegistrationProofs.StaysSpent` | registration-server/app/main.py:205-222 | a spent challenge stays spent over every run |
| `RegistrationProofs.StaysUsed` | registration-server/app/main.py:415-417 | a used token stays used over every run |
| `Agent.FloorKept` | device-registration/client.py:286-309 | between online grants, as long as authorized syncs are firm, the earliest clock at which the cached document can be accepted never goes back |
| `EndToEnd.ServerInv` | registration-server/app/main.py:117-128 | the server's invariant in every state of the joint system |
| `PeerAgreement.AddIsTransaction` | scripts/kdx-wg-server.py:236-252 | an addition is refused without effect, or is the transaction for a cleared address |
| `PeerRuns.AddDone` | scripts/kdx-wg-server.py:236-252 | what a registered addition leaves in all three stores |
| `PeerRuns.RemoveWorks` | scripts/kdx-wg-server.py:254-269 | without a failure a registered peer disappears from all three stores, and nothing else does |
| `PeerRuns.AddedSettings` | scripts/kdx-wg-server.py:248-249 | an addition brings no setting of the interface: every field other than the two of a peer keeps its values |
| `PeerServer.NetworksOf` | scripts/kdx-wg-server.py:166-166 | the list of all networks of a table of peers |
| `EnrollmentRuns.GrantedIsHeld` | scripts/kdx-wg-enroll.py:91-118 | an answer is given only for the lease's own device and host before its expiry, and is what the completed lease then holds |
| `EnrollmentRuns.ReachableSensible` | scripts/kdx-wg-enroll.py:88-136 | a lease holds a registration exactly from its completion on, and it is the one for its request |
| `StagingQuota.ReachableInv` | backend/app/services/storage.py:220-371 | the reservation invariant in every reachable state |
| `Staging.StagingStore.StagingInfo` | backend/app/services/storage.py:186-199 | the reported used and free space, equal to the specification |
| `Staging.StagingStore.DuplicateName` | backend/app/services/storage.py:232-238 | the search for an active task of the same name |
| `Staging.StagingStore.Interrupt` | backend/app/services/storage.py:344-352 | a broken connection, equal to the specification |
| `Staging.StagingStore.CancelUploadTask` | backend/app/services/storage.py:40-48 | the request to cancel, equal to the specification |
| `GuacamoleReader.PrintedFrames` | backend/app/services/guacamole.py:9-39 | instructions printed one after the other are read as exactly those |
| `GuacamoleReader.BufferBound` | backend/app/services/guacamole.py:48-62 | a buffer without a complete instruction is shorter than the instruction it begins |
| `JpegStreams.KeptBound` | frontend/src/kvm-video.js:17-29 | what is kept between chunks is one byte at most or the beginning of an image at least as long |
| `PowerGestures.StateMeans` | backend/app/hardware/power_button.py:21-36 | what the button's fields mean after every history of samples |
| `LoginLimiter.AttemptKnows` | backend/app/security/auth.py:107-120 | after every attempt the limiter still knows all admitted attempts that can matter |
| `SessionRuns.SessionHistory` | backend/app/security/auth.py:94-143 | over any run a session keeps the end set at its issue, and its last use is its issue or an accepted use of it |
| `AuthStores.AuthStore.AddSession` | backend/app/security/auth.py:94-105 | a new session in place, with the one it displaces, equal to the specification |
| `AuthStores.AuthStore.PopOld` | backend/app/security/auth.py:112-114 | the loop that drops old attempts from the front of a queue |

## Left out

- Registration: administrator authentication, audit and event rows, list and summary endpoints, display names, notes,
  contact data and `last_seen`/`last_validated_at`; they do not affect the modelled state. Each handler reads the clock
  once. Key rows are identified by their unique public key, tokens and sessions by their secret, customers carry only
  their archival mark. Field formats are checked where they decide an outcome (capacity, token lifetime).
- Registration: real cryptography, hashing and JSON; canonical text and digests are taken to be injective, and the
  server's key signs nothing but authorization documents.
- Agent: file permissions, TLS, the status file apart from whether and why the device is authorized, identity creation.
- WireGuard: the parsing and printing of IP addresses belongs to Python's `ipaddress` and is a parameter of which only
  that a printed address reads back as itself is used; keys are recognised by their canonical base64 form. File locks
  appear as the atomicity of each operation, a refused lock and failing backups as a failure before the first write.
  A process killed inside a transaction is not covered, since the source compensates for exceptions only. The server's
  public key comes as a parameter.
- WireGuard leases: a request is one step of a run; what may come between its reading of the registry and its addition
  is the subject of `EnrollmentRuns.Undivided`. The SSH transport and the limit on a request's size are not modelled. The
  expiry in a key line is a parameter of digits and a letter, and an SSH key is recognised by its canonical base64 form.
- `StagingQuota.QuotaHolds`: covers uploads with a Content-Length that deliver at most that many bytes, since others
  reserve nothing; it does not cover the reuse of an active task id, for which it is false.
- Staging: file names' validity, progress figures, the storage mount and its errors, negative lengths, a task cancelled
  in a way that skips the handlers, the cleanup of fragments after a crash. The file system's free space changes only by
  what uploads write and what is deleted or replaced.
- `GuacamoleReader.Independent`: is about byte streams that decode; those that do not are the subject of
  `GuacamoleReader.BadStream` and the lemmas after it.
- Guacamole: the handshake is not modelled.
- Guacamole forwarding: Python's `int` is a parameter; the session registry and the websocket are not modelled.
- JPEG: time-outs, the encoder process and the display of images.
- Keypad and power button: the menus, the feedback text and the GPIO lines; time is in microseconds instead of floating
  point seconds.
- Authentication: the middleware, password hashing (a hash matches its own password only) and the credential file apart
  from whether it exists and can be read and written.
- The dashboard, LCD rendering, network and Wi-Fi scripts, telemetry and the generic task list.
