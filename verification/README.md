# Verified models of the connected-device platform

Dafny models of the parts of the platform that hold state machines or algorithms, with proofs of
what they promise. `dafny verify dfyconfig.toml` checks everything.

* **JOIN workflow** (`JoinModel`, `JoinHistory`, `JoinLoop`, `JoinLoopProof`, `JoinTheorems`, `JoinAnswers`,
  `JoinWitness`, `JoinService`, `JoinAgreement`). Single-use keys and tenant requests live in two JSON files,
  each behind an `asyncio.Lock`; handlers are coroutines of one event loop. `JoinLoop` is that loop: every
  lock operation, file read, temp-file write and rename is a step of its own, control is switched only at an
  outbound call or a lock it cannot take, and the process may crash at any step. `JoinLoopProof` shows
  that it refines `JoinHistory`, a specification in terms of atomic operations; `JoinTheorems` draws the
  conclusions for every interleaving, and `JoinAnswers` shows that no handler ever answers what was not so.
  `JoinService` is the same code as methods of a class, each proved to be one of those atomic operations;
  that its methods start with both locks free is what `JoinTheorems.LocksFreeWhenIdle` proves of every point
  where a handler is resumed. `JoinAgreement` shows that the two forms of the handlers do the same.
* **Terminal relay** (`Relay`): two sockets, a pending buffer, and the event handlers between them.
* **WireGuard addresses** (`Ipv4`, `WireGuard`, `ServerConf`, `Provisioning`, `PeerConflicts`): the first-fit
  allocator over its peers file, the two handlers that call it, the text of the server configuration they append to, and the
  terminal proxy's resolver that reads the same file.
* **Session machinery of keycloak.js** (`Session`, `TokenExpiry`, `CallbackStorage`, `CallbackParams`,
  `Base64Url`): coalesced refreshes and login checks, clock-skew arithmetic, one-time login states, the
  callback splitter, and base64url (sections 4 and 5 of RFC 4648, section 4.2 of RFC 7636).
* **Device enrolment buffers** (`EnrollText`, `EnrollBuffers`): the C code over fixed arrays, proved against
  functions on strings (escapes of section 7 of RFC 8259).

Some promises hold only under a condition; there the exact condition is proved.

* A stored decision is protected by a 409 only against handlers that start after it. A reject, or a second
  approve, whose check came first is not stopped: `JoinHistory.ApproveCommitsOnto` says when an
  approve commits onto a pending entry, `JoinWitness.RejectOverruledByTwoApproves` is a run in which it
  does not, and whose poll still shows the reason of the reject.
* A browser that leaves while the device socket is connecting does not stop it from opening
  (`Relay.ClientEndLeavesDeviceIff`). No handler runs between two sends of the
  flush, so a flush completes and nothing buffered is lost (`Relay.SentThenBufferedIsAll`), unless the socket
  left the open state inside a send.
* Two [Peer] sections of wg0.conf with one address belong to one device as long as nobody edits the peers file and
  - no value written there holds a line break. A block is one section for one device iff that is so
    (`ServerConf.PeerBlockReadsBackIff`); the handlers check neither the device id nor the public key, and with a
    line break a device can claim another's address (`PeerConflicts.TwoLineKeyTakesAddress`);
  - the text the WireGuard container wrote first claims no address a device can get, nor one twice, which is exact
    (`PeerConflicts.ConflictFromStartIff`): the allocator does not read wg0.conf. tenant-stack/docker-compose.yml
    starts that container with PEERS (10 by default) on the allocator's own subnet (lines 471 and 473, 520), and
    one [Peer] section for such a peer is enough for a conflict (`PeerConflicts.ContainerPeerIsUnsafe`).
* Deleting a device from the peers file makes a conflict possible iff its address is claimed in wg0.conf
  (`PeerConflicts.DeletionConflictsIff`).
* The refresh queue gets stuck iff a callback on the error path throws (`Session.RefreshWedgesIff`), the list of
  login checks iff a logout callback does (`Session.IframeWedgesIff`).
* The callback splitter hands back the plain join of what it keeps iff no segment is a bare "?" and no empty one
  is followed by extracted ones only (`CallbackParams.RestIsJoinIff`).
* The device stores a certificate as it was sent iff the text is shorter than the buffer of 8192 bytes and has no
  quote, no control character but the line feed and no backslash followed by n (`EnrollText.PersistedIff`). A
  longer text is cut and stored without an error; line ends of CR LF are not kept.
* The extractor reads fields whose key has at most 124 characters; the value of a longer one is never read
  (`EnrollText.LongKeyFails`). The keys it is used with are "certificate" and "ca_chain".
* The two base64url decoders agree on a text without blanks iff it is well formed or both refuse it
  (`Base64Url.DecodersAgreeIff`).

Where the code and its own documentation differ, the models follow the code. The header of
join_key_store.py lists a status "revoked" that nothing writes, while "expired", which it omits, is
written. The three wg_* fields of a JOIN entry are never filled. `_run_provisioning` calls itself
shared with approve, but approve has its own copy, which also keeps `results`. An approve whose
stages all failed with caught errors is still stored as approved.

## Model

| member | source | states |
|---|---|---|
| JoinTheorems.LocksFreeWhenIdle | glue-services/iot-bridge-api/app/clients/join_key_store.py:64-75 | in every interleaving both locks are free whenever the loop is idle, and nobody is ever parked on one; derived from steps that each take, release or park on a lock |
| JoinTheorems.LoopIsNeverHeld | glue-services/iot-bridge-api/app/routers/join.py:363-403 | after any run, 16 steps of the running coroutine are enough to give the loop back, so no handler blocks the others |
| JoinTheorems.FilesAreSerial | glue-services/iot-bridge-api/app/clients/join_store.py:54-70 | refinement: after every step, mid-write and after crashes too, both files hold what a legal sequence of atomic operations produces |
| JoinTheorems.AtMostOneHandshakePerKey | glue-services/iot-bridge-api/app/clients/join_key_store.py:101-130 | whatever runs beside it, no key is accepted twice |
| JoinTheorems.KeysOnlyMoveForward | glue-services/iot-bridge-api/app/clients/join_key_store.py:115-129 | between any two moments of a run a key only goes open to used or open to expired; its tenant, creation and expiry times never change and it never disappears |
| JoinTheorems.NoFreeProvisioning | glue-services/iot-bridge-api/app/routers/join.py:382-400 | provisioning starts for a tenant never exceed its accepted keys, and those never exceed the keys prepared for it |
| JoinTheorems.ProvisioningHasKey | glue-services/iot-bridge-api/app/routers/join.py:382-400 | each provisioning start has a key created earlier for that very tenant, accepted in the same handshake by a check no later than creation plus 168 hours |
| JoinTheorems.NoKeyLapsesEarly | glue-services/iot-bridge-api/app/clients/join_key_store.py:114-123 | each key that lapsed in a run was created for that tenant and presented more than 168 hours later |
| JoinTheorems.HandshakeAcceptedIff | glue-services/iot-bridge-api/app/clients/join_key_store.py:101-130 | after any run, what a handshake decides on a created key: accepted for the tenant it was created for iff no handshake found it open before and 168 hours since its creation are not over, lapsed iff only they are, otherwise 401 |
| JoinTheorems.ApprovedForever | glue-services/iot-bridge-api/app/routers/join.py:435-467 | "approved" is absorbing and tenants never disappear, although approve suspends between its check and its commit |
| JoinTheorems.EntriesAlwaysWellShaped | glue-services/iot-bridge-api/app/routers/join.py:442-466 | in every reachable state: pending has no outcome, rejected has a time, a non-empty reason and no bundle, approved has a whole bundle with vhost and user of the tenant; the entry names its own key |
| JoinTheorems.PollIsCurrent | glue-services/iot-bridge-api/app/routers/join.py:707-732 | a tenant is listed iff something was written for it, and its status poll tells the last write of the whole run, for an approve exactly the committed bundle; a reject reason is shown iff a reject stands since the last submission, also beside an approve, and it is that reject's or the default |
| JoinAnswers.AnswersAreTrue | glue-services/iot-bridge-api/app/routers/join.py:363-699 | after any run, every answer given about the stores has its own event of the answering task: 202 its submission, rejected its reject with that reason, approved its commit of the answered bundle, a bundle its accepted key, a prepared key its creation; 401, 404 and 409 what they claim to have found |
| JoinHistory.FindingsAreRight | glue-services/iot-bridge-api/app/routers/join.py:435-696 | and what was found is so, told by the earlier events alone: a key unknown only if never created and spent only if presented before; 404 only if nothing was written for the tenant, 409 only after an approve or, for an approve, if the last write was not a submission; an approve passes its check only onto a submission |
| JoinTheorems.OneEntryPerStep | glue-services/iot-bridge-api/app/routers/join.py:630-647 | no lost update: one step records at most one event, and every other tenant is what it was just before; a step that records nothing changes no file |
| JoinTheorems.ApproveAcrossItsGap | glue-services/iot-bridge-api/app/routers/join.py:524-647 | what an approve commits onto, for all writes of other tasks during its calls: the checked entry if there was none, a pending one iff the last was a resubmission; the certified CSR is the stored one if the tenant did not resubmit |
| JoinTheorems.IndexingNeverFails | glue-services/iot-bridge-api/app/routers/join.py:631-632 | at every point of the second load-and-save of approve and reject the tenant is in the file |
| JoinTheorems.ApproveReportsEveryStage | glue-services/iot-bridge-api/app/routers/join.py:533-628 | every successful approve answers with each of the four stages in exactly one of results and errors |
| JoinTheorems.StageReports | glue-services/iot-bridge-api/app/routers/join.py:557-600 | one stage, the skipped bridge certificate included, reports under its own name in exactly one of the two dicts and leaves the others |
| JoinTheorems.MicroProgress | glue-services/iot-bridge-api/app/clients/join_key_store.py:59-75 | a step of the running coroutine ends its turn or strictly lowers the number of steps left, so it is never parked on a lock |
| JoinWitness.RejectOverruledByTwoApproves | glue-services/iot-bridge-api/app/routers/join.py:684-696 | a concrete run in which a reject answers "rejected", two approves of the same request then both answer "approved", and the poll shows the reason of the reject beside the bundle: the 409 answers only see decisions stored before a handler starts |
| JoinAgreement.ApproveStagesAgree | glue-services/iot-bridge-api/app/routers/join.py:533-630 | the coroutine of an approve, given the answers of its stages one by one, comes to its second load with the draft the method computes, whose bundle carries those answers, or ends with 500 as it does |
| JoinAgreement.HandshakeStagesAgree | glue-services/iot-bridge-api/app/routers/join.py:263-355 | the coroutine of a handshake ends with 500, or with each field read off the answers of its stages |
| JoinAgreement.ApproveLoadsAgree | glue-services/iot-bridge-api/app/routers/join.py:524-668 | the two loads of an approve lead to 404, 409, the calls, or the commit and answer of the method |
| JoinAgreement.WritersAgree | glue-services/iot-bridge-api/app/routers/join.py:435-467 | what submit and reject save as coroutines is what the methods leave behind, with the same answers 202, 404, 409 and rejected, and they save nothing where the methods change nothing |
| JoinAgreement.HandshakeLoadAgrees | glue-services/iot-bridge-api/app/clients/join_key_store.py:110-130 | the load of the key file in a handshake coroutine: 401, or the entry saved as expired and then 401, or saved as used and then the first call, for the tenant of the key |
| JoinAgreement.PrepareLoadAgrees | glue-services/iot-bridge-api/app/routers/join.py:222-258 | a prepare coroutine saves the key drawn at its beginning, open for seven days from then, and answers it |
| JoinAgreement.BeginningsAgree | glue-services/iot-bridge-api/app/routers/join.py:239-243 | what each coroutine refuses before it reads anything: 422 for a tenant name, 401 for a missing key |
| JoinModel.TenantIdMeans | glue-services/iot-bridge-api/app/routers/join.py:429-433 | an ASCII tenant name passes iff it has small letters, digits and hyphens only and at least one letter |
| JoinLoopProof.ReachableInv | glue-services/iot-bridge-api/app/routers/join.py:363-403 | the invariant behind the theorems holds after every sequence of arrivals, resumptions, steps and crashes |
| JoinLoopProof.ExecInv | glue-services/iot-bridge-api/app/routers/join.py:504-696 | each single step keeps that invariant |
| JoinLoopProof.IoStepInside | glue-services/iot-bridge-api/app/clients/join_store.py:54-70 | inside load or save, with nobody else on the lock, a step never parks, reads the current file, and changes it only by the rename, to the data being saved |
| JoinLoopProof.GrantReady | glue-services/iot-bridge-api/app/clients/join_key_store.py:126-130 | once its consumption is on disk a handshake may start provisioning: no earlier run started with that key |
| JoinLoopProof.CheckedStaysListed | glue-services/iot-bridge-api/app/routers/join.py:524-632 | a tenant that passed an approve check is in the file ever after |
| JoinHistory.KeysAreSingleUse | glue-services/iot-bridge-api/app/clients/join_key_store.py:110-130 | two accepted handshakes of a legal history have different keys |
| JoinHistory.AcceptedWithinTtl | glue-services/iot-bridge-api/app/clients/join_key_store.py:84-98 | the creation of an accepted key lies before it, for the same tenant, and the check at most 168 hours after |
| JoinHistory.LapsedAfterTtl | glue-services/iot-bridge-api/app/clients/join_key_store.py:114-123 | conversely a key that lapsed was checked more than 168 hours after its creation |
| JoinHistory.KeyVerdict | glue-services/iot-bridge-api/app/clients/join_key_store.py:107-130 | the verdict on a key after any legal history: of the handshakes with a created key the first one within 168 hours is accepted, and no other |
| JoinHistory.KeyConservation | glue-services/iot-bridge-api/app/clients/join_key_store.py:86-129 | for each tenant, keys created = keys still open + keys accepted + keys lapsed, counted over any history |
| JoinHistory.ProvisionsAreUsedKeys | glue-services/iot-bridge-api/app/routers/join.py:383-400 | provisioning starts are counted by distinct keys, all of them used ones of the tenant |
| JoinHistory.HistoryEvolves | glue-services/iot-bridge-api/app/clients/join_key_store.py:115-129 | from any point of a history to a later one keys and requests only move forward |
| JoinHistory.EntriesWellShaped | glue-services/iot-bridge-api/app/routers/join.py:442-466 | the shape of an entry for each status, after any legal history |
| JoinHistory.EntryAcrossGap | glue-services/iot-bridge-api/app/routers/join.py:524-647 | between two points of a history an entry has the status of the last write and the payload of the last submission, and is unchanged without a write |
| JoinHistory.ApproveCommitsOnto | glue-services/iot-bridge-api/app/routers/join.py:524-647 | the exact condition under which an approve commits onto a pending entry |
| JoinHistory.PollTellsLastWrite | glue-services/iot-bridge-api/app/routers/join.py:632-732 | listed iff written, the poll shows the last write, and the two reject fields are those of the reject that stands since the last submission, whatever the status |
| JoinService.Service.LoadKeys | glue-services/iot-bridge-api/app/clients/join_key_store.py:59-65 | returns the key dict on disk, {} if the file is missing, and leaves the lock free |
| JoinService.Service.SaveKeys | glue-services/iot-bridge-api/app/clients/join_key_store.py:68-75 | the file holds the new dict, no temp file is left, the lock is free |
| JoinService.Service.LoadStore | glue-services/iot-bridge-api/app/clients/join_store.py:54-60 | returns the request dict on disk, {} if the file is missing, and leaves the lock free |
| JoinService.Service.SaveStore | glue-services/iot-bridge-api/app/clients/join_store.py:63-70 | the file holds the new dict, no temp file is left, the lock is free |
| JoinService.Service.CreateKey | glue-services/iot-bridge-api/app/clients/join_key_store.py:78-98 | adds one open entry for the given key, field by field, that expires 604 800 000 000 microseconds later, and changes nothing else |
| JoinService.Service.ValidateAndConsume | glue-services/iot-bridge-api/app/clients/join_key_store.py:101-130 | succeeds iff the key exists, is open and was checked by its expiry, and then only marks it used at that time; a late key is only marked expired, and for an unknown or spent one nothing changes; the error tells which |
| JoinService.Service.SubmitJoinRequest | glue-services/iot-bridge-api/app/routers/join.py:415-478 | 422, 409 or 202 under exactly these conditions, and one pending entry written in the last case only, with the payload, the time and null everywhere else; a tenant id with characters of other scripts is accepted or not as the caller says |
| JoinService.Service.GetRequest | glue-services/iot-bridge-api/app/routers/join.py:79-87 | the entry of a tenant, or the 404 |
| JoinService.Service.GetJoinStatus | glue-services/iot-bridge-api/app/routers/join.py:707-732 | the poll answer for a listed tenant, each field the one of that name in the entry, or the 404 |
| JoinService.Service.RejectJoinRequest | glue-services/iot-bridge-api/app/routers/join.py:675-699 | 404, 409 or rejected under exactly these conditions; only the status, time and reason of that entry change |
| JoinService.Service.CommitApproval | glue-services/iot-bridge-api/app/routers/join.py:630-647 | the reload and commit: one entry gets the nine values, the time and the status and keeps the rest, every other is what it was at that moment |
| JoinService.Service.ApproveJoinRequest | glue-services/iot-bridge-api/app/routers/join.py:504-668 | for every end of its calls and every turn other tasks take meanwhile: 404, 409, an escaping exception that leaves the store to the others, or an answer whose nine values are read off the stages' answers one by one, whose dicts report each stage in its own words, and the same nine values in the entry the others left |
| JoinService.Service.CallStages | glue-services/iot-bridge-api/app/routers/join.py:275-342 | the four stages in order, with the turns other tasks take during each |
| JoinService.Service.SignSubCa | glue-services/iot-bridge-api/app/routers/join.py:275-291 | stage 1: certificate and root, the fetched root when the first is empty; only the client's own error is caught |
| JoinService.Service.ProvisionRabbit | glue-services/iot-bridge-api/app/routers/join.py:293-305 | stage 2: every failure is caught and reported |
| JoinService.Service.SignBridgeCert | glue-services/iot-bridge-api/app/routers/join.py:307-320 | stage 2b: the bridge certificate; only the client's own error is caught |
| JoinService.Service.CreateFederationClient | glue-services/iot-bridge-api/app/routers/join.py:322-339 | stage 3: client id and secret; every failure is caught and reported |
| JoinService.Service.JoinHandshake | glue-services/iot-bridge-api/app/routers/join.py:363-403 | 401, or the key is spent and 500 or a bundle follows whose fields are read off the stages' answers one by one, null where a stage brought nothing: the key stays spent even when provisioning fails |
| JoinService.Service.RunProvisioning | glue-services/iot-bridge-api/app/routers/join.py:263-355 | each field of the bundle read off its own stage's answer or the settings, null where a stage brought nothing, or the escaping exception |
| JoinService.PipelineMeans | glue-services/iot-bridge-api/app/routers/join.py:275-342 | the pipeline is abandoned iff a signing call ends in a foreign exception; otherwise each field of the bundle and of the handed answer is its own stage's, and each stage is reported in results or errors in its own words |
| JoinService.VisitsKeepTenants | glue-services/iot-bridge-api/app/routers/join.py:631-632 | no turn of another task removes a tenant or undoes an approval |
| Relay.SentThenBufferedIsAll | glue-services/terminal-proxy/src/server.ts:109-126 | the law of the relay: when every flush completes, after any events sent ++ buffered is exactly what the browser sent, and nothing is buffered while the device socket is open |
| Relay.ToDeviceConserved | glue-services/terminal-proxy/src/server.ts:109-126 | after any events: sent + buffered + dropped account for every browser message, what was sent is a prefix of them in order, sent ++ buffered is all of them iff the flush dropped nothing, and the buffer is empty while the device socket is open |
| Relay.FlushDropsIff | glue-services/terminal-proxy/src/server.ts:121-126 | what the test inside the flush loop would cost: everything buffered is delivered iff all of the loop's sends find the socket open |
| Relay.ToClientPrefix | glue-services/terminal-proxy/src/server.ts:128-133 | the browser got a prefix of what the device sent, all of it while its socket is open |
| Relay.SocketsMoveForward | glue-services/terminal-proxy/src/server.ts:112-133 | nothing is sent on a socket that is not open, and sockets never go back |
| Relay.RunMovesForward | glue-services/terminal-proxy/src/server.ts:137-158 | over any events neither socket goes back to an earlier state |
| Relay.DeviceEndClosesClient | glue-services/terminal-proxy/src/server.ts:142-158 | once the device side closed or failed the browser socket is never open again |
| Relay.ClientEndLeavesDeviceIff | glue-services/terminal-proxy/src/server.ts:137-152 | after the browser side ended the device socket can still open iff it was connecting at that moment |
| Relay.Connection.OnClientMessage | glue-services/terminal-proxy/src/server.ts:111-117 | appends to what was sent when the device socket is open and to the buffer otherwise |
| Relay.Connection.OnDeviceOpen | glue-services/terminal-proxy/src/server.ts:119-134 | the flush loop sends the longest part the socket takes, empties the buffer and starts listening |
| Relay.Connection.OnDeviceMessage | glue-services/terminal-proxy/src/server.ts:129-133 | forwards to an open browser socket only |
| Relay.Connection.OnDeviceClose | glue-services/terminal-proxy/src/server.ts:142-146 | closes an open browser socket with 1001 |
| Relay.Connection.OnDeviceError | glue-services/terminal-proxy/src/server.ts:153-158 | closes an open browser socket with 1011 |
| Relay.Connection.OnClientClose | glue-services/terminal-proxy/src/server.ts:137-141 | closes the device socket only if it is open |
| Relay.Connection.OnClientError | glue-services/terminal-proxy/src/server.ts:147-152 | closes the device socket only if it is open |
| WireGuard.WireGuardConfig.constructor | glue-services/iot-bridge-api/app/clients/wireguard.py:22-35 | the network is the block that contains the configured address, the endpoint is the public name, a colon and the port; the object keeps no peers, so a restart changes nothing |
| WireGuard.WireGuardConfig.AllocateIp | glue-services/iot-bridge-api/app/clients/wireguard.py:49-68 | the host loop is first fit: a known device gets its recorded address, a new one the first host neither recorded nor the server's, recorded before it is returned; it fails iff an address is unreadable or all hosts are taken, and then the file is untouched |
| WireGuard.WireGuardConfig.ReadAddresses | glue-services/iot-bridge-api/app/clients/wireguard.py:59-59 | the set of recorded addresses, or the error of the first unreadable one |
| WireGuard.WireGuardConfig.WriteServerPeer | glue-services/iot-bridge-api/app/clients/wireguard.py:79-91 | appends the text of one [Peer] block, or nothing when there is no server configuration yet; the sections already in the file stay as they were, and without line breaks the new one names the device, its key and its address under their labels |
| WireGuard.WireGuardConfig.GenerateClientConfig | glue-services/iot-bridge-api/app/clients/wireguard.py:93-120 | appends a block iff the device sent a public key, and returns a text in which a reader finds, label by label, the device's address, the server as DNS, the server's key, its endpoint and the subnet, when no value holds a line break |
| ServerConf.PeerBlockReadsBackIff | glue-services/iot-bridge-api/app/clients/wireguard.py:84-89 | a block is read back as the one section it was written for iff no line break is in the device id, the public key or the address |
| ServerConf.PeerSectionMeans | glue-services/iot-bridge-api/app/clients/wireguard.py:84-89 | that section has the device id, the public key and the address with /32 as the only values of their labels |
| ServerConf.BlockAppended | glue-services/iot-bridge-api/app/clients/wireguard.py:90-91 | appending a block, whatever is in it, adds its sections behind those of the file |
| ServerConf.ClaimsAppend | glue-services/iot-bridge-api/app/clients/wireguard.py:84-91 | a block without line breaks adds exactly one claim of an address for a device |
| ServerConf.TwoLineKeyConflicts | glue-services/iot-bridge-api/app/clients/wireguard.py:84-91 | a public key of two lines can claim the address another device holds |
| ServerConf.ClientConfigReadsBack | glue-services/iot-bridge-api/app/clients/wireguard.py:107-120 | without line breaks in its values the client text has exactly two sections, and each label in them has exactly the value it is for |
| WireGuard.FirstFitClosedForm | glue-services/iot-bridge-api/app/clients/wireguard.py:59-68 | from an empty directory, after any calls the i-th distinct device has the i-th usable host other than the server, as far as there are hosts, and nobody else has any |
| WireGuard.RefusedIffFull | glue-services/iot-bridge-api/app/clients/wireguard.py:59-68 | a new device is refused iff the recorded peers are as many as the usable hosts without the server, and the refusal changes nothing |
| WireGuard.Capacity | glue-services/iot-bridge-api/tests/test_wireguard.py:74-79 | how many devices a prefix can hold; one for the /30 of the test |
| WireGuard.RunSound | glue-services/iot-bridge-api/app/clients/wireguard.py:55-66 | after any calls, restarts and operator deletions every device has its own usable host, never the server's |
| WireGuard.AddressStable | glue-services/iot-bridge-api/app/clients/wireguard.py:55-57 | a device keeps its address through everything but its own deletion |
| WireGuard.AllocateSound | glue-services/iot-bridge-api/app/clients/wireguard.py:55-66 | one call keeps all recorded addresses distinct and in range, and every known one as it was |
| WireGuard.DeleteSound | glue-services/iot-bridge-api/app/clients/wireguard.py:39-47 | removing a device from the file leaves the others as they were |
| WireGuard.FirstFreeMeans | glue-services/iot-bridge-api/app/clients/wireguard.py:62-63 | the host found is unused and every earlier one is used; none is found iff all are used |
| WireGuard.FirstFitMeans | glue-services/iot-bridge-api/app/clients/wireguard.py:59-68 | a new device is refused iff every usable host is the server's or recorded, and otherwise gets the first that is not |
| Ipv4.ParsePrint | glue-services/iot-bridge-api/app/clients/wireguard.py:59-64 | every address is read back from its text |
| Ipv4.PrintMeans | glue-services/iot-bridge-api/app/clients/wireguard.py:64-66 | the text of an address is its four octets in decimal, the highest first |
| Ipv4.PrintParse | glue-services/iot-bridge-api/app/clients/wireguard.py:59-64 | every text that parses is the one text of its address, so distinct texts are distinct addresses |
| Ipv4.MakeNetwork | glue-services/iot-bridge-api/app/clients/wireguard.py:31-31 | the block of the prefix that contains the given address, its base a multiple of its size |
| Ipv4.Hosts | glue-services/iot-bridge-api/app/clients/wireguard.py:62-62 | the addresses of the block in ascending order, without the first and the last one when there are more than two, and how many they are |
| Provisioning.ResolverAgrees | glue-services/terminal-proxy/src/ipResolver.ts:25-38 | after any enrolments, webhooks and restarts the resolver answers for a device the one address every successful call returned, and null iff no call succeeded for it |
| Provisioning.Resolve | glue-services/terminal-proxy/src/ipResolver.ts:25-38 | what the resolver reads from the file is what that result speaks of |
| PeerConflicts.ConflictReachableIff | glue-services/iot-bridge-api/app/clients/wireguard.py:55-91 | from any state with a server configuration, a run without operator deletions and line breaks can end with [Peer] sections of different devices on one address iff the text already has such a pair, or claims an address a device can still get, or one of a device other than the claiming one that may claim it too |
| PeerConflicts.ConflictFromStartIff | glue-services/iot-bridge-api/app/clients/wireguard.py:79-91 | on an empty peers file, with the text the container wrote there from the start or appearing later: some such run ends in a conflict iff that text claims an address a device can get, or has a conflict of its own |
| PeerConflicts.NoConflictWithoutDeletions | glue-services/iot-bridge-api/app/clients/wireguard.py:79-91 | two [Peer] sections with the same AllowedIPs belong to the same device, after any run without operator deletions whose device ids and public keys hold no line break, if the text the container wrote claims no address a device can get and has no conflict of its own |
| PeerConflicts.ContainerPeerIsUnsafe | tenant-stack/docker-compose.yml:464-475 | a text with one [Peer] section for a peer of the container's own, on an address a device can get, is enough to break that |
| PeerConflicts.TwoLineKeyTakesAddress | glue-services/iot-bridge-api/app/routers/enrollment.py:86-91 | the condition on line breaks is needed: in every state an enrolment whose public key holds a line break can take the address another device claims |
| PeerConflicts.TwoEnrolmentsConflict | glue-services/iot-bridge-api/app/routers/enrollment.py:86-91 | two enrolments of new devices are enough wherever two addresses are free |
| PeerConflicts.DeletionConflictsIff | glue-services/iot-bridge-api/app/clients/wireguard.py:79-91 | from a state in which no such run could end in a conflict, one can after an operator deletes a device iff that device's address is claimed in wg0.conf |
| PeerConflicts.FreeAddressIsReached | glue-services/iot-bridge-api/app/clients/wireguard.py:59-68 | any given free address is handed out after finitely many enrolments of new devices |
| Provisioning.AssignAddress | glue-services/iot-bridge-api/app/routers/enrollment.py:85-91 | address, peers file and [Peer] block together, or 500 and nothing |
| Provisioning.EnrollDevice | glue-services/iot-bridge-api/app/routers/enrollment.py:48-98 | each error code under its own condition and without effect; on success the answer carries the signed certificate and chain, an address the resolver reads, and a client text in which a reader finds that address, the server and the subnet under their labels |
| Provisioning.ThingsboardWebhook | glue-services/iot-bridge-api/app/routers/webhooks.py:61-117 | events without a device id are ignored, each error code has its own condition and no effect; on success the answer tells a known target from a new one and carries an address the resolver reads |
| Provisioning.CreateTargetIfAbsent | glue-services/iot-bridge-api/app/routers/enrollment.py:72-83 | no problem iff there is a target in the end; 503, 502 or 500 iff the first call without an answer, the query or else the creation, was unreachable, failed or raised something else |
| Provisioning.ExtractDeviceId | glue-services/iot-bridge-api/app/routers/webhooks.py:40-48 | the device id, or else the client id, or else the device name, whichever is there and not empty first |
| Session.LawKeptIff | provider-stack/caddy/html/js/keycloak.js:1482-1517 | a request is out iff somebody waits, never two: kept by every step, except iff an exception escapes while an answer is handled |
| Session.LawHoldsInRuns | provider-stack/caddy/html/js/keycloak.js:1482-1517 | the law in every run in which nothing escapes |
| Session.AnswerSettlesAll | provider-stack/caddy/html/js/keycloak.js:1499-1515 | one answer settles everyone waiting and everyone who joins during its callbacks, with that verdict |
| Session.SettledExactlyOnce | provider-stack/caddy/html/js/keycloak.js:1482-1517 | in every run who joined has been settled once or is still queued once |
| Session.WedgedForever | provider-stack/caddy/html/js/keycloak.js:1484-1484 | with waiters and no request out, nothing is ever settled again |
| Session.RefreshWedgesIff | provider-stack/caddy/html/js/keycloak.js:1488-1516 | a refresh response leaves the queue stuck iff a callback on its error path throws |
| Session.IframeWedgesIff | provider-stack/caddy/html/js/keycloak.js:901-924 | a reply of the login iframe leaves the list stuck iff it logs the user out and the logout callback throws |
| Session.Keycloak.BeginUpdateToken | provider-stack/caddy/html/js/keycloak.js:1457-1466 | throws iff there is no refresh token, and otherwise waits for a login check iff that is enabled and its iframe is there, joining the list of checks |
| Session.Keycloak.ResumeUpdateToken | provider-stack/caddy/html/js/keycloak.js:1464-1484 | a rejected check is thrown on; else throws, answers false, or joins the queue as the session then stands; false only when the token outlives the required validity, 5 seconds by default, true only when it is forced, there is no token, or the token does not outlive it by two seconds |
| Session.Keycloak.QueueRefresh | provider-stack/caddy/html/js/keycloak.js:1482-1484 | pushes, and sends a request iff the queue was empty |
| Session.Keycloak.RefreshReturned | provider-stack/caddy/html/js/keycloak.js:1488-1516 | from a queue that keeps the law: a fulfilled, readable response whose callback returns resolves every waiter and joiner with true; any other rejects them all, unless a callback of the error path throws, which settles nobody |
| Session.Keycloak.SettleRefreshQueue | provider-stack/caddy/html/js/keycloak.js:1499-1501 | popping settles each waiter once, last in first |
| Session.Keycloak.CheckLoginIframe | provider-stack/caddy/html/js/keycloak.js:947-968 | pushes, and posts a message iff the list was empty |
| Session.Keycloak.SettleCallbackList | provider-stack/caddy/html/js/keycloak.js:914-923 | the whole list is settled once, last in first, after it was emptied |
| Session.Keycloak.MessageCallback | provider-stack/caddy/html/js/keycloak.js:901-924 | "unchanged" resolves the whole list with true, "changed" with false, "error" rejects it, last in first, unless a logout callback throws; any other message changes nothing |
| Session.RefreshEventSettles | provider-stack/caddy/html/js/keycloak.js:1488-1516 | the same verdicts of a refresh response in the runs that the laws of the queue speak of |
| Session.IframeEventSettles | provider-stack/caddy/html/js/keycloak.js:901-924 | and those of the three replies of the login iframe |
| TokenExpiry.VerdictIsSafe | provider-stack/caddy/html/js/keycloak.js:1429-1451 | "not expired" implies that local time since the token came plus the required validity is within exp - iat; "expired" is early by less than two seconds |
| TokenExpiry.VerdictExactly | provider-stack/caddy/html/js/keycloak.js:1439-1451 | the verdict exactly, with the clock rounded up to full seconds and the arrival rounded down |
| TokenExpiry.VerdictWithoutClock | provider-stack/caddy/html/js/keycloak.js:1430-1441 | an error iff not authenticated, expired without a skew, never expired without exp |
| TokenExpiry.RefreshDecided | provider-stack/caddy/html/js/keycloak.js:1462-1474 | a refresh is forced by -1 and by a missing token; otherwise the verdict decides, on 5 seconds when none or 0 is asked for |
| TokenExpiry.VerdictIgnoresClockOffset | provider-stack/caddy/html/js/keycloak.js:1567-1568 | setting the local clock by whole seconds changes no verdict |
| TokenExpiry.NoRefreshMeansValid | provider-stack/caddy/html/js/keycloak.js:1462-1480 | when updateToken does not refresh, the token outlives the required validity, 5 seconds by default; when it does, it was forced or the token does not outlive it by two seconds |
| CallbackStorage.ReturnedIff | provider-stack/caddy/html/js/keycloak.js:1761-1799 | get returns a state iff it was stored, spared since, and its hour has not passed on the clock; it returns what was stored |
| CallbackStorage.StoredIff | provider-stack/caddy/html/js/keycloak.js:1782-1816 | what is stored under a state is the last add, iff everything since spared it |
| CallbackStorage.AtMostOncePerAdd | provider-stack/caddy/html/js/keycloak.js:1771-1774 | successful gets of a state never exceed its adds |
| CallbackStorage.NeverExpired | provider-stack/caddy/html/js/keycloak.js:1804-1816 | get never returns an expired or malformed entry |
| CallbackStorage.ForeignKeysUntouched | provider-stack/caddy/html/js/keycloak.js:1752-1833 | no operation touches a key outside the prefix, but for the test key the constructor sets and removes |
| CallbackStorage.LocalStorage.constructor | provider-stack/caddy/html/js/keycloak.js:1752-1755 | leaves the storage as it found it, without the test key |
| CallbackStorage.LocalStorage.AddState | provider-stack/caddy/html/js/keycloak.js:1782-1799 | sweep, write under the prefixed key with an expiry 3 600 000 ms later, and when the storage is full clear and write again; throws iff that fails too |
| CallbackStorage.LocalStorage.GetState | provider-stack/caddy/html/js/keycloak.js:1761-1777 | returns the entry iff it is well formed and not past its time, and leaves none behind |
| CallbackStorage.LocalStorage.ClearInvalidValues | provider-stack/caddy/html/js/keycloak.js:1804-1816 | removes exactly our entries that are malformed or past their time |
| CallbackStorage.LocalStorage.ClearAllValues | provider-stack/caddy/html/js/keycloak.js:1821-1825 | removes exactly our entries |
| CallbackParams.ParseCallbackParams | provider-stack/caddy/html/js/keycloak.js:1092-1119 | the reverse loop computes the extracted keys and the rebuilt rest of the segments |
| CallbackParams.LastOccurrenceWins | provider-stack/caddy/html/js/keycloak.js:1098-1110 | exactly the supported keys that occur get a value, each that of its last occurrence |
| CallbackParams.KeptAndTakenPartition | provider-stack/caddy/html/js/keycloak.js:1098-1113 | kept and extracted segments partition the input, one extracted per key |
| CallbackParams.KeptInOrder | provider-stack/caddy/html/js/keycloak.js:1098-1113 | the kept segments are those at the positions that are not the last of a supported key, in the order of the input |
| CallbackParams.RestIsJoinIff | provider-stack/caddy/html/js/keycloak.js:1092-1119 | for every input text the rest is the "&"-join of the kept segments in order iff no segment is a bare "?" and no empty one is followed by taken ones only |
| CallbackParams.NoEmptySegments | provider-stack/caddy/html/js/keycloak.js:1092-1119 | in particular for every text without empty segments and bare "?" |
| CallbackParams.EmptyTextGrows | provider-stack/caddy/html/js/keycloak.js:1101-1104 | the empty text comes back as "&" |
| CallbackParams.RebuiltIsJoinIff | provider-stack/caddy/html/js/keycloak.js:1101-1112 | the same on the kept segments: the rest is their join iff none is a bare "?" and the last is not empty |
| CallbackParams.ForeignTextUnchanged | provider-stack/caddy/html/js/keycloak.js:1092-1119 | a text without supported parameters comes back as it was |
| Text.JoinSplit | provider-stack/caddy/html/js/keycloak.js:1093-1093 | joining what was split gives the text back |
| Text.SplitJoin | provider-stack/caddy/html/js/keycloak.js:1093-1093 | splitting what was joined gives the parts back |
| Base64Url.RoundTrip | provider-stack/caddy/html/js/keycloak.js:1655-1668 | either encoder followed by either decoder gives every byte string back |
| Base64Url.EncodersAgree | glue-services/iot-bridge-api/app/clients/step_ca.py:84-88 | Python and JavaScript encode alike: url-safe, unpadded, length never 1 mod 4 |
| Base64Url.AlphabetIsStandard | glue-services/iot-bridge-api/app/clients/step_ca.py:84-88 | the symbols are those of the standard alphabet, with - and _ in the url-safe form |
| Base64Url.TestVectors | provider-stack/caddy/html/js/keycloak.js:1655-1668 | test vectors of section 10 of RFC 4648, and one whose text has both - and _ |
| Base64Url.DecodersAgree | glue-services/iot-bridge-api/app/routers/portal.py:67-69 | on texts over the url-safe or standard alphabet the two padding rules and decoders answer the same: the bytes, or an error iff the length is 1 mod 4 |
| Base64Url.JsImpliesPython | provider-stack/caddy/html/js/keycloak.js:1982-2005 | whatever text without blanks the browser decodes, the service decodes to the same bytes |
| Base64Url.JsDecodesIff | provider-stack/caddy/html/js/keycloak.js:1982-2005 | the browser decodes a text without blanks iff it consists of alphabet symbols with all, some or none of the padding they need |
| Base64Url.DecodersAgreeIff | glue-services/iot-bridge-api/app/routers/portal.py:67-69 | on texts without blanks the two agree exactly where the text is so formed or the service refuses it too |
| Base64Url.DecodersDiffer | glue-services/iot-bridge-api/app/routers/portal.py:67-69 | elsewhere they differ: two texts, one each way |
| Base64Url.AtobIgnoresBlanks | provider-stack/caddy/html/js/keycloak.js:1982-2005 | blanks in a text make no difference to the browser |
| Base64Url.NonAsciiRefused | glue-services/iot-bridge-api/app/routers/portal.py:67-69 | the service refuses characters outside ASCII |
| Base64Url.DecodeEncode | provider-stack/caddy/html/js/keycloak.js:1933-2005 | both library decoders undo the standard encoding |
| EnrollBuffers.EscapeCsr | device-stack/freertos-x86_64-posix/enroll/enroll.c:194-199 | the escape loop leaves a terminated string, the escape of the longest part its guard admits |
| EnrollBuffers.CsrEscapedWhole | device-stack/freertos-x86_64-posix/enroll/enroll.c:182-199 | with the buffer sizes used the whole text is escaped, whatever it is |
| EnrollText.EscapeBufferIsTight | device-stack/freertos-x86_64-posix/enroll/enroll.c:194-199 | 4096 and 8192 are exactly right: nothing that fits is cut, one character more can be |
| EnrollText.NothingCutIff | device-stack/freertos-x86_64-posix/enroll/enroll.c:195-198 | nothing is cut iff all but the last character fits below the guard |
| EnrollText.EscapeIsJsonIff | device-stack/freertos-x86_64-posix/enroll/enroll.c:193-198 | the device's escape is a JSON escape iff the text has no quote, no backslash and no control character but the newline |
| EnrollBuffers.JsonGetString | device-stack/freertos-x86_64-posix/enroll/enroll.c:86-104 | the array code computes the extraction of which the next rows speak: -1 and an untouched buffer, or a terminated value and its length |
| EnrollText.StrStrFirst | device-stack/freertos-x86_64-posix/enroll/enroll.c:90-91 | the search answers a place iff the needle stands there and nowhere before, and none iff it stands nowhere |
| EnrollText.NoStringField | device-stack/freertos-x86_64-posix/enroll/enroll.c:91-94 | -1 without the quoted key and its colon, and when no string follows its first occurrence |
| EnrollBuffers.FindValue | device-stack/freertos-x86_64-posix/enroll/enroll.c:92-95 | the position behind the opening quote, or -1 iff no quoted value follows |
| EnrollBuffers.CopyValue | device-stack/freertos-x86_64-posix/enroll/enroll.c:96-103 | the copy loop stays in both buffers and undoes two escapes |
| EnrollText.ExtractEscaped | device-stack/freertos-x86_64-posix/enroll/enroll.c:84-104 | for every text, written as JSON behind the first occurrence of the quoted key and its colon, with any blanks between, and cut to the buffer: it is returned iff what is left of it has no quote and no control character but the newline |
| EnrollText.LongKeyFails | device-stack/freertos-x86_64-posix/enroll/enroll.c:88-94 | the bound of 124 characters on the key is exact: for a longer one without quotes and blanks the value is never read |
| EnrollText.JsonEscapeReadsBack | device-stack/freertos-x86_64-posix/enroll/enroll.c:84-104 | the escape those rows speak of is JSON: a reader of JSON strings gets every text back from it |
| EnrollText.PersistedIff | device-stack/freertos-x86_64-posix/enroll/enroll.c:243-251 | from the server's text to the file, for every text and buffer size: stored unchanged iff it is shorter than the buffer and has no quote, no control character but the newline and no backslash followed by n; the part that fits is stored iff that part has none of them |
| EnrollBuffers.UnescapeInPlace | device-stack/freertos-x86_64-posix/enroll/enroll.c:250-250 | the in-place loop computes the left-to-right replacement, stays in the buffer, keeps the string terminated and ends |
| EnrollBuffers.MoveLeft | device-stack/freertos-x86_64-posix/enroll/enroll.c:250-250 | overlapping bytes arrive as they were, everything else stays |
| EnrollBuffers.ReplacePair | device-stack/freertos-x86_64-posix/enroll/enroll.c:250-250 | one memmove turns a pair into a newline and moves the rest with its NUL |
| EnrollText.UnescapeShrinks | device-stack/freertos-x86_64-posix/enroll/enroll.c:250-251 | the second pass shortens a text iff it holds a pair and otherwise leaves it alone |
| EnrollText.EscapeUndoneIff | device-stack/freertos-x86_64-posix/enroll/enroll.c:194-251 | it undoes the device's own escape iff the text has no backslash followed by n |
| EnrollBuffers.ResponseBuffer.Write | device-stack/freertos-x86_64-posix/enroll/enroll.c:72-82 | appends the chunk and a NUL; when allocation fails it answers 0 and keeps the length |
| EnrollBuffers.Receive | device-stack/freertos-x86_64-posix/enroll/enroll.c:72-82 | however a body is cut into chunks the buffer ends up holding the body, or nothing when an allocation fails |

## Left out

- JoinService.Service.CreateKey: the expiry that the answer of prepare shows comes from a second reading of the clock and is not modelled.
- Keys are assumed fresh: a step of `JoinLoop` that would draw a key already in the file does not happen.
- JoinTheorems.AtMostOneHandshakePerKey: rests on that assumption about key generation; randomness itself is not modelled.
- JoinService.Service.Suspend: lets other tasks write the request file only; turns on the key file during a suspension are covered by the loop model.
- JoinService.Service.JoinHandshake: the key arrives stripped of blanks.
- The several awaits inside one pipeline stage are one suspension; nothing shared is touched between them.
- What step-ca, RabbitMQ, Keycloak and hawkBit do: each call is an arbitrary answer or failure. Admin authentication in front of the handlers is not modelled.
- JoinService.Service.SubmitJoinRequest: which letters of scripts other than ASCII Python's isalnum and islower accept is left open; the results hold for any answer.
- The draft's `results` of a handshake, which its answer does not carry.
- WireGuard.WireGuardConfig.GenerateClientConfig: reading the server's key file; the key is a parameter.
- ServerConf.PeerBlockReadsBackIff: the reader knows sections, whole lines and the labels as they are written here; other spellings that WireGuard accepts, lists and ranges of addresses are not modelled.
- CallbackParams.ParseCallbackParams: percent decoding is a parameter, constrained only in which segments have no entry at all.
- Base64Url.DecodersAgree: binascii.a2b_base64 and atob are modelled from their public descriptions (for atob the forgiving-base64 decode of the Infra Standard); the UTF-8 step behind atob and JSON parsing are left out.
- Session.Keycloak.MessageCallback: only replies to posted messages settle anything; the origin and source checks and the creation of the iframe are left out.
- EnrollText.ExtractEscaped: keys longer than 124 characters are the subject of EnrollText.LongKeyFails, there without quotes and blanks in them.
- EnrollText.PersistedIff: characters above 127 stand for the bytes of their UTF-8 form.
- JSON texts of the stores and malformed store files: stores are maps. Exceptions of file access are not modelled, crashes between file steps are.
- Relay: authentication, the upgrade handshake and the `ws` library itself; its possible events are the predicate `Possible`. That no send of a flush closes the socket is an assumption about it. Relay.SocketsMoveForward speaks of the handlers, not of bytes in flight.
- Ipv4.MakeNetwork: IPv4 only; the original also accepts IPv6 networks.
- Provisioning.EnrollDevice: CSR validation is a verdict, and the certificates are whatever step-ca answered.
- Provisioning.ThingsboardWebhook: the telemetry webhook is not modelled.
- Provisioning.ResolverAgrees: device ids that are names of JavaScript prototype members are out of scope.
- Session.Keycloak.ResumeUpdateToken: a minValidity that is not a number is not modelled.
- Session.Keycloak.RefreshReturned: the token's contents; setting it can only succeed or throw. The login that clearToken may start is not modelled.
- PeerConflicts.ContainerPeerIsUnsafe: the image's own way of writing its peers is not in the repository; the result is about any text with such a section.
- CallbackStorage.LocalStorage.constructor: a storage that refuses the test entry, on which CookieStorage takes over.
- CallbackStorage.ForeignKeysUntouched: other code is assumed to stay off keys with the adapter's prefix; CookieStorage is not modelled.
- Hashing, certificates, JWTs, TLS, MQTT and the login-URL builder.
- EnrollBuffers.Receive: a response without a body is not passed on to the extractor; the request body and file writes of cdm_enroll are not modelled.
- The C library (strlen, strstr, snprintf, memmove, realloc) does what its functions in the model do.
