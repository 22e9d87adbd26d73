# A verified model of avon

avon is a zero-trust overlay network: a gateway and its agents speak an encrypted tunnel protocol,
policies are compiled to Cedar and decide every flow, and a control plane attests devices and gives
them addresses. This project models the parts whose correctness spans several operations and proves
what those parts promise.

- **Tunnel.** `Bytes`, `Datagram`, `ReplayWindow`, `Session`, `SessionTable`, `RekeyProtocol`,
  `Delivery`, `Recovery` and `Endpoints`: the wire format, one session's epochs, the receiver-index table,
  and the two-party rekey over a network that loses, reorders, duplicates, replays and splices packets.
- **Policy.** `Net`, `Text`, `PolicySpec`, `Ports`, `Cedar`, `Entities`, `Compiler`, `Schedule`, `Engine`
  and `FlowPolicy`: the policy document, the Cedar expression it compiles to and an evaluator for it,
  the entity store, time windows, the decision engine, and the gateway's verdict cache.
- **Gateway.** `Routes`, `Gateway`, `Revocation` and `Forwarding`: longest-prefix routes, offers, revocation
  lists, closes and forwarding as one state machine, then with the session objects and with the verdict
  cache in it.
- **Control and helpers.** `Bits`, `Cursor`, `Evidence`, `Quote`, `Attestation`, `Ipam`, `Wire` and
  `Checksum`: the attestation codecs, challenges and key pinning, address allocation, line framing and
  the Internet checksum.

How it is written. Operations that the program performs by changing fields or buffers are classes and
methods, each proved equal to a specification function; the theorems are about those functions and about
runs built from them. A run is a sequence of events, and every input the program does not control (what
the network delivers, clocks, random indexes, whether a send or a database call fails) is part of the
event. `dafny verify dfyconfig.toml` checks everything.

What is assumed. Cryptography is symbolic: an AEAD body opens only under the key, nonce and associated
data it was sealed with, key derivation is injective, a KEM ciphertext yields the encapsulated secret
only to the key pair it was made for; SHA-256 and signature checks are arbitrary functions. Frame
serialization is any codec that loses nothing. Cedar evaluation follows its language guide: `&&` and
`||` short-circuit, `has` guards, `in` is reflexive and transitive, an erroring policy is skipped, forbid
overrides permit; entity stores reject conflicting duplicates and cycles.

Where the code and its own documentation part ways, the code is modelled:

- A destination selector's device classes are dropped by the compiler, and a selector naming only them
  matches everything. `Compiler.DestinationExact` says exactly which selectors this leaves unharmed.
- The cache key leaves out tenant, device and destination device. `FlowPolicy.KeySharingExact` says exactly
  which flows may share a key, with a run that goes wrong for every other pair;
  `FlowPolicy.CacheRefinesEngine` holds for runs that respect it. The gateway itself does not: offers,
  closes and route updates change what a flow asks without clearing the cache
  (`Forwarding.OfferStalesCache`, `Forwarding.ForwardingExact`).
- An offer that reuses a live id leaves the old session open and bound by its index, judged by the new
  metadata. `Revocation.RevocationExact` is the exact condition for revocation to reach every session.
- The window scan rounds with a truncating remainder, so before 1970 it can jump over a minute.
  `Schedule.ScanMissesNothingExact` gives the exact times for which it cannot.
- Rotating twice within the overlap, or inserting an id already present, leaves an index bound that no
  live session lists (`SessionTable.StaleRun`). `SessionTable.TightExact` characterises the runs in which
  this never happens.
- The mirrored IPv6 address is an "or", so a pool whose IPv6 network overlaps the IPv4 host bits hands
  one address to two devices, and one that does not cover them hands out addresses outside the pool.
  `Ipam.DistinctV6Exact` and `Ipam.InsideExact` are the exact conditions.
- An attestation key is pinned by updating the device's row; with no row nothing is pinned, and
  `Attestation.RowNeeded` is a run with two keys. `Attestation.PinnedAfterExact` is the exact condition.
- Fixing checksums zeroes two payload bytes of a packet that is not ICMP (`Checksum.UdpPortLost`).
  `Checksum.PayloadKeptExact` says exactly which packets survive.

## Model

| member | source | states |
|---|---|---|
| Datagram.HeaderRoundTrip | crates/avon-tunnel/src/header.rs:19-54 | a header decodes to itself in front of any body exactly when its type is data and only the overlap flag is set |
| Datagram.HeaderCanonical | crates/avon-tunnel/src/header.rs:30-54 | whatever is accepted as a header is the encoding of what was read, followed by the body |
| Datagram.InnerRoundTrip | crates/avon-tunnel/src/inner.rs:16-43 | every inner message decodes to itself |
| Datagram.InnerCanonical | crates/avon-tunnel/src/inner.rs:30-43 | every accepted plaintext is the encoding of the message read from it |
| ReplayWindow.UpdateRefines | crates/avon-crypto/src/session/replay.rs:36-66 | one update accepts exactly the counters a receiver with unbounded memory calls fresh, and keeps representing all accepted ones |
| ReplayWindow.AcceptedOnce | crates/avon-crypto/src/session/replay.rs:36-66 | over any arrivals no counter is accepted twice |
| ReplayWindow.RefusedForCause | crates/avon-crypto/src/session/replay.rs:36-66 | an arrival is accepted exactly when it is new and less than the window size behind everything accepted |
| ReplayWindow.RefusedForever | crates/avon-crypto/src/session/replay.rs:43-64 | a refused counter stays refused after any later acceptance |
| ReplayWindow.Receiver.CheckAndUpdate | crates/avon-crypto/src/session/replay.rs:36-66 | the in-place window does what the specification's update does |
| ReplayWindow.SendCounter.Next | crates/avon-crypto/src/session/replay.rs:90-114 | counters are handed out in order, and none once the limit is reached |
| Session.SessionCipher.SealWith | crates/avon-crypto/src/session/cipher.rs:62-75 | the body is sealed under the counter its associated data was built from, and the counter moves by one, or nothing happens at the limit |
| Session.SessionCipher.Open | crates/avon-crypto/src/session/cipher.rs:77-99 | authenticate, then commit the counter in place, as specified; a body that fails leaves the window alone |
| Session.SealedOpens | crates/avon-tunnel/src/session.rs:201-294 | a sealed packet opens to what was sealed at a receiver holding the epoch whose window does not refuse it |
| Session.UnopenedUnchanged | crates/avon-tunnel/src/session.rs:252-294 | only a body authentic for the slot it names, and not yet accepted there, changes the receiver |
| Session.UnknownIndexDropped | crates/avon-tunnel/src/session.rs:266-276 | a packet naming an index the session does not hold is refused and changes nothing |
| Session.RotationKeepsOld | crates/avon-tunnel/src/session.rs:297-326 | for the overlap a rotation changes nothing for the old epoch's packets; then that epoch is dropped and its index handed back, exactly on time |
| Session.SealedFits | crates/avon-tunnel/src/header.rs:56-60 | the datagram of an overlay packet is within the advertised bound exactly when the packet is within the MTU |
| Session.Session.constructor | crates/avon-tunnel/src/session.rs:73-108 | a new session has one epoch, no previous one, and is open |
| Session.Session.Seal | crates/avon-tunnel/src/session.rs:201-249 | sealing through the current epoch's cipher is the specification's sealing, errors included |
| Session.Session.Open | crates/avon-tunnel/src/session.rs:252-294 | opening through the named epoch's cipher is the specification's opening, errors included |
| Session.Session.Rotate | crates/avon-tunnel/src/session.rs:297-312 | the new epoch is current, the old one previous, the epoch one higher, the rekey flag down |
| Session.Session.ExpirePreviousEpoch | crates/avon-tunnel/src/session.rs:316-326 | the previous epoch goes, and its index is returned, once the overlap has passed |
| Session.Session.Close | crates/avon-tunnel/src/session.rs:181-183 | only the closed flag changes |
| RekeyProtocol.RunKeeps | crates/avon-agent-core/src/session_manager.rs:186-240 | in every run, over any network, the two ends, the pending offer, every packet ever sent and all replay windows satisfy the protocol invariant |
| RekeyProtocol.EpochsTrack | crates/avon-gateway/src/dataplane.rs:131-163 | in every run the gateway is level with the agent or one epoch ahead; level, both hold the same keys and crossed indexes; ahead, its keys follow from the offer the agent made in its epoch and its previous epoch is the agent's current one |
| RekeyProtocol.AtMostOneRekey | crates/avon-tunnel/src/endpoint.rs:200-209 | in every run at most one offer and one answer exist per epoch |
| RekeyProtocol.OpensExactly | crates/avon-tunnel/src/session.rs:252-294 | in every reachable state a body opens exactly when it comes under the header it was sent with to an open end that holds a slot with its key whose window does not refuse its counter; it then gives what was sealed |
| Delivery.DeliveredExactly | crates/avon-tunnel/src/session.rs:252-294 | at the end of every run the same, over everything the end has accepted in the run: it opens exactly what was sent, in an epoch it still holds, whose counter it has not accepted there and is less than a window behind all it has |
| Delivery.TrackRemembers | crates/avon-crypto/src/session/cipher.rs:77-99 | in every run each slot's window stands for exactly the counters accepted under its key, across rotations |
| RekeyProtocol.OpenedWasSent | crates/avon-tunnel/src/endpoint.rs:125-146 | nothing but a packet some end really sent changes a session or is delivered |
| RekeyProtocol.TrafficReadable | crates/avon-gateway/src/dataplane.rs:153-161 | at the end of every run, what the agent seals is readable exactly when the gateway is level or still holds the previous epoch, and what the gateway seals exactly when level |
| RekeyProtocol.RekeyCompletes | crates/avon-agent-core/src/session_manager.rs:187-240 | from every reachable idle state an undisturbed exchange ends with both ends one epoch further, keys equal, indexes crossed |
| Recovery.RejoinExact | crates/avon-agent-core/src/session_manager.rs:186-240 | in every run, ends one epoch apart can become level again exactly when the agent's offer is still in its slot and the agent is open |
| Recovery.StuckForever | crates/avon-gateway/src/dataplane.rs:131-163 | otherwise both epochs stay as they are in every continuation and nothing the gateway seals is read again |
| RekeyProtocol.CompleteKeeps | crates/avon-tunnel/src/session.rs:157-165 | taking the answer keeps the invariant, also when completing fails after the offer was taken; completing makes the ends level |
| RekeyProtocol.AnswerKeeps | crates/avon-tunnel/src/session.rs:148-153 | answering, whether or not the answer gets out, keeps the invariant |
| RekeyProtocol.HandleDueKeeps | crates/avon-agent-core/src/session_manager.rs:212-240 | starting a rekey, on every failure path too, keeps the invariant |
| Endpoints.SendInner | crates/avon-tunnel/src/endpoint.rs:72-102 | sealing and sending, with either failing, is the protocol's emission |
| Endpoints.Agent.Tick | crates/avon-tunnel/src/endpoint.rs:189-209 | an idle session is reported and left alone; on any other open initiator session past its age or packet threshold, and only with the flag down, the flag goes up and the event is queued |
| Endpoints.Agent.HandleRekeyDue | crates/avon-agent-core/src/session_manager.rs:212-240 | the handler takes the protocol's offer step |
| Endpoints.Agent.HandleAck | crates/avon-agent-core/src/session_manager.rs:187-195 | the handler empties the pending slot, then rotates as the protocol does or, if completing fails, changes nothing more |
| Endpoints.Agent.Receive | crates/avon-agent-core/src/session_manager.rs:186-211 | open, then dispatch on the frame, is the protocol's receive step |
| Endpoints.GatewayEnd.HandleRekey | crates/avon-gateway/src/dataplane.rs:131-163 | answer under the old epoch, then rotate; no rotation if the answer could not be sent |
| Endpoints.GatewayEnd.Receive | crates/avon-gateway/src/dataplane.rs:125-178 | open, then dispatch on the frame, is the protocol's receive step |
| SessionTable.SessionTable.Insert | crates/avon-tunnel/src/table.rs:33-38 | every listed index and the id are bound to the session, everything else as before |
| SessionTable.SessionTable.RebindIndex | crates/avon-tunnel/src/table.rs:40-42 | one index is bound, nothing else changes |
| SessionTable.SessionTable.ReleaseIndex | crates/avon-tunnel/src/table.rs:44-46 | one index is unbound, nothing else changes |
| SessionTable.SessionTable.Remove | crates/avon-tunnel/src/table.rs:56-63 | the id and the session's listed indexes are unbound and that session alone is closed |
| SessionTable.ListedResolves | crates/avon-tunnel/src/table.rs:24-63 | in every run an index a live session lists resolves to that session |
| SessionTable.TightExact | crates/avon-tunnel/src/table.rs:33-63 | no index is stale at any point of a run exactly when every insert brings a new id and every rotation comes after the previous epoch expired |
| SessionTable.HitIsKnown | crates/avon-tunnel/src/endpoint.rs:133-146 | with no stale index a table hit is a live, open session and opening never answers "unknown index" |
| SessionTable.StaleIndexSurvives | crates/avon-tunnel/src/session.rs:297-312 | in any world without stale indexes, a second rotation within the overlap leaves an index that still resolves to the session once it has been removed |
| SessionTable.StaleRun | crates/avon-tunnel/src/table.rs:33-63 | insert, rotate, rotate, remove is such a run: the first index resolves to the removed, closed session |
| Ports.Parse | crates/avon-policy/src/spec.rs:52-67 | the parsing loop is the specification's reading of the text, including which part is the error |
| Ports.RoundTripExact | crates/avon-policy/src/spec.rs:76-101 | a port set reads back from its own text exactly when each range is in order |
| Entities.BuildEntities | crates/avon-policy/src/entities.rs:101-182 | pushing the entities one by one gives the specified store or error |
| Entities.StoreMirrors | crates/avon-policy/src/entities.rs:101-182 | a built store holds exactly the snapshot's pods and devices, with their parents and attributes, and the network |
| Entities.StoreMirrorsClasses | crates/avon-policy/src/entities.rs:117-122 | a built store holds exactly the snapshot's device classes |
| Entities.ReachFromPod | crates/avon-policy/src/entities.rs:106-115 | a pod is `in` exactly itself and the pods up its parent chain |
| Entities.ReachFromDevice | crates/avon-policy/src/entities.rs:134-179 | a device is `in` exactly itself, its class, its pods and their ancestors |
| Compiler.SourceMeans | crates/avon-policy/src/compile.rs:40-86 | the source part evaluates without error to the source selector's meaning |
| Compiler.DestMeans | crates/avon-policy/src/compile.rs:88-159 | the destination part evaluates without error to the meaning of the selector as honoured |
| Compiler.L4Means | crates/avon-policy/src/compile.rs:161-213 | the layer-4 part evaluates without error to the rules' meaning, admission requests bypassing it |
| Compiler.ConditionsMean | crates/avon-policy/src/compile.rs:215-260 | the posture and attestation part evaluates without error to the conditions' meaning, versions compared lexicographically |
| Compiler.CompiledPolicyMeans | crates/avon-policy/src/compile.rs:31-268 | for every validated document, snapshot, device in it and request, the compiled expression evaluates without error to exactly the document's meaning with its destination as honoured |
| Compiler.DestinationExact | crates/avon-policy/src/compile.rs:88-159 | the honoured destination always agrees with the written one exactly when no device class is named or the prefixes cover every address |
| Compiler.ClassOnlyWitness | crates/avon-policy/src/compile.rs:150-159 | for every selector and address outside that condition there is a snapshot and a request on which the two differ |
| Schedule.NextWindowChange | crates/avon-policy/src/time.rs:39-50 | the scan loop terminates with the specified change time, or the window's error |
| Schedule.NextChangeIsNext | crates/avon-policy/src/time.rs:39-50 | for whole-minute zones the change is ahead, at most eight days off, nothing changes before it, and it is a change unless eight days passed |
| Schedule.NextChangeOrNever | crates/avon-policy/src/time.rs:21-50 | with a fixed offset the reported time is a real change or the window never changes at any time |
| Schedule.RepeatsWeekly | crates/avon-policy/src/time.rs:21-36 | with a fixed offset activity repeats every week, overnight windows included |
| Schedule.ScanMissesNothingExact | crates/avon-policy/src/time.rs:39-50 | no window can change unnoticed before the reported time exactly when the start is non-negative or a whole minute |
| Engine.AssembleItems | crates/avon-policy/src/compile.rs:283-307 | the loop over examined entries gives the specified policy set, active ids, earliest change or first error |
| Engine.Compile | crates/avon-policy/src/compile.rs:277-315 | compiling in the loop is the specification's compilation |
| Engine.CompiledExactly | crates/avon-policy/src/compile.rs:277-315 | the compiled set holds every selected entry and nothing else |
| Engine.DecidesExactly | crates/avon-policy/src/engine.rs:189-234 | a decision allows exactly when the device is known and active, some active permit matches and no active forbid does; it reports exactly the entries that fired; "evaluation errors" never happens |
| Engine.OrderAndPriorityIrrelevant | crates/avon-policy/src/engine.rs:189-234 | reordering or repricing policies changes no decision |
| Engine.AddedDenyNeverAllows | crates/avon-policy/src/engine.rs:189-234 | adding a deny policy never turns a denial into an allow |
| Engine.LazyRecompilationSound | crates/avon-policy/src/engine.rs:133-148 | until the engine asks to be recompiled, compiling again selects the same policies and active ids |
| Engine.PatchIsReload | crates/avon-policy/src/engine.rs:108-131 | patching a device is reloading the snapshot with its attributes replaced, and keeps version and policies |
| Engine.PatchDoesNotInterfere | crates/avon-policy/src/engine.rs:108-131 | whenever the engine was loaded, after a patch every other source gets the decision the unpatched snapshot gives at the time of the patch, also when the patched device is the destination |
| Engine.PatchKeepsDecisions | crates/avon-policy/src/engine.rs:108-140 | if no recompile was due and no policy looks at the age of an update, that is the decision the engine gave before the patch |
| Engine.Engine.Load | crates/avon-policy/src/engine.rs:92-106 | the loaded snapshot is swapped in whole, or nothing changes |
| Engine.Engine.PatchDevice | crates/avon-policy/src/engine.rs:108-131 | the patched snapshot is swapped in whole, or nothing changes |
| Engine.Engine.Recompile | crates/avon-policy/src/engine.rs:142-148 | recompiling swaps in the same snapshot compiled at the new time |
| FlowPolicy.CacheRefinesEngine | crates/avon-gateway/src/policy_hook.rs:85-193 | in every steady run of snapshots, patches and checks, failed loads included, a check gets the verdict the engines alone give |
| FlowPolicy.KeySharingExact | crates/avon-gateway/src/policy_hook.rs:107-193 | of two flows with one key, the second gets the engines' verdict after the first has been checked, in every run, exactly when they agree on tenant, device and destination device; otherwise there is a run in which the cached verdict is wrong |
| FlowPolicy.CedarFlowPolicy.ApplySnapshot | crates/avon-gateway/src/policy_hook.rs:85-94 | the tenant's engine is loaded, or left as it was, and the cache is cleared on success only |
| FlowPolicy.CedarFlowPolicy.PatchDevice | crates/avon-gateway/src/policy_hook.rs:96-101 | the tenant's engine is patched if it can be, no other engine changes, and the cache is cleared always |
| FlowPolicy.CedarFlowPolicy.Allow | crates/avon-gateway/src/policy_hook.rs:107-193 | the verdict, its reason and the new cache entry are the specification's |
| Routes.NetworkContains | crates/avon-tunnel/src/routes.rs:24-26 | clearing host bits changes no membership, and a prefix contains an address exactly when clearing the address to its length gives the prefix |
| Routes.LookupExact | crates/avon-tunnel/src/routes.rs:57-59 | a lookup answers with the longest prefix containing the destination, and with nothing only if none contains it |
| Routes.RemovalKeepsOthers | crates/avon-tunnel/src/routes.rs:45-55 | removing a session's routes leaves every destination whose longest match was another's, and never resolves to the removed one |
| Routes.RouteTable.Insert | crates/avon-tunnel/src/routes.rs:33-37 | the prefix is stored with its host bits cleared |
| Routes.RouteTable.Remove | crates/avon-tunnel/src/routes.rs:39-43 | only that prefix goes |
| Routes.RouteTable.RemoveSession | crates/avon-tunnel/src/routes.rs:45-55 | exactly the session's entries go |
| Routes.RouteTable.Lookup | crates/avon-tunnel/src/routes.rs:57-59 | the search is the longest match |
| Gateway.GatewayState.AcceptOffer | crates/avon-gateway/src/control_link.rs:151-235 | a refused or revoked offer changes nothing; an accepted one installs table entry, routes and metadata; one without a tenant only the table entry |
| Gateway.GatewayState.CloseSession | crates/avon-gateway/src/state.rs:220-248 | table entry, routes and metadata go together; an unknown id changes nothing |
| Gateway.GatewayState.ApplyCrl | crates/avon-gateway/src/control_link.rs:265-301 | an older or unverifiable list is ignored; any other is put in force and closes exactly what it revokes |
| Gateway.GatewayState.ApplyRoutes | crates/avon-gateway/src/control_link.rs:246-260 | the prefixes that parse are added or removed in order |
| Gateway.RevokedNeverForwarded | crates/avon-gateway/src/control_link.rs:265-301 | in every run no session with metadata is revoked by the list in force, and only such a session's packets, from its own sources, are forwarded |
| Gateway.VersionNeverDecreases | crates/avon-gateway/src/control_link.rs:276-287 | the version in force never goes back along a run |
| Gateway.NewestInForce | crates/avon-gateway/src/control_link.rs:276-287 | the newest verified list of a run, the last of its version, is the one in force |
| Gateway.RelayExact | crates/avon-gateway/src/dataplane.rs:57-123 | a packet is relayed, egressed or ingressed exactly when sender, source, verdict and the longest prefix for its destination say so |
| Gateway.ClosedStaysSilent | crates/avon-gateway/src/state.rs:220-248 | after a close, the id not offered again, nothing from it is forwarded and nothing is sent to it, whatever routes name it |
| Gateway.CloseKeepsOtherRoutes | crates/avon-gateway/src/state.rs:220-248 | closing a session takes no destination from another |
| Gateway.OfferWins | crates/avon-gateway/src/control_link.rs:207-223 | an accepted offer's host addresses route to it, count as its device's and are its own sources |
| Gateway.ReplacementKeepsAddress | crates/avon-gateway/src/state.rs:61-77 | a session that took over an address keeps it when the superseded one is closed |
| Revocation.RevokedNeverHeard | crates/avon-tunnel/src/table.rs:33-63 | over session objects, both table maps, rotation and expiry included: in every run whose offers use new ids, a session whose packets are taken as its own has a certificate that is not revoked |
| Revocation.RevocationExact | crates/avon-gateway/src/control_link.rs:195-223 | accepting one more offer keeps this so, in every continuation whose offers use new ids, exactly when its id is not live |
| Forwarding.ForwardingRefines | crates/avon-gateway/src/dataplane.rs:57-123 | in every run of offers, closes, lists, route updates, snapshots, patches and packets, a packet fares as without the cache if every packet of its flow since the cache was last cleared put the same question |
| Forwarding.ForwardingExact | crates/avon-gateway/src/dataplane.rs:76-93 | of two packets of one flow with changes to the gateway in between, the second fares as without the cache under every policy exactly when one of them is not put to the policy or both put the same question |
| Forwarding.OfferStalesCache | crates/avon-gateway/src/control_link.rs:219-223 | an accepted offer that brings a device to an address already being sent to makes some policy's cached verdict for it wrong |
| Evidence.RoundTripExact | crates/avon-attest/src/evidence.rs:25-118 | evidence reads back as itself exactly when every length fits 16 bits |
| Evidence.AcceptedCanonical | crates/avon-attest/src/evidence.rs:25-88 | every accepted quote blob re-encodes to itself byte for byte |
| Evidence.Parse | crates/avon-attest/src/evidence.rs:25-88 | the cursor loop reads what the specification reads, error cases included |
| Evidence.Encode | crates/avon-attest/src/evidence.rs:90-118 | appending field by field gives the specified bytes |
| Quote.RoundTripExact | crates/avon-attest/src/tpms.rs:97-202 | a quote reads back as itself exactly when its blobs fit, its digest has 32 bytes and its PCRs are below 64 and strictly ascending |
| Quote.EncodedParses | crates/avon-attest/src/tpms.rs:97-202 | whatever order and repetition its PCRs come in, a quote that fits reads back with them ascending, each once |
| Quote.ParsedFits | crates/avon-attest/src/tpms.rs:97-164 | every parsed quote has fields that fit and PCRs below 64 in order |
| Quote.BitmapExact | crates/avon-attest/src/tpms.rs:187-199 | the built bitmap has exactly the listed bits set |
| Quote.ScanExact | crates/avon-attest/src/tpms.rs:139-145 | scanning a bitmap lists exactly its set bits, ascending |
| Quote.ParseQuote | crates/avon-attest/src/tpms.rs:97-164 | the reader-driven parser computes the specified parse |
| Quote.BuildBitmap | crates/avon-attest/src/tpms.rs:187-199 | marking bits in place gives the specified bitmap |
| Quote.EncodeQuote | crates/avon-attest/src/tpms.rs:169-202 | the appended output is the specified encoding |
| Cursor.Reader.Take | crates/avon-attest/src/tpms.rs:56-66 | the reader yields the next bytes and moves past them, or fails without moving |
| Cursor.Reader.Number | crates/avon-attest/src/tpms.rs:68-87 | the reader yields the next big-endian integer |
| Cursor.Reader.Blob | crates/avon-attest/src/tpms.rs:90-93 | the reader yields the next sized blob |
| Attestation.Verify | crates/avon-attest/src/verify.rs:47-152 | the checks in sequence accept exactly evidence that answers the nonce, has a safe clock, covers the required PCRs, matches the digest, is signed, and uses an accepted key |
| Attestation.HashPcrs | crates/avon-attest/src/verify.rs:96-108 | the loop hashes the sent values of the quoted PCRs in order, or fails if one is missing |
| Attestation.Control.Take | crates/avon-control/src/attest.rs:57-60 | the challenge is spent, and answers only while unexpired |
| Attestation.Control.Sweep | crates/avon-control/src/attest.rs:68-71 | exactly the expired challenges go |
| Attestation.Control.Record | crates/avon-control/src/attest.rs:155-194 | a pinned key survives every outcome but a verified one, which pins its own |
| Attestation.Control.HandleEvidence | crates/avon-control/src/attest.rs:76-153 | the handler's outcome and new state are the specification's, database failures included |
| Attestation.TakenIsLatest | crates/avon-control/src/attest.rs:38-71 | in every run evidence is judged against exactly the latest challenge while unexpired; sweeping is unobservable |
| Attestation.NonceJudgesOnce | crates/avon-control/src/attest.rs:55-60 | with fresh nonces no two pieces of evidence in a run are judged against the same one |
| Attestation.PinnedExact | crates/avon-control/src/attest.rs:118-152 | a verified outcome respects the pinned key, and leaves its own pinned exactly when the device has a row |
| Attestation.SameKeyAfterFirst | crates/avon-control/src/attest.rs:155-194 | after a verified outcome with the row in place every later one uses the same key, whatever lies between short of deleting the row |
| Attestation.PinnedAfterExact | crates/avon-control/src/attest.rs:118-194 | if a quote naming another key could convince at all, a verified outcome binds every later one, however the run goes on short of deleting the row, exactly when the device has a row at that moment |
| Attestation.RowNeeded | crates/avon-control/src/attest.rs:179-188 | evidence bytes and a run in which a device without a row gets two verified outcomes under different keys |
| Ipam.Devices.Allocate | crates/avon-control/src/ipam.rs:24-106 | the search loop allocates, stores and answers as specified |
| Ipam.LowestFree | crates/avon-control/src/ipam.rs:59-88 | a new address is the lowest free host, never the network, first or last address, within 32 bits; exhaustion is reported exactly when no host is free |
| Ipam.DistinctV4 | crates/avon-control/src/ipam.rs:43-106 | in every run no two devices hold the same IPv4 address |
| Ipam.PairStable | crates/avon-control/src/ipam.rs:43-57 | a device is given the same pair again for as long as its row exists |
| Ipam.PoolFits | crates/avon-control/src/ipam.rs:74-78 | the pool's base is aligned and base plus size fits the address width, so no addition overflows |
| Ipam.DistinctV6Exact | crates/avon-control/src/ipam.rs:85-88 | no two devices share an IPv6 address in any run exactly when the IPv6 network is clear of the IPv4 host bits or there is at most one host to give out |
| Ipam.InsideExact | crates/avon-control/src/ipam.rs:85-88 | every IPv6 address of every run lies inside the pool exactly when each IPv4 host bit that sticks out of the IPv6 host part, and that some host has, is set in the IPv6 network already |
| Ipam.MirrorInPool | crates/avon-control/src/ipam.rs:85-88 | with an IPv6 host part at least as wide as the IPv4 one, in every run the IPv6 addresses are distinct and inside the pool |
| Wire.Wire.ReadLine | crates/avon-agent/src/helper/wire.rs:40-67 | the receive loop reads as specified, and its buffer stays within one chunk of the cap on any input |
| Wire.Send | crates/avon-agent/src/helper/wire.rs:78-94 | whatever the partial writes, empty ones included, the pieces are the line and its newline, a proper prefix on failure, with the descriptor on each write up to the first that moves something |
| Wire.DescriptorOnce | crates/avon-agent/src/helper/wire.rs:83-91 | if the first write moves something the descriptor rides with that write only |
| Wire.ReadsFirstLine | crates/avon-agent/src/helper/wire.rs:40-67 | however the stream is cut, a read gives the first line if within the cap, else the end |
| Wire.DeliversLines | crates/avon-agent/src/helper/wire.rs:40-67 | for every chunking of a stream of short lines successive reads give exactly its lines in order, then the end |
| Wire.CapExact | crates/avon-agent/src/helper/wire.rs:50-52 | a first line is safe from "oversized" under every chunking exactly when it is within the cap |
| Wire.BufferBounded | crates/avon-agent/src/helper/wire.rs:50-65 | no read leaves more than the cap plus a chunk in the buffer |
| Wire.FramingExact | crates/avon-agent/src/helper/wire.rs:69-94 | short lines survive framing exactly when none contains a newline |
| Wire.SentIsRead | crates/avon-agent/src/helper/wire.rs:40-94 | lines sent are read back one by one, for any chunking |
| Wire.FdsConserved | crates/avon-agent/src/helper/wire.rs:46-48 | no descriptor is lost or handed out twice |
| Checksum.Accumulate | crates/avon-tun/src/checksum.rs:33-42 | the loop sums the big-endian words, an odd last byte as a high half, in 32 bits |
| Checksum.Checksum | crates/avon-tun/src/checksum.rs:33-47 | the fold loop terminates with the specified checksum |
| Checksum.FoldKeeps | crates/avon-tun/src/checksum.rs:43-45 | folding keeps the value modulo 65535, and zero only for zero |
| Checksum.NoOverflowExact | crates/avon-tun/src/checksum.rs:33-42 | the 32-bit sum cannot overflow, whatever the bytes, exactly up to 131074 bytes |
| Checksum.FixIpv4AndIcmp | crates/avon-tun/src/checksum.rs:2-31 | fixing in place gives the specified packet |
| Checksum.FixedChecks | crates/avon-tun/src/checksum.rs:2-31 | afterwards the header checks to zero, and so does an ICMP body, odd lengths included |
| Checksum.FixedChangesOnly | crates/avon-tun/src/checksum.rs:10-30 | only the checksum bytes change |
| Checksum.PayloadKeptExact | crates/avon-tun/src/checksum.rs:13-30 | a packet that is not ICMP keeps everything but its header checksum exactly when fewer than four bytes follow the header or the third and fourth of them are zero already |
| Checksum.UdpPortLost | crates/avon-tun/src/checksum.rs:13-17 | a UDP packet to port 53 comes out addressed to port 0 |

## Left out

- Rekey with several initiator sessions, peer sessions, and progress after a lost answer or a failed completion: the pending flag is then never cleared, so what is claimed is `RekeyProtocol.RekeyCompletes` and which states can recover at all (`Recovery.RejoinExact`).
- The queue between the receive loop and the event handlers, and lock-level interleavings: a packet's opening and its handling are one step, and each handler is atomic.
- The 32-bit epoch counter's wrap-around; session statistics, peer endpoints, keepalives and how idle time is measured.
- The shared index table during rekey: a new index is asked to be free in its own session only, which is all the protocol needs; `SessionTable` treats freedom across sessions.
- The random index allocator: which free index a step gets is part of the event, so its retry loop is not modelled.
- Real key schedules, KEM, AEAD, certificate chains and signatures; protobuf, JSON and UUID text; Cedar's concrete syntax.
- Engine.LazyRecompilationSound: is about the active policy set, not about attributes that age between recompiles, such as hours since the last update.
- Calendar range errors of the time library, 64-bit overflow of timestamps, and the overlay address fields of device attributes, which no policy reads.
- Textual limits of the Cedar `ip()` constructor: it is taken to accept every address and prefix. The library refuses IPv4 embedded in IPv6, so an IPv4-mapped destination or prefix, which Rust prints in that form, would end in a build or evaluation error that the model does not have.
- Parsing packets into flows, MUD import, the control plane's session rows, and closing sessions when a device turns inactive.
- Gateway.GatewayState.AcceptOffer: the table is the set of live ids; session objects and receiver indexes are in `Revocation`.
- Gateway.RelayExact: the flow verdict is an arbitrary function of session, metadata, destination device and flow; `FlowPolicy` treats the verdict itself.
- Attestation.Verify: the reason text and the digest, counters and firmware version it reports are not modelled, only the resulting level.
- Attestation.Control.Record: of the written document only the level and the pinned key are modelled.
- Runs of attestation take decoded evidence and an arbitrary judge of quotes, so that they hold whatever the checks; `Attestation.Control.HandleEvidence` ties both to the bytes and to the program's checks.
- Ipam.Devices.Allocate: the returned prefix lengths are the pool's and are not modelled; rows belong to one tenant.
- Checksum.FixedChecks: is stated up to the length for which the 32-bit sum cannot overflow, beyond which the sum wraps or the program stops depending on how it was built.
- Databases, Redis, gRPC, TLS, key stores, TPM calls, TUN devices, firewall, configuration, observability and the administration API.
