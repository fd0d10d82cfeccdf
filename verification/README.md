# Verified model of the ENTITY wallet, domain client and stores

A Dafny model of the state machines and codecs of the ENTITY repository that are complete in its source, with proofs of
what they keep over every input and every run. `dafny verify dfyconfig.toml` checks the whole project.

| part | modules |
|---|---|
| canonical JSON of the clean-room client | JsonValue, CanonicalOrder, JsonText, Utf8, CanonicalJson, SameValueFacts, CanonicalExamples |
| length-prefixed frames over a fragmenting stream | Framing |
| record, proof and export verification | SovereignDomain, DomainTheorems, DomainMeaning, HonestDomain, HonestPackages, DomainWire |
| direct-service handshake, both sides | Handshake, HandshakeWire, NodeRuntime |
| data source gateway | PathContainment, DataSourceGateway, GatewayTheorems |
| rights profile and instrument guards of the wallet | RightsProfile |
| activation of a transferred asset | Activation, ActivationTheorems |
| formula storage and reconstruction | FormulaStorage |
| display symbols | InstrumentSymbol, SymbolMeaning |
| application ingest | ApplicationIngest |
| encrypted vault | EncryptedVault |
| federation trust store | FederationTrust |
| independent node envelopes | NodeEnvelope, EnvelopeMeaning |

Each object whose methods change its fields is a class, each of its methods is proved against a function of the old
state, and the theorems are about that function: one call, then runs of calls. Loops of the source are loops here.

## What is assumed of the surroundings

- SHA-256 is any function. A theorem that turns equal digests into equal bytes either offers the collision as the other
  outcome or says `NoCollision` about the very bytes it compares.
  Node envelopes take digests to be non-empty texts (`Digests`), as hex digests are.
- Ed25519 is any predicate on key, signature and message. Unforgeability is a premise on signatures, never on what the
  client concludes from them: an identity's keys sign only what was issued (`SignsOnly`), and the signature text of a
  message in transit verifies only for what a holder of the key signed (`Handshake.Genuine`).
- Authenticated encryption opens only under its own key and associated data.
- SQLite tables are sequences or maps with atomic updates, and calls run one after another. `authenticate` reads and
  writes in two transactions; it is one step here.
- Generated ids, keys and nonces, clocks and the existence of paths are arguments. Where freshness matters it is a
  premise of the run (`Possible`).
- Passport stores only grow, in order of creation, so the place of a passport is its id and its age.
- The formula kernel may answer anything. The theorems that need more say `reliable`: it keeps what it was given and
  counts honestly. It hashes what it writes honestly in either case.
- Upper and lower case, stripping, alphanumeric characters, glob matching, path resolution, `int()` and `str()` of what is
  no text are parameters.

## Where the code differs from what one might expect

Each of these is kept as the code has it, and the exact condition is proved.

- Empty files cannot be stored: a reported size of zero reads as -1 (tools/entity_wallet_desktop.py:311). Reconstruction
  is the identity exactly on what can be stored (`FormulaStorage.StoreAndReconstruct`).
- An owner who sells an asset and buys it back counts as active through the old passport, and instruments are then issued
  from the other party's latest passport. The latest passport is the caller's own exactly under the condition of
  `ActivationTheorems.OwnPassportIsLatest`; `ReacquisitionReplays` is the concrete run.
- The guard against a passport that the status missed can be reached, though only when the look-up of the status raises,
  which the status takes for no passport (tools/entity_wallet_desktop.py:727-730). The exact condition is
  `ActivationTheorems.GuardReachedExactly`.
- Series of a regional class can share a symbol once base and region code total more than 19 characters
  (`InstrumentSymbol.RegionalSeriesDistinct`). Uncut, two regional symbols coincide exactly when one region is the other
  followed by its series mark (`RegionsCoincide`, `RegionsAmbiguous`, and the pair of `RegionsMeet`).
- An OFF source is skipped when the deciding source is looked for, so its root may be traced through an enclosing source
  although it is never listed. List and decision agree exactly when `GatewayTheorems.ListingAgrees` says;
  `OffRootExample` is a reachable disagreement.
- Flags alone decide every purpose but tracing, which also needs the mode: content permission comes with INDEX, tracing
  only with PROVENANCE or MANAGED (`GatewayTheorems.FlagsDecide`).
- Ledger entries equal remembered keys exactly when no call stopped between the two writes
  (`ApplicationIngest.LedgerMatchesKeys`; `TornCallHappens` is such a call).
- A call that raises does not undo its writes. It leaves everything as it was exactly under the condition of
  `ApplicationIngest.RaisedChangesNothing`; an incomplete rights claim, refused after the asset was registered, is one
  case where it does not.
- The trust store remembers one nonce, so an accepted claim can be accepted again. `FederationTrust.ReplayExactly` says
  when, and `EarlierNonceReturns` is a run in which it is.
- A lifecycle call that stops after removing a file leaves the state as it was. The object is then unreadable for good,
  which is why readability speaks of destructions asked for, not only of those completed
  (`EncryptedVault.ReadableExactly`).

## Model

| member | source | states |
|---|---|---|
| `JsonText.ReadEscaped` | genesis_master/23_Independent_Interop_Cleanroom/independent_domain.py:11 | reading the characters of any escaped string up to its closing quote gives back the string and exactly what follows, for every character including controls and quotes |
| `JsonText.ReadPrinted` | genesis_master/23_Independent_Interop_Cleanroom/independent_domain.py:11 | for every value the RFC 8259 reader recovers the printed value and stops right behind it, whatever follows; only a number needs that what follows does not carry it on |
| `Utf8.DecodeEncoded` | genesis_master/23_Independent_Interop_Cleanroom/independent_domain.py:11 | UTF-8 decoding undoes encoding on every string |
| `Utf8.EncodeDecoded` | genesis_master/23_Independent_Interop_Cleanroom/independent_domain.py:113 | the decoder accepts only shortest forms: re-encoding what was decoded gives the same bytes |
| `CanonicalOrder.NormalIsCanonical` | genesis_master/23_Independent_Interop_Cleanroom/independent_domain.py:11 | sorting keys at every level yields a value whose keys are strictly increasing throughout, in the order of the next row |
| `CanonicalOrder.LessMeansBefore` | genesis_master/23_Independent_Interop_Cleanroom/independent_domain.py:11 | the key order is code point order: a proper prefix comes first, otherwise the smaller code point at the first difference |
| `CanonicalOrder.NormalAscends` | genesis_master/23_Independent_Interop_Cleanroom/independent_domain.py:11 | after sorting, the keys of every object at every depth ascend in that order |
| `JsonText.EscapedExactly` | genesis_master/23_Independent_Interop_Cleanroom/independent_domain.py:11 | only quotes, backslashes and controls are escaped, five of them by a letter and the others by their code in lower-case hex |
| `JsonText.PrintIsCompact` | genesis_master/23_Independent_Interop_Cleanroom/independent_domain.py:11 | printed text has no space outside its strings, and closes each of them |
| `CanonicalExamples.SampleBytes` | genesis_master/23_Independent_Interop_Cleanroom/independent_domain.py:11 | the exact bytes of an object with two unsorted keys, escapes, characters of two and four bytes and a list |
| `CanonicalExamples.LeadingSpace` | genesis_master/23_Independent_Interop_Cleanroom/independent_domain.py:113 | each of the four white space characters before a value is skipped |
| `CanonicalExamples.EscapeByCode` | genesis_master/23_Independent_Interop_Cleanroom/independent_domain.py:113 | an escaped code that is no surrogate reads as that character |
| `CanonicalExamples.EscapeByPair` | genesis_master/23_Independent_Interop_Cleanroom/independent_domain.py:113 | two escaped surrogates read as the one character they encode |
| `CanonicalExamples.HexSpelt` | genesis_master/23_Independent_Interop_Cleanroom/independent_domain.py:113 | four hex digits of either case read as the number they spell |
| `CanonicalOrder.SameNormal` | genesis_master/23_Independent_Interop_Cleanroom/independent_domain.py:11 | two values have the same sorted form exactly when they are equal up to the order of object keys |
| `CanonicalJson.LoadsCanon` | genesis_master/23_Independent_Interop_Cleanroom/independent_domain.py:11 | canonical bytes are read back as the value printed, its keys sorted |
| `CanonicalJson.CanonEquality` | genesis_master/23_Independent_Interop_Cleanroom/independent_domain.py:11-12 | two values have equal canonical bytes if and only if they are equal up to the order of object keys |
| `CanonicalJson.CanonStable` | genesis_master/23_Independent_Interop_Cleanroom/independent_domain.py:11 | canonical bytes survive any number of reads and prints unchanged |
| `CanonicalJson.LoadsWellFormed` | genesis_master/23_Independent_Interop_Cleanroom/independent_domain.py:113 | whatever bytes arrive, an accepted value has unique keys in every object |
| `JsonText.ReadKeepsLast` | genesis_master/23_Independent_Interop_Cleanroom/independent_domain.py:113 | an object read from text has exactly the keys written, and under each the value written last for it |
| `Framing.Socket.RecvFrame` | genesis_master/23_Independent_Interop_Cleanroom/independent_domain.py:100-113 | the two reading loops terminate and, under every schedule of pieces, return what the whole stream determines and consume exactly that many bytes |
| `Framing.Socket.SendFrame` | genesis_master/23_Independent_Interop_Cleanroom/independent_domain.py:98-99 | sending appends four length bytes and the canonical bytes, or nothing when the length does not fit |
| `Framing.LengthRoundTrip` | genesis_master/23_Independent_Interop_Cleanroom/independent_domain.py:99-106 | every length below 2^32 survives its four big-endian bytes |
| `Framing.LengthIsBigEndian` | genesis_master/23_Independent_Interop_Cleanroom/independent_domain.py:99-106 | the i-th of the four bytes is n / 256^(3-i) modulo 256, and any four bytes read as their big-endian sum |
| `Framing.ZeroLength` | genesis_master/23_Independent_Interop_Cleanroom/independent_domain.py:107 | a length of zero is refused and what follows is left unread |
| `Framing.ReceiveSent` | genesis_master/23_Independent_Interop_Cleanroom/independent_domain.py:98-113 | a frame within the limit is received as its value with nothing else consumed; above the limit it is refused before any body byte is read |
| `Framing.CutFrame` | genesis_master/23_Independent_Interop_Cleanroom/independent_domain.py:103-111 | a stream cut anywhere inside a frame raises and yields no value |
| `Framing.ReceiveAllSent` | genesis_master/23_Independent_Interop_Cleanroom/independent_domain.py:98-113 | k receives after k sends give exactly the sent values in order and leave exactly the later bytes |
| `Framing.StreamDeterminesValues` | genesis_master/23_Independent_Interop_Cleanroom/independent_domain.py:98-113 | equal byte streams carry equally many, pairwise equal messages |
| `SovereignDomain.VerifyExport` | genesis_master/23_Independent_Interop_Cleanroom/independent_domain.py:74-96 | the early-exit walk accepts exactly the packages in which every part holds under the embedded identity |
| `SovereignDomain.Validate` | genesis_master/23_Independent_Interop_Cleanroom/independent_domain.py:34-73 | the dispatcher with its running flag over pairs answers, or raises, as the vector by vector definition says |
| `DomainMeaning.VerifyIdentityExactly` | genesis_master/23_Independent_Interop_Cleanroom/independent_domain.py:15-25 | an identity is accepted if and only if the first of its own methods with the key id it names is an active Ed25519 key that signed all of it but the signature |
| `DomainMeaning.VerifyRecordExactly` | genesis_master/23_Independent_Interop_Cleanroom/independent_domain.py:15-33 | a record is accepted if and only if its signature names the identity and the digest of the rest, and the first method of the identity with that key id is an Ed25519 key that signed the header |
| `DomainMeaning.ValidateExactly` | genesis_master/23_Independent_Interop_Cleanroom/independent_domain.py:36-50 | what each signed vector accepts, field by field: schema and root, ACTIVE for a node authorization, no inferred provider authority for a service, and a record signature over the material without what may be appended |
| `DomainMeaning.PlainVectorsExactly` | genesis_master/23_Independent_Interop_Cleanroom/independent_domain.py:51-63 | the relay, restore and history vectors and an unknown name, field by field |
| `DomainMeaning.VersionVectors` | genesis_master/23_Independent_Interop_Cleanroom/independent_domain.py:54-57 | rollback compares the presented with the known version, each under its domain name or else its short one, zero by default |
| `DomainMeaning.StaleVector` | genesis_master/23_Independent_Interop_Cleanroom/independent_domain.py:58-61 | a service manifest is current if and only if its version is at least the known one |
| `DomainMeaning.WithoutIdentity` | genesis_master/23_Independent_Interop_Cleanroom/independent_domain.py:35-50 | with no identity nothing that needs a signature of one is accepted |
| `DomainMeaning.OwnIdentity` | genesis_master/23_Independent_Interop_Cleanroom/independent_domain.py:35-63 | with no identity an identity is judged by its own keys, and only what names no root is restored |
| `DomainMeaning.ProofExactly` | genesis_master/23_Independent_Interop_Cleanroom/independent_domain.py:64-71 | a resolution proof is accepted if and only if its head is in order and every pair is an ACTIVE node authorization and a plain service of one root, domain and node id, both signed, the node effectively ACTIVE |
| `DomainMeaning.ProofRaises` | genesis_master/23_Independent_Interop_Cleanroom/independent_domain.py:64-71 | validation of a proof raises if and only if its services are no list, a pair is no dict, or a part that is no dict is reached while all before was in order |
| `DomainMeaning.ExportLists` | genesis_master/23_Independent_Interop_Cleanroom/independent_domain.py:78-93 | each node of an accepted export is an ACTIVE authorization, each service a plain one, and these, the name claim, the revocations, the manifest and the identity are all signed |
| `DomainMeaning.ExportExactly` | genesis_master/23_Independent_Interop_Cleanroom/independent_domain.py:74-96 | an export is accepted if and only if it is complete, self-signed, committed to by its manifest, needs nothing outside, lists only such nodes and services and carries the digest of the rest |
| `DomainMeaning.ExportValidated` | genesis_master/23_Independent_Interop_Cleanroom/independent_domain.py:72 | validate accepts exactly the sound exports, under any identity it does not raise for |
| `HonestDomain.ValidateHonest` | genesis_master/23_Independent_Interop_Cleanroom/independent_domain.py:37-50 | a claim, node authorization, revocation or service built field by field and signed with a listed key is accepted, extras included |
| `HonestPackages.ValidateHonestProof` | genesis_master/23_Independent_Interop_Cleanroom/independent_domain.py:64-71 | a proof built from such nodes and services is accepted |
| `HonestPackages.VerifyHonestExport` | genesis_master/23_Independent_Interop_Cleanroom/independent_domain.py:74-96 | the package a root builds of its identity, any such nodes with revocations, services, name and a manifest of the right digests is accepted |
| `SovereignDomain.RollbackVectorsAgree` | genesis_master/23_Independent_Interop_Cleanroom/independent_domain.py:54-57 | where both versions can be read, rollback detection passes exactly when the rollback vector fails and refusal was expected |
| `DomainTheorems.HeaderBindsBody` | genesis_master/23_Independent_Interop_Cleanroom/independent_domain.py:26-33 | two accepted records with equal signed headers have equal bodies, or their canonical bytes are a digest collision |
| `DomainTheorems.AcceptedWasIssued` | genesis_master/23_Independent_Interop_Cleanroom/independent_domain.py:26-33 | with unforgeable keys, the body of an accepted record is one that was issued under the identity |
| `DomainTheorems.NodesAreIssued` | genesis_master/23_Independent_Interop_Cleanroom/independent_domain.py:87-91 | every node of an accepted export, and every revocation it carries, names the embedded root and was issued under the embedded identity |
| `DomainTheorems.ServicesAreIssued` | genesis_master/23_Independent_Interop_Cleanroom/independent_domain.py:92-93 | the same for every service of an accepted export |
| `DomainTheorems.ManifestAndNameIssued` | genesis_master/23_Independent_Interop_Cleanroom/independent_domain.py:80-86 | the same for the export manifest and the name claim, and the manifest names the root |
| `DomainTheorems.ManifestFixesExport` | genesis_master/23_Independent_Interop_Cleanroom/independent_domain.py:83-84 | two accepted packages with equal export manifests have the same identity and the same domain snapshot, or a digest collision |
| `DomainTheorems.HeaderFixesExport` | genesis_master/23_Independent_Interop_Cleanroom/independent_domain.py:26-33 | equality of the signed header of the manifest alone is enough for that |
| `DomainTheorems.ProofPairIssued` | genesis_master/23_Independent_Interop_Cleanroom/independent_domain.py:65-71 | in an accepted resolution proof every pair binds one active node to a service of the same root, domain and node id, both issued under the identity |
| `DomainTheorems.ExportIsWhole` | genesis_master/23_Independent_Interop_Cleanroom/independent_domain.py:74-84 | an accepted export has an identity signed by an active Ed25519 key of its own, one root and one domain throughout, and asks for no outside authority |
| `DomainTheorems.PackageHashFixesPackage` | genesis_master/23_Independent_Interop_Cleanroom/independent_domain.py:94-95 | two accepted packages with equal package digests are equal up to key order, or their bytes collide |
| `DomainTheorems.ValidatedIsIssued` | genesis_master/23_Independent_Interop_Cleanroom/independent_domain.py:37-50 | a claim, node authorization, revocation or service manifest that validate accepts names the identity's root and was issued under it |
| `DomainWire.RecordTwins` | genesis_master/23_Independent_Interop_Cleanroom/independent_domain.py:26-33 | record verification does not depend on key order anywhere in record or identity |
| `DomainWire.ExportTwins` | genesis_master/23_Independent_Interop_Cleanroom/independent_domain.py:74-96 | neither does export verification |
| `DomainWire.ExportSurvivesWire` | genesis_master/23_Independent_Interop_Cleanroom/independent_domain.py:74-96 | a package is accepted after canonical transport exactly when it was accepted before |
| `Handshake.SelectExactly` | genesis_master/23_Independent_Interop_Cleanroom/independent_domain.py:115-120 | a session opens if and only if every pair can be read, exactly one offers the requested service, and its node is active with an id and its service has an endpoint; no offer or several, or an inactive node, give their own errors |
| `Handshake.JudgedHello` | genesis_master/23_Independent_Interop_Cleanroom/independent_domain.py:122-128 | an accepted hello carries this session's node id, service id, client key and nonce, the digest of its signed part, and a signature on it that verifies under the node's key |
| `Handshake.HonestHelloAccepted` | genesis_master/23_Independent_Interop_Cleanroom/independent_domain.py:122-128 | the answer of an honest node to this session, signed with its key, is accepted |
| `HandshakeWire.JudgeExactly` | genesis_master/23_Independent_Interop_Cleanroom/independent_domain.py:123-128 | a server hello is accepted if and only if it is complete, repeats the session, names the digest of its seven signed fields and carries the node signature on them; and which refusal each broken rule gives |
| `HandshakeWire.JudgeTwins` | genesis_master/23_Independent_Interop_Cleanroom/independent_domain.py:123-128 | the verdict, its error included, does not depend on the order of keys |
| `HandshakeWire.HelloArrives` | genesis_master/23_Independent_Interop_Cleanroom/independent_domain.py:120-122 | the frame a client sends is read by its peer as a dict of exactly five fields: the schema, the node id and the caller's service id, client key and nonce |
| `Handshake.Connect` | genesis_master/23_Independent_Interop_Cleanroom/independent_domain.py:114-128 | what one call sends, consumes and answers, success and every failure included; a success is for the requested service of an active node and is vouched for by a verifying signature |
| `Handshake.DataPhaseIsBound` | genesis_master/23_Independent_Interop_Cleanroom/independent_domain.py:124-128 | in every run of sessions with delayed, repeated or swapped hellos, a session in the data phase holds a hello carrying its own node id, service id, client key and nonce, which a holder of its node's key signed |
| `Handshake.HelloAdmitsOne` | genesis_master/23_Independent_Interop_Cleanroom/independent_domain.py:119-128 | with fresh nonces, hellos with equal signed bytes never admit two sessions |
| `Handshake.OpenedFrom` | genesis_master/23_Independent_Interop_Cleanroom/independent_domain.py:115-117 | every session of a run was selected from the proof of one of its opening calls |
| `Handshake.SelectedAuthorised` | genesis_master/23_Independent_Interop_Cleanroom/independent_domain.py:115-120 | when validation accepted the proof, the node, active and with its key, and the very service requested are covered by what the root issued |
| `Handshake.DataPhaseIsAuthorised` | genesis_master/23_Independent_Interop_Cleanroom/independent_domain.py:114-128 | in every run over accepted proofs, a session in the data phase was answered by a holder of a key the root authorised for the active node of the service an opening call asked for |
| `NodeRuntime.EntityNodeRuntime.Handle` | genesis_master/22_Sovereign_Domain/node_runtime/canonical_node_runtime.py:92-102 | the node reads one hello, notes its nonce once it admits it, and sends the signed answer or nothing |
| `NodeRuntime.HeardExactly` | genesis_master/22_Sovereign_Domain/node_runtime/canonical_node_runtime.py:93-98 | a hello is admitted if and only if it has the schema, names this node and one of its services, and carries a nonce not seen; the same nonce again is not |
| `NodeRuntime.AdmittedOnce` | genesis_master/22_Sovereign_Domain/node_runtime/canonical_node_runtime.py:96-97 | over any sequence of hellos no nonce is admitted twice |
| `NodeRuntime.AnswerArrives` | genesis_master/22_Sovereign_Domain/node_runtime/canonical_node_runtime.py:100-102 | the answer a node makes of the hello it admitted is accepted by the session that sent it, after transport too |
| `NodeRuntime.ConnectToNode` | genesis_master/23_Independent_Interop_Cleanroom/independent_domain.py:114-128 | a client with a new nonce connecting to the node it selected succeeds: the node reads just what was sent, and both hold the same signed body |
| `PathContainment.EnclosesIsContainment` | genesis_master/08_Data_Vaults/canonical_data_source_gateway.py:133 | on normalised absolute paths, the bare root included, the text prefix test holds exactly when the root's components are a prefix of the target's |
| `PathContainment.TextDetermines` | genesis_master/08_Data_Vaults/canonical_data_source_gateway.py:24-25 | different normalised paths never share a text |
| `PathContainment.ContainersFormChain` | genesis_master/08_Data_Vaults/canonical_data_source_gateway.py:129-137 | all roots that contain one target contain each other in a chain |
| `PathContainment.DeeperIsLonger` | genesis_master/08_Data_Vaults/canonical_data_source_gateway.py:137 | along that chain a deeper root has the longer text, so the longest text is the deepest root |
| `DataSourceGateway.Gateway.constructor` | genesis_master/08_Data_Vaults/canonical_data_source_gateway.py:49-60 | a new store holds the default never-touch exclusions, and no source |
| `DataSourceGateway.Gateway.Reopen` | genesis_master/08_Data_Vaults/canonical_data_source_gateway.py:56-60 | reopening inserts the defaults exactly when no global hard exclusion is there |
| `DataSourceGateway.Gateway.EnrollSource` | genesis_master/08_Data_Vaults/canonical_data_source_gateway.py:74-99 | the refusal is the first rule broken; otherwise the row is inserted, or updated in place keeping id and creation time |
| `DataSourceGateway.Gateway.AddExclusion` | genesis_master/08_Data_Vaults/canonical_data_source_gateway.py:107-117 | an accepted call appends one exclusion with this source, the cleaned pattern and this hardness and changes nothing else; a refused one names its reason and changes nothing |
| `DataSourceGateway.Gateway.MatchingSource` | genesis_master/08_Data_Vaults/canonical_data_source_gateway.py:127-137 | the loop returns the first longest among the matching rows that are not OFF |
| `DataSourceGateway.Gateway.FindExclusion` | genesis_master/08_Data_Vaults/canonical_data_source_gateway.py:139-147 | hard exclusions are looked at first, then soft ones, each in stored order |
| `DataSourceGateway.Gateway.AssessPath` | genesis_master/08_Data_Vaults/canonical_data_source_gateway.py:148-170 | the decision: not enrolled, excluded with the exclusion, or decided by the row |
| `DataSourceGateway.Gateway.RootsForProvenance` | genesis_master/08_Data_Vaults/canonical_data_source_gateway.py:172-177 | the list holds exactly the roots of the controller's rows whose mode and flags allow tracing |
| `GatewayTheorems.MatchIsDeepest` | genesis_master/08_Data_Vaults/canonical_data_source_gateway.py:127-137 | the deciding source is the unique row that is not OFF, contains the target and lies inside every other such row |
| `GatewayTheorems.FirstOfLongest` | genesis_master/08_Data_Vaults/canonical_data_source_gateway.py:137 | of covering roots with equally long texts the first decides |
| `GatewayTheorems.AssessedExactly` | genesis_master/08_Data_Vaults/canonical_data_source_gateway.py:148-170 | not enrolled, excluded or decided: exactly when no source covers the target, the deepest one hides it by an exclusion of its own or of all, or neither |
| `GatewayTheorems.RequestExactly` | genesis_master/08_Data_Vaults/canonical_data_source_gateway.py:63-91 | an enrolment is refused exactly when a rule of its mode is broken, and by the first one |
| `GatewayTheorems.UpsertExactly` | genesis_master/08_Data_Vaults/canonical_data_source_gateway.py:96-98 | a known root keeps place, id and creation time and takes the rest; a new one is appended; no other row changes |
| `GatewayTheorems.OpenedExactly` | genesis_master/08_Data_Vaults/canonical_data_source_gateway.py:56-60 | opening adds each default pattern once, hard and for every source, or nothing |
| `GatewayTheorems.EnrolmentIsLocal` | genesis_master/08_Data_Vaults/canonical_data_source_gateway.py:96-98 | enrolling or re-enrolling a root changes no decision for a target outside it, nor for one that a deeper row covers |
| `GatewayTheorems.ReachableInv` | genesis_master/08_Data_Vaults/canonical_data_source_gateway.py:49-117 | in every reachable state roots are distinct, every row obeys the ceilings and all default exclusions are present |
| `GatewayTheorems.FlagsDecide` | genesis_master/08_Data_Vaults/canonical_data_source_gateway.py:156-170 | in every reachable state the decision is that of the flags alone, except that tracing also needs mode PROVENANCE or MANAGED |
| `GatewayTheorems.NikiAndTraceNeedContent` | genesis_master/08_Data_Vaults/canonical_data_source_gateway.py:162-167 | whatever may be fed to NIKI or traced may also be read |
| `GatewayTheorems.ReportedExclusion` | genesis_master/08_Data_Vaults/canonical_data_source_gateway.py:139-147 | an exclusion is reported exactly when one applies, and it is a hard one exactly when a hard one applies |
| `GatewayTheorems.NeverTouched` | genesis_master/08_Data_Vaults/canonical_data_source_gateway.py:10-17 | a path matching a default pattern is allowed for no purpose in any reachable state, and the reason is a hard exclusion unless no source covers it |
| `GatewayTheorems.ExclusionsOnlyDeny` | genesis_master/08_Data_Vaults/canonical_data_source_gateway.py:107-117 | over every run of exclusions and reopenings, what is allowed at the end was allowed at the start |
| `GatewayTheorems.ExcludedForGood` | genesis_master/08_Data_Vaults/canonical_data_source_gateway.py:107-116 | after an exclusion that is not refused, in every later state a target matching its pattern is allowed for no purpose under that source, or under any if none was named, and the report is hard if the exclusion was |
| `GatewayTheorems.IdsAndExclusionsPersist` | genesis_master/08_Data_Vaults/canonical_data_source_gateway.py:97 | over every run a root keeps its id and every exclusion stays |
| `GatewayTheorems.SourceExclusionIsPermanent` | genesis_master/08_Data_Vaults/canonical_data_source_gateway.py:97-116 | an exclusion of a source still denies after any number of enrolments of its root |
| `GatewayTheorems.ListedExactly` | genesis_master/08_Data_Vaults/canonical_data_source_gateway.py:172-177 | the list holds exactly the roots with content permission in mode PROVENANCE or MANAGED, of the controller or of all when none is given |
| `GatewayTheorems.ListedIsTraceable` | genesis_master/08_Data_Vaults/canonical_data_source_gateway.py:172-177 | a root that is not excluded is listed exactly when its own row decides that it may be traced; for rows that are not OFF this is what the decision at the root says |
| `GatewayTheorems.ListingAgrees` | genesis_master/08_Data_Vaults/canonical_data_source_gateway.py:131-177 | list and decision agree on a root that is not excluded if and only if the root is not OFF or no enclosing source traces it |
| `GatewayTheorems.OffRootIsTracedUnlisted` | genesis_master/08_Data_Vaults/canonical_data_source_gateway.py:131 | the disagreement is reachable: enrolling an OFF root inside a traceable source of a new store makes it traced and unlisted, unless a default pattern matches it |
| `GatewayTheorems.OffRootExample` | genesis_master/08_Data_Vaults/canonical_data_source_gateway.py:131 | two concrete enrolments of which that is true |
| `RightsProfile.InstrumentRightsProfile` | tools/entity_wallet_desktop.py:483-518 | the nested loops fill three tables whose keys are the unions of actions by effect, each action with the last rule of that effect that names it |
| `RightsProfile.ProfileFromGrants` | tools/entity_wallet_desktop.py:489-507 | rule lists granting the same pairs give the same three action sets |
| `RightsProfile.PermutationGrants` | tools/entity_wallet_desktop.py:489-507 | permuted rules grant the same pairs |
| `RightsProfile.SplitGrants` | tools/entity_wallet_desktop.py:489-507 | dividing the actions of a rule between two rules changes no grant |
| `RightsProfile.CreateInstrument` | tools/entity_wallet_desktop.py:886-915 | a request is forwarded, with its actions as written, if and only if it names an action, each one it names is allowed by some rule and prohibited by none, and a whole-asset sale names TRANSFER alone over a verified formula set as one plain unit; each guard that fails gives its own error |
| `RightsProfile.IssueFromGrants` | tools/entity_wallet_desktop.py:886-915 | the verdict depends on the granted pairs only, never on order or grouping of rules |
| `RightsProfile.ProhibitionWins` | tools/entity_wallet_desktop.py:894-896 | one prohibition anywhere among the rules closes an action that any number of rules allow |
| `Activation.Backend.ActivateTransferredAsset` | tools/entity_wallet_desktop.py:748-884 | the call, stopped at any point or not and with its status look-up raising or not, moves the registries and answers as the specification of one attempt says |
| `ActivationTheorems.GuardReachedExactly` | tools/entity_wallet_desktop.py:727-775 | the inconsistent-state guard is reached if and only if the status look-up raised and the latest passport of the asset transferred in is the caller's own; with look-ups that do not raise it never is |
| `ActivationTheorems.OutcomeExactly` | tools/entity_wallet_desktop.py:713-775 | for every registry and caller, which answer the call gives, and that only a stop or a success writes |
| `ActivationTheorems.StopLeaves` | tools/entity_wallet_desktop.py:787-867 | what a stop leaves behind: nothing, the Rights Passport alone, or all of a complete attempt |
| `ActivationTheorems.AttemptSucceeds` | tools/entity_wallet_desktop.py:748-775 | an attempt that is not stopped succeeds if and only if the caller controls the asset and either holds a passport for it or received it by a transfer with an id while some passport exists |
| `ActivationTheorems.Resumable` | tools/entity_wallet_desktop.py:779-867 | however often attempts were stopped and wherever, a complete one ends in the state a single complete one would have reached; look-ups may raise for a buyer that has no earlier passport or holds the latest |
| `ActivationTheorems.AtMostOnePair` | tools/entity_wallet_desktop.py:777-867 | in every run each transfer yields a buyer at most one Rights Passport and at most one Global Passport, the latter naming the former |
| `ActivationTheorems.ActivatedPair` | tools/entity_wallet_desktop.py:804-884 | a success leaves exactly the pair it returns, its rules allowing CONTROL and TRANSFER and nothing else, and makes the Global Passport the object's latest |
| `ActivationTheorems.LaterAttemptsReplay` | tools/entity_wallet_desktop.py:752-766 | after a success and any later attempts of anyone, a further attempt changes nothing and returns the same pair, or reaches the guard if its look-up raises |
| `ActivationTheorems.SellerRightsEnd` | tools/entity_wallet_desktop.py:804-817 | after an activation the buyer issues exactly from CONTROL and TRANSFER, whatever the seller's rules allowed; whole-asset sale needs exactly TRANSFER |
| `ActivationTheorems.OwnPassportIsLatest` | tools/entity_wallet_desktop.py:520-534 | after a successful attempt the latest passport is the caller's own if and only if the caller had none before or already held the latest |
| `ActivationTheorems.ReacquisitionReplays` | tools/entity_wallet_desktop.py:728-732 | a reachable case where it is not: an owner who sold and bought back counts as active at once and issues from the other party's passport |
| `FormulaStorage.Wallet.PutAll` | tools/entity_wallet_desktop.py:304-322 | the walk stores every file or fails; through a reliable kernel it fails exactly when some file is empty |
| `FormulaStorage.Wallet.AddAsset` | tools/entity_wallet_desktop.py:267-380 | a failed add changes no record; a success replaces set and rows of that asset alone, records the source exactly and keeps the creation time of an earlier set; through a reliable kernel it succeeds exactly for a controlled, storable source |
| `FormulaStorage.Wallet.WriteFiles` | tools/entity_wallet_desktop.py:407-417 | the files end at their places with the recorded hashes and nothing else changes; a reliable kernel makes them the originals themselves; the bytes written are the recorded ones whenever the contents are |
| `FormulaStorage.Wallet.WriteFolder` | tools/entity_wallet_desktop.py:401-405 | folder, directories and files rebuild the recorded tree in an empty destination, exactly so through a reliable kernel |
| `FormulaStorage.Wallet.Export` | tools/entity_wallet_desktop.py:382-431 | through a reliable kernel an export gives exactly the tree and the logical bytes of the source; through any kernel one that succeeds has its paths, directories and hashes, and its contents too unless digests collide |
| `FormulaStorage.StoreAndReconstruct` | tools/entity_wallet_desktop.py:267-431 | store then reconstruct through a reliable kernel succeeds exactly for a file with content or a folder with a file and no empty one, and gives that file, or a folder of that name with exactly its files and directories, and the sum of their bytes; no premise on digests |
| `InstrumentSymbol.BaseShape` | tools/entity_wallet_desktop.py:1747-1772 | every asset has a base of one to ten characters, none a dash |
| `InstrumentSymbol.CodeShape` | tools/entity_wallet_desktop.py:1888-1911 | every class outside the regional ones has a code of at most five characters, none a dash |
| `SymbolMeaning.BaseExactly` | tools/entity_wallet_desktop.py:1747-1772 | the base is cut from the short name, else from the code, else made of the title words that are not ignored: one word cut, two joined and cut, more by initials |
| `SymbolMeaning.WordsApart` | tools/entity_wallet_desktop.py:1760-1767 | a separator parts the words before it from those behind it |
| `SymbolMeaning.RegionalCode` | tools/entity_wallet_desktop.py:1900-1902 | the code of a regional class is REX- and its region with dashes for underscores |
| `SymbolMeaning.OtherCode` | tools/entity_wallet_desktop.py:1905-1911 | a class that is neither regional nor known gives its one word cut at five characters, or the initials of up to five words, or RGT |
| `SymbolMeaning.KnownTable1` | tools/entity_wallet_desktop.py:1890-1893 | the codes of the first five known classes; `KnownTable2` to `KnownTable4` hold the others |
| `SymbolMeaning.KnownClass` | tools/entity_wallet_desktop.py:1903-1904 | a known class has the code of the list |
| `SymbolMeaning.SymbolExactly` | tools/entity_wallet_desktop.py:1913-1922 | base, code and, from the second on, series in this order, cut at 32 characters |
| `SymbolMeaning.TrainingSymbol` | tools/entity_wallet_desktop.py:1913-1922 | a concrete symbol: ABC-TRN-S7 for the short name ABC, the class TRAINING and series 7 |
| `InstrumentSymbol.SymbolDecodes` | tools/entity_wallet_desktop.py:1913-1922 | outside the regional classes the symbol has at most 24 characters, so it is never cut, and base, class code and series are read back from it |
| `InstrumentSymbol.RegionalSeriesDistinct` | tools/entity_wallet_desktop.py:1900-1922 | within a regional class all series have different symbols if and only if base and region code total at most 19 characters |
| `InstrumentSymbol.CutCollision` | tools/entity_wallet_desktop.py:1922 | beyond that total, series 100000 and 100001 are cut to one symbol |
| `InstrumentSymbol.ShortRegionsDistinct` | tools/entity_wallet_desktop.py:1900-1922 | a region code of at most nine characters always keeps series apart |
| `InstrumentSymbol.RegionsCoincide` | tools/entity_wallet_desktop.py:1900-1921 | two uncut regional symbols coincide if and only if base, region and series are equal, or one is in its first series and its region is the other's followed by the series mark |
| `InstrumentSymbol.RegionsAmbiguous` | tools/entity_wallet_desktop.py:1900-1922 | the same for the generated symbols of two regional classes of an asset, neither of them cut |
| `InstrumentSymbol.RegionsMeet` | tools/entity_wallet_desktop.py:1900-1922 | a concrete pair: EU_S2 in its first series and EU in its second have one symbol |
| `ApplicationIngest.BTGApplicationSDK.IngestAsset` | sdk/btg_application_sdk/canonical_btg_application_sdk.py:105-130 | table, registries and answer move as the specification of one call says, wherever a write raises |
| `ApplicationIngest.BTGApplicationSDK.RecordEvent` | sdk/btg_application_sdk/canonical_btg_application_sdk.py:132-142 | the same for event calls |
| `ApplicationIngest.BTGApplicationSDK.WriteAsset` | sdk/btg_application_sdk/canonical_btg_application_sdk.py:114-128 | the writes happen in their order up to the first that raises, the derivation loop included |
| `ApplicationIngest.HandleMoves` | sdk/btg_application_sdk/canonical_btg_application_sdk.py:105-142 | only a fresh result adds a key, with one ledger entry; a replay or a used key changes nothing |
| `ApplicationIngest.LedgerAccount` | sdk/btg_application_sdk/canonical_btg_application_sdk.py:128-142 | over every run ledger entries minus remembered keys is the number of calls that raised between the two writes |
| `ApplicationIngest.LedgerMatchesKeys` | sdk/btg_application_sdk/canonical_btg_application_sdk.py:128-142 | ledger entries equal remembered keys if and only if no call raised between those two writes |
| `ApplicationIngest.KeyIsSettled` | sdk/btg_application_sdk/canonical_btg_application_sdk.py:88-97 | after a fresh result and any later calls, a repeat of equal content returns that result as a replay, any other envelope under the key raises unless digests collide, and neither changes anything |
| `ApplicationIngest.FreshOnce` | sdk/btg_application_sdk/canonical_btg_application_sdk.py:88-97 | in every run no key has two fresh results |
| `ApplicationIngest.EntriesStayOwn` | sdk/btg_application_sdk/canonical_btg_application_sdk.py:95-97 | remembered results always point at different existing ledger entries |
| `ApplicationIngest.TornCallHappens` | sdk/btg_application_sdk/canonical_btg_application_sdk.py:140-142 | such a call exists: its ledger entry stays without a key, and the repeated call appends another |
| `ApplicationIngest.FreshExactly` | sdk/btg_application_sdk/canonical_btg_application_sdk.py:105-142 | a call gets a fresh result if and only if it is admissible, claim, contributors and parents are in order, and no write raises; it is torn exactly when only the memo raises; all of these conditions are stated on the envelope itself |
| `ApplicationIngest.ChecksExactly` | sdk/btg_application_sdk/canonical_btg_application_sdk.py:80-139 | the checks before the first write, condition by condition, and the failure each broken one raises |
| `ApplicationIngest.RefusedExactly` | sdk/btg_application_sdk/canonical_btg_application_sdk.py:80-139 | which calls raise or replay before any write, and that neither changes anything |
| `ApplicationIngest.WritesInOrder` | sdk/btg_application_sdk/canonical_btg_application_sdk.py:114-128 | however many writes succeed, those made are the first of: asset, claim, receipt, one derivation per parent, ledger entry |
| `ApplicationIngest.PartFailures` | sdk/btg_application_sdk/canonical_btg_application_sdk.py:115-127 | an incomplete claim, strange contributors or strange parents stop the writes with their own failure, unless a write raised before |
| `ApplicationIngest.FreshAsset` | sdk/btg_application_sdk/canonical_btg_application_sdk.py:105-130 | a fresh ingest adds one of each thing it has, remembers its key, and its result names what was added |
| `ApplicationIngest.FreshEvent` | sdk/btg_application_sdk/canonical_btg_application_sdk.py:132-142 | a fresh event adds a ledger entry and a remembered key |
| `ApplicationIngest.AssetIsIngested` | sdk/btg_application_sdk/canonical_btg_application_sdk.py:105-130 | a concrete asset with claim, contributor and two parents is ingested, and a repeat replays its result |
| `ApplicationIngest.RaisedChangesNothing` | sdk/btg_application_sdk/canonical_btg_application_sdk.py:105-142 | a call that raises leaves everything as it was if and only if it is refused before its writes, its key is used, or its first write raises |
| `ApplicationIngest.UnauthorizedWritesNothing` | sdk/btg_application_sdk/canonical_btg_application_sdk.py:73-78 | a call on a new key that is not authorized writes nothing |
| `ApplicationIngest.BadClaimLeavesAsset` | sdk/btg_application_sdk/canonical_btg_application_sdk.py:114-117 | an incomplete rights claim is refused after the asset was registered, and the asset stays |
| `EncryptedVault.EncryptedDataVault.PutBytes` | genesis_master/08_Data_Vaults/canonical_encrypted_vault.py:55-65 | cipher, key and row are written in this order, the call stopping anywhere |
| `EncryptedVault.EncryptedDataVault.ReadBytes` | genesis_master/08_Data_Vaults/canonical_encrypted_vault.py:88-99 | the read answers as specified for rows, files and the bound associated data |
| `EncryptedVault.EncryptedDataVault.SetLifecycle` | genesis_master/08_Data_Vaults/canonical_encrypted_vault.py:101-114 | the file is removed first and the row updated after, the call stopping between; each refusal has its condition |
| `EncryptedVault.ReadFollowsHistory` | genesis_master/08_Data_Vaults/canonical_encrypted_vault.py:81-114 | in every run of puts, lifecycle calls and moves over many objects, a read answers exactly what the history of that object demands; decryption and the content check never fail |
| `EncryptedVault.LifeMeans` | genesis_master/08_Data_Vaults/canonical_encrypted_vault.py:101-114 | what a history demands, said without recursion: the last put, every destruction asked for by its controller since, and whether the last state set is ACTIVE |
| `EncryptedVault.ReadableExactly` | genesis_master/08_Data_Vaults/canonical_encrypted_vault.py:88-114 | a read returns bytes if and only if they are those of the last put, the caller is its controller, the last state set is ACTIVE and neither erasure nor deletion was ever asked for since |
| `EncryptedVault.RefusedExactly` | genesis_master/08_Data_Vaults/canonical_encrypted_vault.py:88-99 | for each refusal, the history that gives it; an unavailable object is reported with the state last set |
| `EncryptedVault.OnlyItsOwnEvents` | genesis_master/08_Data_Vaults/canonical_encrypted_vault.py:88-114 | removing every event of other objects and every move from a history changes no answer for this object |
| `EncryptedVault.OthersAndMovesDoNotMatter` | genesis_master/08_Data_Vaults/canonical_encrypted_vault.py:81-114 | two runs with the same events for an object, whatever else happened and wherever the vault now lies, answer alike |
| `FederationTrust.FederationTrustStore.TrustPeer` | genesis_master/02_Peer_Network/canonical_peer_network.py:23-26 | the peer row is replaced: active, version at least 1, trust at least 0, no nonce |
| `FederationTrust.FederationTrustStore.Authenticate` | genesis_master/02_Peer_Network/canonical_peer_network.py:27-36 | the answer is the first failing check or acceptance, and the row moves only on acceptance |
| `FederationTrust.FederationTrustStore.Revoke` | genesis_master/02_Peer_Network/canonical_peer_network.py:37-41 | a known peer is marked revoked and keeps the rest of its row; an unknown one is an error and changes nothing |
| `FederationTrust.DenialsChangeNothing` | genesis_master/02_Peer_Network/canonical_peer_network.py:29-34 | a denied authentication leaves the store as it was |
| `FederationTrust.VersionsNeverFall` | genesis_master/02_Peer_Network/canonical_peer_network.py:31-35 | until a peer is trusted anew, accepted versions never decrease |
| `FederationTrust.VersionsStartAtTrusted` | genesis_master/02_Peer_Network/canonical_peer_network.py:24-31 | and they start at or above the trusted version, at least 1 |
| `FederationTrust.StoredIsLastAccepted` | genesis_master/02_Peer_Network/canonical_peer_network.py:35 | stored version and nonce are those of the last acceptance |
| `FederationTrust.SuccessiveNoncesDiffer` | genesis_master/02_Peer_Network/canonical_peer_network.py:34-35 | no two successive acceptances carry one nonce |
| `FederationTrust.RevokedIsDenied` | genesis_master/02_Peer_Network/canonical_peer_network.py:37-41 | after a revocation nothing is accepted until the peer is trusted anew |
| `FederationTrust.ImmediateReplayDenied` | genesis_master/02_Peer_Network/canonical_peer_network.py:34 | a repeated nonce is denied as long as nothing else was accepted in between |
| `FederationTrust.AcceptedExactly` | genesis_master/02_Peer_Network/canonical_peer_network.py:23-36 | in every run, after the last trust call a claim is accepted if and only if the peer was not revoked since, the claim has the trusted identity, a level and schema the peer was trusted with, a version at least that of the call and of every acceptance since, and another nonce than the latest acceptance |
| `FederationTrust.DeniedExactly` | genesis_master/02_Peer_Network/canonical_peer_network.py:27-36 | in every run the reason given is the first rule broken, each rule stated on the calls since the last trust call |
| `FederationTrust.NeverTrustedIsDenied` | genesis_master/02_Peer_Network/canonical_peer_network.py:28-29 | a peer no call trusted is denied in every run |
| `FederationTrust.ReplayExactly` | genesis_master/02_Peer_Network/canonical_peer_network.py:27-36 | an accepted claim presented again without a new trust call is accepted if and only if the peer was not revoked, the latest acceptance had another nonce, and no newer version was accepted |
| `FederationTrust.EarlierNonceReturns` | genesis_master/02_Peer_Network/canonical_peer_network.py:34-35 | a concrete run in which a claim is accepted twice |
| `NodeEnvelope.IndependentNode.ReceiveEnvelope` | independent-node/node.py:54-62 | the reply is that of the specification and the receipt is written whether or not the envelope passed |
| `NodeEnvelope.MakeCarries` | independent-node/node.py:34-36 | a made envelope carries its object under both digests with an empty lineage |
| `EnvelopeMeaning.VerdictExactly` | independent-node/node.py:37-44 | schema, object digest, origin digest and lineage are checked in this order, and the verdict names the first that fails |
| `EnvelopeMeaning.MadeEnvelope` | independent-node/node.py:34-36 | a made envelope has exactly seven fields, the sender and the time among them |
| `EnvelopeMeaning.RejectionExactly` | independent-node/node.py:45-56 | an envelope that fails is answered with 400 and a failing receipt that repeats what it claimed |
| `EnvelopeMeaning.SentExactly` | independent-node/node.py:94-99 | an envelope is sent when it verifies, any other value inside one made for it, both naming the sender |
| `NodeEnvelope.WireCarries` | independent-node/node.py:71-73 | canonical transport keeps object, digests and every hop |
| `NodeEnvelope.ReceiveCarries` | independent-node/node.py:54-62 | a receive always passes, adds exactly one hop repeating the digests, and its receipt records the new length |
| `NodeEnvelope.ChangedObjectRejected` | independent-node/node.py:37-44 | with the object alone replaced, verification passes if and only if the new object is equal to the old or a digest collision |
| `NodeEnvelope.TamperedIsRefused` | independent-node/node.py:54-98 | such an envelope is neither sent nor accepted, before or after transport |
| `NodeEnvelope.HopCarries` | independent-node/node.py:93-100 | a send by any node to any node from a carrying envelope succeeds and extends its lineage by one hop |
| `EnvelopeMeaning.SendNamesBoth` | independent-node/node.py:54-99 | after a send from A to B the last hop names A as where it came from and B as where it went, the envelope names B and the receipt, and every other field is what it was |
| `NodeEnvelope.RunIsSound` | independent-node/node.py:34-100 | in every run over many nodes each envelope repeats the digests of its object throughout, its lineage is as long as its receives and extends its ancestor's by one, and every receipt records such an envelope |

## Left out

- JSON floats, lone surrogates, and Python's limits on integer digits and nesting depth: the reader here refuses a float, and reads an integer of any length and a value of any depth.
- SovereignDomain.VerifyExport: a signature or manifest given as a list of pairs, which `dict()` would convert, is refused, and so is a key or signature that is not a string but would read as base64 after `str()`.
- Handshake.Connect: ends where the data phase begins; the X25519 exchange, key derivation, the encrypted request and reply, the endpoint and socket timeouts are not modelled, so server_x25519_b64 is signed text here and a malformed one is not refused.
- NodeRuntime.EntityNodeRuntime.Handle: the encrypted request and reply behind the hello, the error frame sent when a connection raises, and concurrent connections.
- DataSourceGateway.Gateway.EnrollSource: a mode of None, which is stored as the text NONE and raises on later reads, is not a request of the model; a root equal to an earlier one only after normalising is a second row, and the theorems on the deciding source then take distinct places as a premise.
- DataSourceGateway.Gateway.RootsForProvenance: states the set of listed roots, not their order by path.
- GatewayTheorems.MatchIsDeepest: takes resolved paths to be normalised (`Sound`): no component is empty or holds a slash after backslashes were turned into slashes. A POSIX folder whose own name holds a backslash is outside this; such a name ending in one would be taken to enclose its sibling without it.
- Re-resolution of symbolic links between calls, and a file system that changes what a path resolves to.
- RightsProfile.InstrumentRightsProfile: a rule's conditions, obligations and references are one opaque detail, and the sorted lists are sets.
- RightsProfile.CreateInstrument: the hand-over to the market registry, its own checks and the remaining options.
- Activation.Backend.ActivateTransferredAsset: the references copied from the seller's passports, the signing key and the verification of the issued passports; a failed verification is an attempt that stops after the second passport. Of the look-ups only that of the status may raise; the others raising are calls that stop there.
- FormulaStorage.Wallet.AddAsset: the universe owner that picks the kernel, the manifest digest, the source path, the formula digest and the sorting of files and directories; file contents do not change while they are read.
- FormulaStorage.Wallet.Export: destinations that already hold files, and a failed export's partial output.
- InstrumentSymbol.SymbolDecodes: takes the separators to be outside the alphanumeric characters, and nothing else about Unicode.
- ApplicationIngest.BTGApplicationSDK.IngestAsset: conversions of size, confidence and metadata that raise before the first write, a metadata value or claim given as a list of pairs, and the contents written to the registries.
- EncryptedVault.EncryptedDataVault.PutBytes: absolute stored paths of older rows, media type, classification and metadata; `put_file` and `export_manifest` only wrap it.
- EncryptedVault.ReadFollowsHistory: files changed by others than the vault.
- FederationTrust.FederationTrustStore.Authenticate: two calls interleaved between reading and writing the row.
- NodeEnvelope.IndependentNode.ReceiveEnvelope: the receipt's id, time, text and own digest, and the HTTP handler with its body limit.
- Exchange matching and settlement, the identity vault, the fabric, the market registry, the formula kernels and the DataChip compiler: their source is not part of the repository.
- Qt windows and dialogs, release builders, sealers, manifest verifiers, patch scripts, application provisioning, the transparency witness, the knowledge registry and status reports: not modelled.
