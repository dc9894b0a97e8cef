# PQC-IoT-1: a machine-checked model

PQC-IoT-1 establishes a session between an ESP32 device and a server from two
secrets: a per-device pre-shared key (PSK) and ML-KEM encapsulation to a pinned
server key `dk_S`/`ek_S`. In mode A (suites 0x01 and 0x02) all keys come from
those two. In mode B (0x11 and 0x12) the server adds an ephemeral key `ek_E`,
authenticates it in ServerHello and destroys its private half after the
handshake. Records follow under AES-256-GCM with explicit sequence numbers. The
repository implements the protocol twice, in Python (server and reference
client) and in C (firmware).

`dafny verify dfyconfig.toml` checks the whole project.

## How the model is built

**The protocol as a state machine** (`Terms`, `Protocol`). Messages and keys are
terms with one constructor per primitive; HMAC is a single symbol shared by the
hello MAC, both HKDF steps and both confirmations, so no separation is assumed
that the key schedule does not create. A state holds any number of client and
server runs, the adversary's knowledge, and what has been lost. The adversary is
the network: a message is delivered exactly when the adversary can produce it. It
holds the server's public key `ek_S` from the start, so that it can run clients of
its own; it may infer, and it may at any time be given `dk_S`, any PSK, and the
memory of any live run: a client's PSK with its static shared secret and, once it
has answered, its ephemeral shared secret, confirmation keys and data keys; a
server run's PSK, shared secrets, confirmation and data keys and, until
ClientFinished, its ephemeral private key. Decapsulating with the wrong key gives an unrelated
secret (implicit rejection of FIPS 203), encapsulating to a key that is not
canonical fails. `Invariants`, `Preservation`, `Secrecy` and `Steps` hold the
inductive invariant; `Security`, `Admission`, `Endings` and `Exactness` the theorems.

**The code on bytes.** `Framing`, `KeySchedule`, `Messages`, `Records`, `Client`,
`Firmware` and `Server` model the code itself: sockets whose calls move any number
of bytes, the send and receive loops, the HKDF loop, the ClientHello cursor, the
three static buffers of the firmware with the ServerHello fields used in place,
`RecordStream` and the ephemeral key as objects. SHA-256, HMAC, ML-KEM and AES-GCM
are function values with only their lengths and correctness laws; nothing assumes
that a hash is injective. Python and C client are both proved against one
function, `Client.Shake`, and the server against `Server.Serve`.

**The link.** `Meaning` evaluates terms to bytes and proves that what the code
computes is the value of the term the state machine uses, and that code and state
machine accept in the same cases; `Injectivity` proves that the byte strings decode
in one way only, and `Agreement` uses that to carry agreement down to bytes;
`Completeness` puts honest client and server together; `Integrity` shows what the
record loop can deliver when the byte stream is arbitrary and the AEAD opens only
what was sealed; `Refusals` what either end does with anything else than the honest
messages, and `Sessions` takes whole sessions of either client to the server.

**Around it.** `Rogue` takes the nine modes of the misbehaving server, `Devices`
the PSK table read under concurrent writes, `Spki` the two public key readers,
`Bench` the cycle measurements.

## Main results

- Client-side agreement, server-side injective agreement, secrecy while either
  defence stands, forward secrecy of mode B and nonce uniqueness in every reachable
  state (`Security`). A mode B client that took an honest `ek_E` keeps its data keys
  secret even when `dk_S` and its PSK were lost before it connected.
- Record integrity, in every reachable state and for good: what a server delivered
  while the PSK was safe, or after a clean handshake while `dk_S` was safe, or in a
  clean mode B session whose ends were not read, stays a subsequence of what its one
  client sealed, whatever is lost later (`Security.DeliveriesStaySound`).
- What the guarantees rest on (`Exactness`): the c2s key of a client that took its
  ServerHello from a server run can be inferred exactly when it was read itself, or
  the PSK is lost together with `dk_S` or the static shared secret and, in mode B,
  with `dk_E` or the ephemeral shared secret. Against each condition of the agreement
  and secrecy theorems there is an attack that works once it is dropped: with the PSK
  alone the adversary completes a session as that device, with both secrets it
  answers a waiting client in the server's place, from the memory of a running client
  or of its live server run it has the c2s key, and with the c2s key it adds a record.
  Honest sessions complete, and deliver, from every reachable state.
- On bytes, without any assumption on the hashes: a client that answers a server's
  MAC holds that server's hello, nonces, session id, `ek_E`, PSK and static shared
  secret, and a server that completes on what a client sent holds that client's whole
  view and keys, or the two ends exhibit a collision between named queries
  (`Agreement`).
- Every failed check ends its run, for good and in silence. In the state machine a
  client takes one ServerHello and a server run one ClientFinished, and a refused
  message, a refused record or a failed write is followed by nothing (`Endings`). On
  bytes, for every stream: the server answers only a hello with its key id, a
  registered device and the right MAC, does no ML-KEM work before that, and its whole
  answer is one ServerHello; the client says nothing but its hello until a server MAC
  verifies; and the record loop delivers exactly the longest run of records accepted
  in turn, stopping at the first replayed, foreign or misplaced frame (`Refusals`).
- The keys of a session are separated by their labels: two of them are equal only
  through a collision of two HMAC queries with different messages
  (`Injectivity.SessionKeysSeparate`).
- The firmware sends the same bytes, accepts the same ServerHellos and ends with
  the same session as the reference client, and the records it builds in place are
  the reference ones (`Firmware`, `Records`). From a whole session of either client the
  server delivers the plaintexts sealed, from the first on, and all of them, ending in
  order on Close, if nothing is cut (`Sessions.SessionArrives`).
- Every connection attacked by any of the nine misbehaving servers, whichever key and
  PSK it holds and after any earlier connections, ends with nothing sent but
  ClientHello, or exhibits a coincidence of hash values that the statement names
  (`Rogue`).
- Honest client and server complete in all four suites whatever chunks the network
  hands over in whatever order, without either waiting for a byte the other does not
  send; they agree on every confirmation and data key, and the reported byte count is
  the number of bytes exchanged. A network that only cuts the stream makes the server
  deliver a prefix (`Completeness`), and one that sends anything at all a subsequence
  (`Integrity`).

## Where code and documentation differ

The model follows the code.

- `docs/protocol.md:158-162` says an attacker must hold a valid PSK to make the
  server decapsulate. An old ClientHello is enough, because nothing in it is
  checked for freshness (`Admission.EveryOldHelloIsAdmitted`); what the MAC does
  prove is `Admission.AdmittedHelloIsGenuine`, and a replayed hello never completes
  twice (`Admission.AtMostOneAnswerCompletes`).
- `docs/protocol.md:348-349` ends a session at sequence number 2^32. The code does
  not, and the model's sequence numbers go up to 2^64.
- `server/rogue_server.py:202-210` reports the first connection of replay mode as
  served correctly. It answers a mode B hello with 72 bytes, which the client
  refuses (`Rogue.UnattackedSucceedsInModeA`). For the same reason wrong-mac and
  impostor are refused in mode B by their length, not by the MAC.
- `derive_keys` rejects a PSK that is not 32 bytes long, `derive_stage1` does not
  (`KeySchedule.Stage1IsServerConfirm`).
- `wrap_raw_pubkey` means to accept raw keys of the template's size. It also accepts
  a key more than twice as long, through a negative slice bound
  (`Spki.WrapAccepts`); no key that arrives in a ServerHello is that long.
- `parse_spki` reads the outer length without comparing it with anything, and takes
  a bit string that claims more bytes than there are as ending with the file
  (`Spki.Layout`).
- The permissions of the device table are looked at only when its modification
  time has changed (`Devices.QuietVerdict`), and JSON of the wrong shape ends the
  server, because `psk_for` does not catch that exception.

## Model

| member | source | states |
|---|---|---|
| `Terms.DeductionStaysPublic` | docs/protocol.md:34-49 | from what the adversary may know only such terms follow, except that opening a logged record yields its plaintext |
| `Terms.PubMonotone` | docs/protocol.md:34-49 | what the adversary may know never shrinks when more is sent or lost |
| `Secrecy.DataKeyInjective` | server/protocol.py:128-191 | one data key determines the whole view of a session: hello, nonces, session id, `ek_E`, ciphertexts and both shared secrets |
| `Secrecy.SrvKeyInjective` | server/protocol.py:164-174 | one server confirmation key determines everything up to and including ServerHello |
| `Secrecy.PrkNeverGiven` | server/protocol.py:105-117 | an HKDF pseudorandom key is never sent and never lost, even when a live run's keys are read |
| `Secrecy.ServerMacProvesServer` | server/pqc_server.py:264-268 | a valid server MAC was made by a server run with the same hello, nonces, session id and `ek_E`, unless both secrets are lost |
| `Secrecy.ClientMacProvesClient` | server/pqc_server.py:299-302 | a valid client MAC was made by a client run with exactly the same view, while the PSK is safe |
| `Secrecy.RecordProvesClient` | server/protocol.py:303-321 | a record that opens was sealed by the client run with exactly this view, at this sequence number, unless the key is known |
| `Steps.StepKeeps` | server/pqc_server.py:204-331 | every step of client, server, network and compromise keeps the invariant, and knowledge, losses and runs only move forward |
| `Steps.ExecutionKeeps` | server/pqc_server.py:204-331 | the same along every execution |
| `Steps.ClientReceiveKeeps` | firmware/esp32s3-dut/main/pqc_session.c:264-395 | accepting or refusing a ServerHello keeps the invariant |
| `Steps.ServerFinishKeeps` | server/pqc_server.py:270-302 | accepting or refusing ClientFinished keeps the invariant, and in either case the ephemeral key is gone |
| `Steps.ServerReadKeeps` | server/pqc_server.py:310-328 | reading a record keeps the invariant, in particular that only sealed plaintexts are delivered, in order |
| `Steps.RevealServerKeeps` | server/pqc_server.py:243-297 | reading everything a live server run holds keeps the invariant |
| `Security.ClientAcceptsOnlyItsServer` | firmware/esp32s3-dut/main/pqc_session.c:326-338 | a client that accepts does so with a server run that has the same hello, nonces, session id and `ek_E`, unless PSK and `dk_S` (or this run's static secret) are both lost at that moment |
| `Security.ActiveClientHasServer` | firmware/esp32s3-dut/main/pqc_session.c:326-394 | in every reachable state a client run that has encapsulated to an `ek_E` or sealed a record has exactly one server run behind its ServerHello, unless both secrets were lost when it accepted |
| `Security.NothingBeforeAcceptance` | firmware/esp32s3-dut/main/pqc_session.c:326-394 | before acceptance nothing is encapsulated to `ek_E`, confirmed or encrypted |
| `Security.ServerCompletesWithOneClient` | server/pqc_server.py:204-302 | a server run that completed while the PSK was safe agrees with exactly one client run, and no other server run with that client |
| `Security.FinishedMacMakesClean` | server/pqc_server.py:299-302 | passing the client MAC check while the PSK is safe establishes that agreement, for the `ct_eph` on the wire |
| `Security.EitherDefenceSuffices` | server/protocol.py:128-145 | while PSK or `dk_S` is unknown, no session key of an accepted client is known, in both modes and whatever other devices lost |
| `Security.HonestEphemeralSuffices` | docs/protocol.md:299-305 | data keys of a mode B client that took an honest run's ServerHello stay unknown whatever was lost before or after, `dk_S` and the PSK included, unless one of the two ends was read while live |
| `Security.ForwardSecrecy` | server/protocol.py:177-191 | data keys of a mode B session accepted with one defence standing stay unknown when `dk_S` and all PSKs are lost, unless one of its two ends was read while live |
| `Security.ForwardSecrecyOverRuns` | server/pqc_server.py:243-297 | the same along runs: after both ends have finished unread, no later compromise reveals the keys or any payload |
| `Security.HonestEphemeralOverRuns` | docs/protocol.md:299-305 | the same for a client that took an honest run's ServerHello after both secrets were lost |
| `Security.EphemeralKeyDiesWithHandshake` | server/pqc_server.py:293-297 | once a server run has left the handshake, no step makes its ephemeral key known |
| `Security.PayloadNeedsKey` | server/protocol.py:293-301 | a plaintext is known to the adversary only together with the c2s key of the session that sealed it |
| `Security.UnknownKeyDeliversClient` | server/pqc_server.py:310-328 | as long as the adversary cannot have a server run's c2s key, what it delivered is, by strictly increasing sequence numbers, a subsequence of what the one client with its view sealed |
| `Security.DeliveredIsSubsequence` | server/pqc_server.py:310-328 | what a server run delivered is a subsequence, by strictly increasing sequence numbers, of what its one matching client sealed: while the PSK is safe; or after a clean handshake in either mode while `dk_S` is safe and no live end was read, PSK lost or not; or in clean mode B with its ends unread, both long-term secrets lost or not |
| `Security.DeliveriesStaySound` | server/pqc_server.py:310-328 | along runs: what was delivered while the key was out of reach, in particular under one of these conditions, stays delivered and stays such a subsequence after any later loss, and a closed session delivers nothing more |
| `Security.NonceNeverRepeats` | firmware/esp32s3-dut/main/pqc_session.c:409-457 | over the life of all devices no two encryptions share key and nonce, failed writes included |
| `Endings.OneServerHello` | server/test_client.py:128-156 | a client run takes one ServerHello: in every later state it has accepted exactly if that one passed its checks, no other can be delivered, and if it failed the run is over and sends nothing |
| `Endings.OneFinished` | server/pqc_server.py:270-302 | a server run takes one ClientFinished: it has completed exactly if that one carried its own client MAC, otherwise it is over for good and delivers nothing |
| `Endings.RefusedRecordEndsSession` | server/pqc_server.py:316-323 | a record is taken exactly if its number is above the last and it opens; one that is not ends the session for good with what was delivered before |
| `Endings.FailedWriteEndsSession` | firmware/esp32s3-dut/main/pqc_session.c:504-508 | after a failed write the client encrypts nothing more, although send_seq has not moved |
| `Endings.AnyRunCanEnd` | server/pqc_server.py:312-317 | every run can be ended at any time, and is then over |
| `Admission.AdmittedHelloIsGenuine` | server/pqc_server.py:223-231 | an admitted hello was sent by a client run of that device, unless its PSK is lost |
| `Admission.OnlyRegisteredAreServed` | server/pqc_server.py:223-225 | every server run is for a registered device and one of the four suites, on a hello that was on the network |
| `Admission.EveryOldHelloIsAdmitted` | docs/protocol.md:158-162 | any hello ever sent by a registered device is admitted again |
| `Admission.AtMostOneAnswerCompletes` | docs/protocol.md:342-346 | of all answers to one hello at most one completes |
| `Exactness.HonestSessionCompletes` | server/test_client.py:110-179 | from every reachable state a registered device completes a session in any suite, both ends with the same view, nothing else lost or read |
| `Exactness.AnyDeviceCanJoin` | server/pqc_server.py:81-89 | from every reachable state any device can be registered and complete a session in any suite |
| `Exactness.HonestRecordArrives` | server/pqc_server.py:310-328 | two ends that agree get the client's next record across |
| `Exactness.DeliveryOutlivesPsk` | server/protocol.py:128-145 | from every reachable state with this PSK and `dk_S` safe and no server run read, a state is reachable in which a record has been delivered, the PSK is lost and the session's records are still protected |
| `Exactness.KeyFallsExactly` | server/protocol.py:128-191 | an accepted client's c2s key, in mode B one that took an honest `ek_E`, can be inferred if and only if it was read, or PSK and `dk_S` or static shared secret are lost and in mode B `dk_E` or the ephemeral shared secret too |
| `Exactness.PayloadFallsExactly` | server/protocol.py:293-301 | a record's plaintext can be read by the adversary if and only if its session's key is exposed in this sense |
| `Exactness.EveryEncryptionIsLogged` | firmware/esp32s3-dut/main/pqc_session.c:434-457 | the log of encryptions over which nonces are unique misses no record of any client |
| `Exactness.BothCanBeLost` | docs/protocol.md:226-231 | `dk_S` and any PSK can be lost in any state with nothing else happening |
| `Exactness.EveryModeASessionFalls` | docs/protocol.md:226-231 | hence from every reachable state one follows in which the adversary reads any given record of a mode A session |
| `Exactness.ModeARecordedSessionFalls` | docs/protocol.md:226-231 | a recorded mode A session's key follows from a later loss of PSK and `dk_S` |
| `Exactness.ReadingClientGivesKey` | server/test_client.py:151-179 | the memory of a running client gives its confirmation and data keys, with `dk_S` still safe |
| `Exactness.ReadingServerGivesKey` | server/pqc_server.py:243-297 | so does the memory of a live server run: in mode B of the client's own, before ClientFinished or after, in mode A of any that answered the same hello |
| `Exactness.LostPskImpersonates` | docs/protocol.md:158-165 | with a device's PSK alone the adversary completes a session in any suite that agrees with no client run, and holds its c2s key |
| `Exactness.BothLostImpersonatesServer` | docs/protocol.md:270-272 | with both secrets lost while a client waits, in either mode, the client accepts a ServerHello no server run sent and the adversary holds its c2s key |
| `Exactness.ReadingWaitingClientImpersonates` | docs/protocol.md:270-272 | reading a client that still waits is enough to answer it in the server's place, with `dk_S` still safe |
| `Exactness.KnownKeyForgesRecords` | server/pqc_server.py:310-328 | once an open session's c2s key is known, the server can be made to deliver what no client sealed |
| `Bytes.PackedByte` | firmware/esp32s3-dut/main/pqc_session.c:418-427 | byte k of a packed integer is what the shift and truncation give |
| `Bytes.PackUnpack` | server/protocol.py:287-291 | unpacking a packed integer gives it back |
| `Bytes.UnpackPack` | server/protocol.py:306-306 | packing an unpacked integer gives the bytes back |
| `Bytes.U64Injective` | server/protocol.py:287-288 | sequence numbers below 2^64 pack to different bytes |
| `Framing.FrameRoundTrip` | server/protocol.py:88-99 | reading a written frame gives the frame and leaves the rest of the stream |
| `Framing.FrameLayout` | server/protocol.py:96-99 | type, length most significant byte first, payload |
| `Framing.ParseExactly` | server/protocol.py:88-93 | which bytes parse, to what, and that frames end at 4096 |
| `Framing.StreamRoundTrip` | server/protocol.py:88-99 | reading any concatenation of written frames gives exactly those frames |
| `Framing.CutStreamIsPrefix` | server/protocol.py:78-93 | a cut stream reads as a prefix of the frames |
| `Framing.SmallReaderAgrees` | firmware/esp32s3-dut/main/pqc_session.c:162-176 | a reader with a smaller buffer reads the same frames as long as they fit it, and only those |
| `Framing.Socket.SendAll` | server/protocol.py:96-99 | all bytes are sent whatever each call takes, or those the peer took before it failed |
| `Framing.Socket.ReadExactly` | server/protocol.py:78-85 | the next n bytes whatever the chunks, or an error exactly when fewer arrive |
| `Framing.Socket.ReadFrame` | server/protocol.py:88-93 | returns the parsed frame and leaves the rest unread |
| `Framing.Socket.WriteFrame` | server/protocol.py:96-99 | too long a payload is refused before anything is sent |
| `Framing.Socket.SendBuffer` | firmware/esp32s3-dut/main/pqc_session.c:129-140 | the send loop over part of a buffer |
| `Framing.Socket.RecvInto` | firmware/esp32s3-dut/main/pqc_session.c:142-153 | the receive loop fills the buffer's start and leaves its rest alone |
| `Framing.Socket.WriteFrameFrom` | firmware/esp32s3-dut/main/pqc_session.c:155-160 | the two sends put the encoded frame on the wire, or as much as the peer took |
| `Framing.Socket.ReadFrameInto` | firmware/esp32s3-dut/main/pqc_session.c:162-176 | the frame in the buffer is the parsed one; a frame larger than the buffer is refused |
| `KeySchedule.HkdfExpand` | server/protocol.py:109-117 | the loop computes T(1), T(2), ... cut to length, and fails exactly beyond 255 blocks |
| `KeySchedule.ExpandPrefix` | server/protocol.py:109-117 | a shorter output is a prefix of a longer one |
| `KeySchedule.ExpandOneBlock` | server/protocol.py:109-117 | 32 bytes are one HMAC of info and 0x01 |
| `KeySchedule.Stage1IsServerConfirm` | server/protocol.py:164-174 | the stage-1 key is the server-confirm component of mode A, and derive_keys fails exactly on a PSK of the wrong length |
| `KeySchedule.KeysWrittenOut` | server/protocol.py:58-63 | every key of both modes and the hello MAC, down to HMAC calls and the text of the label |
| `KeySchedule.CtEqual` | firmware/esp32s3-dut/main/pqc_session.c:81-88 | the accumulated XOR is zero exactly on equal buffers |
| `KeySchedule.DeriveKey` | firmware/esp32s3-dut/main/pqc_session.c:115-125 | the packed info buffer gives the reference key |
| `Messages.Decode` | server/protocol.py:218-243 | a payload that parses is the encoding of a hello with the suite's field sizes |
| `Messages.DecodeEncode` | server/protocol.py:217-250 | parsing inverts encoding |
| `Messages.Parse` | server/protocol.py:218-243 | the cursor over the payload finds the one hello it encodes, if any |
| `Messages.EncodeInjective` | server/protocol.py:217-250 | equal encodings come from equal hellos, across suites |
| `Messages.HelloLayout` | server/protocol.py:217-250 | where each field of ClientHello is, version 1 first |
| `Messages.MessageSizes` | server/protocol.py:27-32 | the four suites, which of them are mode B, and the length of every message |
| `Records.SealedRecordOpens` | server/protocol.py:293-321 | a sealed record opens to its plaintext exactly when its number is above the last |
| `Records.OpensExactly` | server/protocol.py:303-321 | exactly which payloads are accepted, byte by byte, and with which number and plaintext |
| `Records.RecordLayout` | server/protocol.py:293-301 | number, length and sealed bytes; session id and the ten header bytes are authenticated; 29 bytes more than the plaintext on the wire |
| `Records.NonceLayout` | server/protocol.py:290-291 | twelve bytes, four of them zero, the rest the number |
| `Records.PackedRecordOpens` | server/protocol.py:303-321 | a packed header reads back as packed, so acceptance is the sequence number check and the AEAD's verdict |
| `Records.NonceInjective` | server/protocol.py:286-288 | different sequence numbers give different nonces |
| `Records.RecordStream.Seal` | server/protocol.py:293-301 | seals at the next number, and fails without changing state where packing would |
| `Records.RecordStream.Open` | server/protocol.py:303-321 | the last number moves exactly when the record is accepted |
| `Records.PackU64` | firmware/esp32s3-dut/main/pqc_session.c:419-427 | the shift loop writes the big-endian number and nothing else |
| `Records.BuildRecord` | firmware/esp32s3-dut/main/pqc_session.c:412-451 | the record built in place in `s_frame` is the reference record |
| `Client.PyHandshake` | server/test_client.py:110-179 | the step-by-step handshake sends, accepts and counts what the specification function says, for every byte stream and every cut |
| `Client.PyRespond` | server/test_client.py:139-177 | the server MAC is checked before `ek_E` is used, and the answer is the specified one |
| `Firmware.Device.BuildHello` | firmware/esp32s3-dut/main/pqc_session.c:238-255 | the bytes written through the moving index are those of ClientHello.build |
| `Firmware.Device.HashTranscript` | firmware/esp32s3-dut/main/pqc_session.c:282-297 | hashing piece by piece gives the reference TH2 |
| `Firmware.Device.Stage1` | firmware/esp32s3-dut/main/pqc_session.c:306-324 | stage 1 gives the reference confirmation key, in mode A all four keys |
| `Firmware.Device.Stage2` | firmware/esp32s3-dut/main/pqc_session.c:368-378 | stage 2 gives the reference data keys |
| `Firmware.Device.SplitInPlace` | firmware/esp32s3-dut/main/pqc_session.c:276-280 | the offsets into `s_frame` are where the reference client slices |
| `Firmware.Device.RespondInPlace` | firmware/esp32s3-dut/main/pqc_session.c:282-391 | from the server MAC check to `s_out`: accepts the same offers and writes the same answer as the reference, with every field still intact in `s_frame` |
| `Firmware.Device.Handshake` | firmware/esp32s3-dut/main/pqc_session.c:221-405 | same bytes sent, same ServerHellos accepted, same session and byte count as the reference client |
| `Firmware.Device.SendRecord` | firmware/esp32s3-dut/main/pqc_session.c:409-457 | at most one encryption, at the current number; a record that is too long, fails to encrypt or cannot be written leaves the number alone |
| `Firmware.Device.SessionRun` | firmware/esp32s3-dut/main/pqc_session.c:461-518 | whatever the peer takes is a prefix of one stream of hello, answer, the records up to the first that fails to encrypt, and close; every nonce of the session is used once |
| `Firmware.SessionNoncesDistinct` | firmware/esp32s3-dut/main/pqc_session.c:498-510 | the encryptions of a session, the one whose write failed included, have different nonces |
| `Server.CheckHello` | server/pqc_server.py:209-237 | the checks in the code's order admit exactly the specified hellos, and decapsulate only once the MAC has been verified |
| `Server.AdmittedIsProven` | server/pqc_server.py:209-239 | admitted are exactly the hellos with this key id, a registered device and the right MAC whose ciphertext can be decapsulated |
| `Server.EphemeralKey.Destroy` | server/pqc_server.py:190-201 | the private key is gone |
| `Server.ReadFinished` | server/pqc_server.py:270-292 | the frame that reaches the MAC check is the one the specification concludes from |
| `Server.Exchange` | server/pqc_server.py:240-302 | from ServerHello to the MAC check; the ephemeral key is destroyed on every way out |
| `Server.RecordLoop` | server/pqc_server.py:310-328 | delivers the accepted records in order and ends as the code does, cleanly or with an error |
| `Server.HandleConnection` | server/pqc_server.py:204-331 | a whole connection sends, completes and delivers what the specification function says; in mode B an ephemeral key was made and is destroyed |
| `Completeness.HonestScript` | server/test_client.py:110-179 | for every suite, registered device and random choice there is one exchange of messages, ending in one c2s key, that both ends follow |
| `Completeness.BothEndsAgree` | server/pqc_server.py:254-300 | both ends hold the same messages, PSK and shared secrets, hence the same server confirmation key and the same three keys derived at the end |
| `Completeness.ClientCompletes` | server/test_client.py:126-179 | the client completes on the server's answer, whatever follows it |
| `Completeness.ServerCompletes` | server/pqc_server.py:213-302 | the server completes on the client's messages and reads records from what follows |
| `Completeness.HonestHandshakeCompletes` | docs/protocol.md:372-382 | the client sends its hello before reading, the server answers on the hello alone, the client completes on that answer; both hold the same session id and all the same keys, and the reported count is the bytes exchanged: 1279 and 3551 for suites 0x01 and 0x11 |
| `Completeness.EveryDeliveryCompletes` | server/protocol.py:78-99 | after any chunks in any order either both ends have completed, after exactly the announced number of bytes, or one of them has sent a byte not yet handed over |
| `Completeness.CutSessionDeliversPrefix` | server/pqc_server.py:310-328 | a network that only cuts the client's stream makes the server deliver a prefix of the plaintexts, all of them if nothing is cut |
| `Refusals.AnswersOnlyProvenHellos` | server/pqc_server.py:223-268 | whatever arrives, the server sends nothing, or part of one ServerHello frame in answer to a proven hello |
| `Refusals.AnswerIgnoresTheRest` | docs/protocol.md:365-368 | what the server sends does not depend on anything after the first frame |
| `Refusals.CompletedOnTwoFrames` | server/pqc_server.py:270-272 | a server completes only on a frame of type 1 followed by one of type 3 |
| `Refusals.ClientSaysOnly` | server/test_client.py:126-179 | whatever arrives, the client sends its hello and, only after a ServerHello whose MAC verifies, one ClientFinished; the reported byte count is right on every stream |
| `Refusals.UnwelcomeFrameEnds` | server/pqc_server.py:312-323 | the first frame out of place ends the session: exactly the records before it are delivered, nothing behind it counts |
| `Refusals.ReplayedRecordEnds` | server/protocol.py:311-313 | a replayed record is such a frame |
| `Refusals.ForeignRecordEnds` | server/protocol.py:314-321 | so is every Data payload that is not, byte for byte, one of the client's later records |
| `Refusals.CloseEnds` | server/pqc_server.py:316-320 | Close, or a stream that ends inside a frame, ends the session in order |
| `Refusals.DeliverExactly` | server/pqc_server.py:310-328 | for any bytes, the longest run of Data frames accepted in turn is delivered, and the session ends in order exactly if Close or an unreadable frame follows |
| `Sessions.SessionStreamIsTail` | firmware/esp32s3-dut/main/pqc_session.c:498-513 | the firmware's stream is the record stream of either client and ends in the bytes of Close, unless an encryption fails |
| `Sessions.SendAllAndClose` | server/test_client.py:194-207 | the Python client's loop sends that stream |
| `Sessions.SessionArrives` | server/pqc_server.py:310-328 | from a whole session the server delivers a prefix of what was sealed, and exactly that, in order, if nothing is cut |
| `Meaning.HelloMeaning` | server/protocol.py:245-250 | ClientHello.build computes the value of the hello term |
| `Meaning.Th2Meaning` | server/protocol.py:148-157 | transcript_2 computes the value of the TH2 term |
| `Meaning.Th3Meaning` | server/protocol.py:160-161 | transcript_3 computes the value of the TH3 term |
| `Meaning.KeyMeaning` | server/protocol.py:109-117 | one HKDF-Expand is one key term |
| `Meaning.ServerMacMeaning` | server/pqc_server.py:256-264 | the server MAC in both modes is the value of one term |
| `Meaning.DataKeysMeaning` | server/protocol.py:128-191 | the data keys of both modes are the values of the data key terms |
| `Meaning.RecordMeaning` | server/protocol.py:293-301 | a Data payload is the value of the record term |
| `Meaning.OpenMeaning` | server/test_client.py:116-126 | the ClientHello sent is the value of the run's hello term |
| `Meaning.RespondMeaning` | server/test_client.py:139-177 | the client answers exactly on the value of the run's ServerMac term, in mode B if `ek_E` is encapsulated to, and then with the values of the run's Finished and c2s key terms |
| `Meaning.AcceptMeaning` | server/test_client.py:139-166 | the client answers exactly when the state machine's client accepts, if encapsulation takes exactly the canonical keys and the MAC collides with none |
| `Meaning.ReadMeaning` | server/protocol.py:303-321 | the record loop accepts exactly what the state machine's server opens, with the value of its plaintext |
| `Meaning.ReplyMeaning` | server/pqc_server.py:254-268 | the ServerHello sent is the value of the run's ServerHello term |
| `Meaning.ConcludeMeaning` | server/pqc_server.py:270-302 | the server completes exactly when the MAC is the value of its client MAC term, and then holds the value of the c2s term |
| `Meaning.DecapMeaning` | server/pqc_server.py:124-139 | decapsulation computes the value of the Decap term for every ciphertext, the right one or not |
| `Meaning.AdmitMeaning` | server/pqc_server.py:209-237 | the server admits exactly the registered hellos that are the value of the ClientHello term of the view they carry, and starts from the values of that view's secrets |
| `Meaning.ServerFinishMeaning` | server/pqc_server.py:270-302 | for any `ct_eph` the server completes exactly when the state machine's server does, with the same c2s key |
| `Integrity.AcceptedIsGenuine` | server/protocol.py:303-321 | with an AEAD that opens only what was sealed, an accepted payload is byte for byte a record of the session's client with a number above the last |
| `Integrity.DeliveredWasSealed` | server/pqc_server.py:310-328 | for every byte stream the record loop delivers a subsequence of what the client sealed, by strictly increasing numbers |
| `Injectivity.Th2PreimageInjective` | server/protocol.py:148-157 | equal TH2 preimages come from equal handshakes, across all four suites |
| `Injectivity.Th3PreimageInjective` | server/protocol.py:160-161 | equal TH3 preimages agree in TH2 and `ct_eph` |
| `Injectivity.Th2NeverTh3` | server/protocol.py:148-161 | a TH2 preimage is never a TH3 preimage, for any two suites |
| `Injectivity.Th2Binds` | server/protocol.py:148-157 | two handshakes with the same TH2 are equal or exhibit a SHA-256 collision |
| `Injectivity.InfoInjective` | server/protocol.py:139-191 | label and transcript hash are uniquely decodable from an HKDF info |
| `Injectivity.SessionKeysSeparate` | server/protocol.py:128-191 | no two keys of a session are equal, in either mode, unless two named HMAC queries with different labels collide |
| `Injectivity.HelloMacSeparate` | server/protocol.py:194-195 | the hello MAC is no key of any session, up to such a collision |
| `Injectivity.IkmInjective` | server/protocol.py:164-191 | stage-1 and stage-2 inputs never coincide, and a stage-1 input decodes uniquely |
| `Injectivity.Ikm2Injective` | server/protocol.py:177-191 | a stage-2 input decodes uniquely |
| `Injectivity.ConfirmationInjective` | server/pqc_server.py:264-300 | client and server never confirm the same string, and a client confirmation decodes uniquely |
| `Agreement.EqualMacEqualOpening` | server/protocol.py:148-174 | equal server MACs come from ends that agree on hello, nonces, session id, `ek_E`, static shared secret and PSK, up to four named collisions |
| `Agreement.AnswerProvesAgreement` | server/test_client.py:139-156 | a client that answers a server's MAC agrees with that server on all of this, whatever else was on the wire, or the two exhibit a named collision |
| `Agreement.AnswerIsEnd` | server/test_client.py:139-177 | what a client that answers has computed, from its messages and secrets |
| `Agreement.CompletionIsEnd` | server/pqc_server.py:254-302 | a server completes only on the ClientFinished of its own messages and secrets |
| `Agreement.EqualFinishedEqualEnds` | server/protocol.py:139-191 | equal ClientFinished payloads come from ends with equal messages and secrets, up to a named collision |
| `Agreement.CompletionProvesAgreement` | server/pqc_server.py:270-302 | a server that completes on a client's answer agrees with it on hello, nonces, session id, `ek_E`, `ct_eph`, PSK, shared secrets and keys, or the two exhibit a named collision |
| `Rogue.RogueServer.Handle` | server/rogue_server.py:122-212 | what each mode sends and records, for every stream and every cut |
| `Rogue.RogueServer.FlipInPlace` | server/rogue_server.py:196-200 | the XOR flips exactly the lowest bit of the last byte |
| `Rogue.MalformedIsNotReduced` | server/rogue_server.py:145-153 | eight 0xff bytes in front make any key fail the modulus check of FIPS 203 section 7.2 |
| `Rogue.OneChangeFromHonest` | server/rogue_server.py:98-200 | the attacks are what they are called: undo the one change, or hold the impostor's secret, and the client takes the MAC |
| `Rogue.MalformedAnswers` | server/rogue_server.py:164-180 | the four answers that involve no key, byte for byte |
| `Rogue.ReplaySendsAgain` | server/rogue_server.py:202-210 | replay mode records what it first sends and sends those bytes again |
| `Rogue.MalformedAnswerRefused` | server/rogue_server.py:164-180 | silence, wrong type, wrong length and truncation are refused outright |
| `Rogue.WrongMacRefused` | server/rogue_server.py:196-200 | a flipped MAC bit is refused, outright if the rogue holds the client's secrets, otherwise unless the flipped value is the client's own MAC under its other key |
| `Rogue.BadEkRefused` | server/rogue_server.py:145-153 | a malformed `ek_E` is refused outright, correctly MACed or not |
| `Rogue.SwapEkRefused` | server/rogue_server.py:155-162 | another `ek_E` on the wire than under the MAC is refused, up to a named collision |
| `Rogue.ImpostorRefused` | server/rogue_server.py:182-190 | an unpinned key or another PSK is refused, up to a named collision |
| `Rogue.StoreOrigin` | server/rogue_server.py:202-210 | the recorded ServerHello was built in one of the earlier connections |
| `Rogue.ReplayOfRefused` | server/rogue_server.py:202-206 | a ServerHello built for another nonce is refused, up to a named collision |
| `Rogue.EveryModeIsRefused` | server/rogue_server.py:122-212 | all nine modes, whichever key and PSK the rogue holds and whichever device connects, after any earlier connections and however much of the answer arrives |
| `Rogue.UnattackedSucceedsInModeA` | server/rogue_server.py:133-143 | a connection that is not attacked, by a rogue that holds the client's secrets, succeeds exactly in mode A |
| `Devices.DeviceTable.ReloadFile` | server/pqc_server.py:62-79 | loads the version current at the read under the time of the stat, or changes nothing |
| `Devices.DeviceTable.CheckEntries` | server/pqc_server.py:73-75 | the loop accepts exactly the tables of 8-byte ids and 32-byte PSKs |
| `Devices.DeviceTable.Start` | server/pqc_server.py:51-60 | the server starts exactly when the table loads, with the cache a well-formed version of the file |
| `Devices.DeviceTable.PskFor` | server/pqc_server.py:81-89 | a lookup with arbitrary changes in both of its gaps is one step of the specification; it answers with the entry of the table it leaves, or that there is none |
| `Devices.PrivateMeansNoOthers` | server/pqc_server.py:62-68 | a private table has all six permission bits of group and others clear |
| `Devices.LastWriteIsCurrent` | server/pqc_server.py:62-72 | the last write is what is current, and permissions and content change independently |
| `Devices.OverlappedReloadIsRepeated` | server/pqc_server.py:62-79 | a reload keeps the time of its stat and the content of its read |
| `Devices.StepServes` | server/pqc_server.py:62-89 | a step keeps the cache one complete well-formed version and never serves an older one |
| `Devices.ServedVersionsNeverGoBack` | server/pqc_server.py:62-89 | the same over every run |
| `Devices.QuietLookup` | server/pqc_server.py:81-89 | a lookup no change overlaps serves the current file, keeps the cache or ends the process, each in exactly the stated cases |
| `Devices.QuietLookupAfterAnyRun` | server/pqc_server.py:40-49 | after any run such a lookup returns the current file's entry if that is a valid private table |
| `Devices.CurrentExactlyWhen` | server/pqc_server.py:81-89 | for any times, an undisturbed lookup ends with the current valid table if and only if its time differs from the cached one and it is private, or the times are equal and the cache holds the same entries |
| `Devices.RepeatedTimeGoesUnnoticed` | server/pqc_server.py:83-84 | the input that shows it: two versions with one modification time leave the table stale |
| `Spki.ParseSpki` | tools/pin_server_key.py:44-87 | the cursor walk returns what the specification finds, for any bytes |
| `Spki.LayoutAccepted` | tools/pin_server_key.py:63-87 | everything laid out as a SubjectPublicKeyInfo is accepted and yields its key |
| `Spki.AcceptedLayout` | tools/pin_server_key.py:63-87 | everything accepted is laid out that way |
| `Spki.SpkiRoundTrip` | tools/pin_server_key.py:44-87 | the walker inverts the DER encoding for any algorithm identifier and key, and rejects every other expected length |
| `Spki.RawPublicFromDer` | server/pqc_server.py:142-146 | the loop over the three lengths takes what follows the 22-byte header |
| `Spki.FixedHeader` | server/pqc_server.py:115-121 | for ML-KEM keys the header is 22 bytes and depends on the key's length alone |
| `Spki.HeaderBytes` | server/pqc_server.py:115-121 | the 22 bytes of that header |
| `Spki.ReadersAgree` | server/pqc_server.py:142-146 | both readers take the same key out of a well-formed ML-KEM key |
| `Spki.ReadersAgreeWithoutTail` | tools/pin_server_key.py:81-87 | on any bytes they agree if nothing follows the bit string |
| `Spki.KeyIdsCoincide` | tools/pin_server_key.py:128-131 | pinned id, server id and the id a client sends are the same |
| `Spki.WrapAccepts` | server/test_client.py:52-54 | exactly which raw keys pass the prefix check |
| `Spki.WrapTakesALongKey` | server/test_client.py:52-54 | one that should not |
| `Spki.WrapInverts` | server/test_client.py:41-58 | for a key from a ServerHello the check is the size comparison, and both readers get the wrapped key back |
| `Bench.WrappedIsElapsed` | firmware/esp32s3-bench/main/bench.c:67-72 | the unsigned difference is the elapsed count exactly below 2^32 |
| `Bench.PartialSumsAreExact` | firmware/esp32s3-bench/main/bench.c:74-77 | every partial sum is an integer below 2^53 |
| `Bench.SortedSorts` | firmware/esp32s3-bench/main/bench.c:86-86 | sorting gives an ascending permutation |
| `Bench.AnySortAgrees` | firmware/esp32s3-bench/main/bench.c:86-86 | every ascending permutation is that one, so the report does not depend on the sorting algorithm |
| `Bench.Qsort` | firmware/esp32s3-bench/main/bench.c:86-86 | the first n samples are sorted in place, the rest is untouched |
| `Bench.CompareIsOrder` | firmware/esp32s3-bench/main/bench.c:48-53 | the comparison is a consistent order |
| `Bench.OrderStatistics` | firmware/esp32s3-bench/main/bench.c:90-92 | min and max bound all samples and occur; at most n/2 samples lie below the median and more than n/2 at or below it |
| `Bench.MeanAndSpread` | firmware/esp32s3-bench/main/bench.c:78-94 | min <= mean <= max, and the variance is at most (max - mean) * (mean - min) |
| `Bench.VarianceIsLeast` | firmware/esp32s3-bench/main/bench.c:80-84 | the mean squared distance from any point is the variance plus the squared distance of the mean from it |
| `Bench.StddevBound` | firmware/esp32s3-bench/main/bench.c:94-94 | where the square root is exact, stddev squared is the variance, at most (max - mean) * (mean - min), and stddev at most half the range |
| `Bench.Harness.Measure` | firmware/esp32s3-bench/main/bench.c:55-97 | refuses outside 3 to 200 runs, otherwise reports on the samples taken after two warm-up calls |

## Left out

- ML-KEM, SHA-256, HMAC and AES-GCM themselves: mlkem-native, OpenSSL, mbedtls and
  `cryptography` are not part of this model. Random values are inputs; that they are
  fresh and unguessable is an assumption.
- Four-byte key ids: the state machine treats a key id as naming one key, so
  collisions of its four bytes are not modelled there.
- ML-KEM rejecting a ciphertext or key for its length is an error path of the byte
  layer only; in the state machine such a run simply stops.
- The PSK table of the state machine only gains devices; changing a device's PSK is
  covered by `Devices`, not by the secrecy theorems.
- Timeouts, connection setup, logging, subprocess calls, temporary files and the
  overwriting of the key file: key destruction is the removal of the key from the
  server's state.
- Clearing of stack buffers in the firmware (`memset` of `ss`, `ikm` and `prk`): the
  state machine lets the shared secrets of a running client be read, which only the
  Python client still holds. Timing, including whether `ct_equal` takes constant time.
- Erasure of a finished client's session: the firmware never clears `session.c2s` and
  `keys`, so that they cannot be read once the run has ended is an assumption of the
  state machine.
- The server-to-client direction of the record layer, which the code derives a key
  for and does not use.
- The rekey limit and interval of `docs/protocol.md`, which the code does not have.
- The rejection script of `server/test_client.py` with its deliberately corrupted
  handshakes (`corrupt_psk_mac`, `corrupt_client_mac`): what it expects of the server
  is covered by `Refusals`, for all inputs.
- `Firmware.Device.SessionRun`: the text of a record (`snprintf`) is a parameter; that
  it fits the frame buffer is a precondition, as 80 bytes of text always do.
- `esp_timer` measurements, `encap_us` and `eph_encap_us`.
- JSON and hex parsing: a version of the device table is given by what parsing it
  yields. A file read while it is being written counts as a version of its own.
- `Bench.Harness.Measure`: mean and variance are computed over the reals and their
  rounding in doubles is not modelled; the sum is exact. `sqrt` is a parameter, and
  `qsort` is not part of this model: an insertion sort stands in for it.
- `bench_stack_usage`, Wi-Fi, random number guard, self-test and known-answer drivers,
  `register_device.py`, `generate_kat_header.py` and `hostile_server_drill.py`: hardware
  calls, text generation and straight-line checks.
