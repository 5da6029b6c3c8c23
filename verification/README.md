# A verified model of the virtual YubiHSM core

The virtual YubiHSM is a device that takes one encoded frame and answers with one encoded frame.
This project models its core as a state machine in Dafny and proves what holds over every input,
every exchange and every run of it: the secure channel at both ends, the session table, the object
store and its authorization, options, audit log, persistence, and the two small transport
protocols around it.

`dafny verify dfyconfig.toml` checks everything.

## How it is built

- **Values.** `capability`, `object`, `authorization`, `options`, `audit`, `volatile`, `requests`,
  `protocol`, `frame`, `session`, `cbor` and `wrapped` hold one component each.
- **The device.** `store` and `commands` give every inner command as a function from durable state
  to an answer and one effect. `machine` puts sessions, audit, marking and framing around it.
- **The objects.** `device.dfy` has the device as a class whose methods change its fields in place,
  and `symmetric_session.dfy` the client as a class that talks to it; each method is proved equal
  to the state machine.
- **Runs.** `discipline` states the one fact about handlers that everything else rests on. `trace`
  turns each frame into one of five happenings. `runs`, `epochs`, `sessions`, `accounting`,
  `generations`, `migration`, `attenuation` and `lockstep` are theorems over whole runs; a run may also lose all
  sessions or restart from its own saved image. `hidden` and `persistence` are relational;
  `roundtrips` and `listing` relate requests, store and answers.
- **Commands, said of their bytes.** `entitlement` has who may run what, `opening` how sessions begin,
  `key_creation`, `key_material` and `key_import` when keys are made and what is stored,
  `option_commands`, `session_commands`, `library_calls` and `answers` the other commands. They speak of the
  request's own bytes and of literal command numbers, not of the functions that handle them.
- **Around it.** `crc`, `usb` and `buttons` stand alone.

Parameters of the model: AES, CBC, CMAC and key derivation (`Cipher`, with decryption undoing
encryption and fixed lengths), the private-key library (`KeyLibrary`, with parse and PKCS #8 round
trips), SHA-256, the uses of single keys and the SCP11 agreement (`Foreign`). Time, random draws
and fresh secrets come with each frame (`Env`). The laws asked of these parameters hold together:
`witness` has a plain instance and opens a session on its factory device. No theorem assumes an
injective MAC; where one
would be needed the conclusion names the collision instead.

## What the proofs found

- *Epochs.* Equal epochs mean equal durable state except at the largest epoch: there the frame has
  run, the change stays pending and the request fails (`StaleEpochExactly`, with a device where it
  happens in `StaleEpochWitness`).
- *Forced audit.* A command denied for its session capability never reaches the audit code, so it
  leaves no entry even with force-audit on (`ForcedAuditAccounting`).
- *Trimming.* After the number wraps from 65535 to 1, SetLogIndex can drop a newer entry and keep
  an older one, in a log that appends and trims do reach (`WrapKeepsOlderEntry`); it leaves a
  suffix exactly when numbers ascend (`PrefixExactly`).
- *Reopening.* With capacity 1 and SetLogIndex itself audited, a full log cannot be reopened
  (`LogReopens`).
- *Reset.* An audited reset logs its own entry, as number 1, in the fresh log.
- *Hidden objects.* Creation under a given identifier, and wrapped export with a wrap key that may
  not be used, tell hidden from missing (`CreationRevealsExactly`, `ExportRevealsExactly`).
- *Initialization vectors.* A request and its response share key and counter, and so the
  initialization vector (`ExchangeSharesCounter`).
- *USB framing.* An endpoint that becomes unavailable between a full packet and its zero-length
  packet makes two responses one (`LostTerminatorMerges`); `ServedExactly` gives the condition.
- *Size of the envelope.* A command that changes state never fails the late size check
  (`EffectsFit`), which is why errors are atomic.

## Model

| member | source | states |
|---|---|---|
| `Lockstep.ChannelLockstep` | crates/virtual-yubihsm-core/src/device.rs:585-637 | over every run that mixes exchanges of one client (inner data up to 8172 bytes) with any other requests, commits, restarts and lost sessions: while the device holds that session both ends agree on keys, counter and chaining value, and each exchange hands the client exactly the inner response frame |
| `Lockstep.ExchangeKept` | crates/yubihsm-qualification/src/lib.rs:2587-2651 | one exchange in encoded frames: a timed-out session answers InvalidSession and is gone; a live one delivers the device's inner response and leaves both ends in step unless the command closed it |
| `Lockstep.HandshakeSynchronizes` | crates/yubihsm-qualification/src/lib.rs:2455-2520 | the two encoded messages of the symmetric handshake leave client and device in step, so lockstep has a beginning |
| `Lockstep.ConcludeInStep` | crates/virtual-yubihsm-core/src/device.rs:614-637 | whatever the command did and whatever the answer, its response encrypts and the client reads exactly it; the session is gone exactly after CloseSession, or after a ResetDevice that was not denied and was answered with success, and otherwise it is in step |
| `Lockstep.ExchangeEndsExactly` | crates/virtual-yubihsm-core/src/device.rs:614-637 | the same of a complete exchange in encoded frames, said of the inner command 0x40 or 0x08 and the answer that the client decrypts |
| `SecureChannel.AcceptedMessageIsMaced` | crates/virtual-yubihsm-core/src/session.rs:156-209 | a message is accepted only when it ends with the first eight bytes of the MAC over the chaining value and everything before, under its own session number, in whole blocks |
| `SecureChannel.AuthenticatedExactly` | crates/virtual-yubihsm-core/src/session.rs:139-154 | a session is authenticated exactly by the expected cryptogram under its number with its MAC, in 17 bytes |
| `Client.TakenAnswerIsMaced` | crates/yubihsm-qualification/src/lib.rs:2614-2650 | the client takes an answer only with the device's MAC over its own command's MAC, under its session number |
| `Opening.OpensExactly` | crates/virtual-yubihsm-core/src/device.rs:452-540 | CreateSession succeeds exactly with an authentication key, a challenge or point that fits it, and one of sixteen numbers free |
| `Opening.OpensWithKeysPowers` | crates/virtual-yubihsm-core/src/device.rs:452-540 | a session is opened under the lowest free number with exactly the capabilities, delegated set and domains that its key has at that moment, no session objects, and authenticated at once exactly for a public key |
| `Opening.AdmitsExactly` | crates/virtual-yubihsm-core/src/device.rs:542-583 | a waiting session is admitted exactly by the expected cryptogram with its MAC; powers and objects stay, time starts anew |
| `Opening.AsymmetricSynchronizes` | crates/virtual-yubihsm-core/src/device.rs:489-540 | an asymmetric session starts with the agreed keys, counter one and the receipt as chaining value, so that a client with the same keys is in step |
| `Opening.OuterRefuses` | crates/virtual-yubihsm-core/src/device.rs:361-387 | outside a session every command but six is refused without a change |
| `Client.DeviceReads` | crates/virtual-yubihsm-core/src/session.rs:156-168 | the device recovers exactly the inner frame that a client in step sealed, and its chaining value becomes the client's MAC |
| `Client.ClientReads` | crates/virtual-yubihsm-core/src/session.rs:170-192 | the client recovers exactly the inner response, and both ends have advanced alike |
| `Client.HandshakeInStep` | crates/virtual-yubihsm-core/src/session.rs:63-85 | client and device derive the same keys, the device accepts the host cryptogram, the client the card cryptogram, and counter and chaining value agree |
| `LiveClient.SymmetricSession.Seal` | crates/yubihsm-qualification/src/lib.rs:2587-2609 | encrypts, counts and MACs into buffers; the frame and MAC are those of the specification |
| `LiveClient.SymmetricSession.Open` | crates/yubihsm-qualification/src/lib.rs:2614-2650 | counter and command MAC advance only after MAC, session number, padding and inner frame all verified |
| `LiveClient.SymmetricSession.Command` | crates/yubihsm-qualification/src/lib.rs:2587-2651 | client object and device object together move as the two-party specification says |
| `Counter.IncrementAddsOne` | crates/virtual-yubihsm-core/src/session.rs:256-264 | incrementing the bytes adds one modulo the width of the counter |
| `Counter.IncrementInPlace` | crates/virtual-yubihsm-core/src/session.rs:256-264 | the in-place loop computes the increment for every array of bytes |
| `Counter.NumberInjective` | crates/virtual-yubihsm-core/src/session.rs:256-264 | equal numbers of equal width mean equal counters |
| `Sessions.CountersRepeatExactly` | crates/virtual-yubihsm-core/src/session.rs:256-264 | at two moments of one session, or of two opened alike, counters are equal exactly when the numbers of accepted requests differ by a multiple of 2^128 |
| `Lockstep.ExchangeSharesCounter` | crates/virtual-yubihsm-core/src/session.rs:156-192 | a request and its response are encrypted from the same counter, so with the same key and initialization vector |
| `SecureChannel.SecureSession.Verify` | crates/virtual-yubihsm-core/src/session.rs:194-209 | accepts exactly a matching truncated MAC over the chained prefix, and only then replaces the chaining value |
| `SecureChannel.SecureSession.Authenticate` | crates/virtual-yubihsm-core/src/session.rs:139-154 | accepts exactly the expected host cryptogram under its own session number and then counts |
| `SecureChannel.SecureSession.Decrypt` | crates/virtual-yubihsm-core/src/session.rs:156-168 | verifies, checks shape and session number, decrypts, unpads and parses; the counter stays |
| `SecureChannel.SecureSession.Encrypt` | crates/virtual-yubihsm-core/src/session.rs:170-192 | seals the response under the current counter and chaining value, then counts |
| `SecureChannel.ChainBindsHistory` | crates/virtual-yubihsm-core/src/session.rs:194-209 | equal chaining values come from equal ordered lists of accepted requests, or the MAC collides on inputs those lists used |
| `Sessions.ChainingDeterminesHistory` | crates/virtual-yubihsm-core/src/session.rs:194-209 | for two device sessions with equal MAC key and beginning, equal chaining values mean the same accepted requests in the same order, up to a MAC collision on inputs used |
| `Sessions.SessionTableOverRuns` | crates/virtual-yubihsm-core/src/device.rs:452-637 | from factory default, over every run: at most 16 entries, each under its own number; unauthenticated exactly while a cryptogram is expected, with counter 0; counters are the opening counter plus accepted requests modulo 2^128; chaining values are the chain of those requests |
| `Sessions.OthersUnaffected` | crates/virtual-yubihsm-core/src/device.rs:361-387 | a request alters no entry it does not name, except by timeout or by a reset, which empties the table |
| `Sessions.ResetCloses` | crates/virtual-yubihsm-core/src/device.rs:618-636 | a reset that ran ends the session that asked for it and leaves only the factory key, default options and no sessions |
| `Sessions.ReplayTable` | crates/virtual-yubihsm-core/src/device.rs:452-637 | the session table after any frame, entry by entry |
| `Envelope.FitsExactly` | crates/virtual-yubihsm-core/src/session.rs:24-40 | the size check accepts exactly inner data of at most 8172 bytes |
| `Envelope.FitsMeansFrame` | crates/virtual-yubihsm-core/src/session.rs:24-40 | it decides exactly whether the padded, tagged and MACed outer frame is at most 8192 bytes |
| `Accounting.LogAlwaysAnswers` | crates/virtual-yubihsm-core/src/device.rs:1411-1421 | on every reachable device, for every capacity and even with a full log under force-audit, GetLogEntries answers with 5 + 32 n bytes and is never refused for size |
| `Accounting.LogAnswerFits` | crates/virtual-yubihsm-core/src/device.rs:1411-1421 | that answer fits the envelope, and the entries can be told from its bytes |
| `Envelope.UnpadPad` | crates/virtual-yubihsm-core/src/session.rs:170-192 | removing ISO/IEC 7816-4 padding undoes adding it |
| `Frames.ParseExactly` | crates/virtual-yubihsm-core/src/frame.rs:24-41 | parsing accepts exactly the encodings of frames within the limit |
| `Frames.EncodeBuffer` | crates/virtual-yubihsm-core/src/frame.rs:35-41 | the buffer that is appended to holds the encoding |
| `Attenuation.TransitiveAttenuation` | crates/virtual-yubihsm-core/src/authorization.rs:49-67 | over every run acted on only by sessions of a key K and of keys descended from it, K without reset-device in its own or delegated set: every object is an original with its original powers or lies within K's delegated set and domains, and no step is a reset |
| `Attenuation.EffectStaysInTree` | crates/virtual-yubihsm-core/src/device.rs:1662-1754 | what one permitted command may write or remove keeps the tree bounded, and it is no reset |
| `Attenuation.SnapshotIsTame` | crates/virtual-yubihsm-core/src/device.rs:389-409 | a session opened with a key of the tree has that key's bounded powers |
| `Attenuation.AttenuationBegins` | crates/virtual-yubihsm-core/src/device.rs:389-409 | every device state, with any key in it as root, satisfies the invariant that the run theorem starts from |
| `Attenuation.ResetRefused` | crates/virtual-yubihsm-core/src/device.rs:606-613 | every session of the tree that asks for a reset is refused before anything happens |
| `Authorization.CreateExactly` | crates/virtual-yubihsm-core/src/authorization.rs:49-67 | creation is allowed exactly for valid objects within the session's domains and delegated members, with the command's capability |
| `Authorization.WrappingExactly` | crates/virtual-yubihsm-core/src/authorization.rs:75-113 | wrapped export and wrapped creation are allowed exactly under visibility, capabilities and the wrap key's ceiling |
| `Entitlement.AuthorizedExactly` | crates/virtual-yubihsm-core/src/device.rs:1040-1371 | a command is authorized exactly when the session has what the command asks of it and, for every object that the request's own bytes name, shares a domain and has the capability together with the object |
| `Entitlement.OnlyEntitledRuns` | crates/virtual-yubihsm-core/src/device.rs:863-900 | no command but the three that need no session succeeds without that, and without the firmware knowing it |
| `Entitlement.KeyUseAnswers` | crates/virtual-yubihsm-core/src/device.rs:1354-1362 | a key use that succeeds is the library's use of the very object named, which session and object may use in that way, and changes nothing |
| `Entitlement.RefusalsTell` | crates/virtual-yubihsm-core/src/authorization.rs:38-45 | an object that is not seen is not found; a capability missing in session or object is a missing permission |
| `LibraryCalls.UseAnswersExactly` | crates/virtual-yubihsm-core/src/device.rs:1991-2210 | each command that uses one key answers exactly for its form of request, a seen object of its type with an enabled algorithm, and what the library answers |
| `LibraryCalls.RewrapAnswersExactly` | crates/virtual-yubihsm-core/src/device.rs:3238-3256 | rewrapping gives the library both keys in the order named |
| `LibraryCalls.PublicKeyExactly` | crates/virtual-yubihsm-core/src/device.rs:1812-1872 | a public key is given exactly of a seen object of one of four types |
| `LibraryCalls.ExportAnswersExactly` | crates/virtual-yubihsm-core/src/device.rs:2744-2880 | wrapping gives the library the key named first and the object named second, exactly for the three forms of request |
| `LibraryCalls.AttestAnswersExactly` | crates/virtual-yubihsm-core/src/device.rs:1874-1990 | attestation is of the key named first by the key and certificate named second |
| `KeyCreation.CreateSucceedsExactly` | crates/virtual-yubihsm-core/src/device.rs:1719-1810 | a creating command succeeds exactly when the request is long enough, the algorithm is enabled and suits command and bytes, the identifier is to be had, and domains, capabilities and delegated set lie below the session's |
| `KeyMaterial.CreatedKeyIsSentOrDrawn` | crates/virtual-yubihsm-core/src/device.rs:2476-2713 | every putting command that succeeds stores the key in the request's own bytes, and every generating one what was drawn, of the algorithm's length |
| `KeyCreation.OpaqueReplacedExactly` | crates/virtual-yubihsm-core/src/device.rs:1662-1717 | replacing an opaque object keeps everything but bytes and length, exactly when the metadata sent repeats that of the object |
| `KeyCreation.OpaqueCreatedExactly` | crates/virtual-yubihsm-core/src/device.rs:1662-1717 | a new opaque object is stored as requested, exactly when the session may create it |
| `KeyImporting.ImportSucceedsExactly` | crates/virtual-yubihsm-core/src/device.rs:2764-2793 | a wrapped import succeeds exactly under a seen wrap key of the right kind, for a wrapped object below the session's delegation and the wrap key's ceiling whose identifier is free for its type |
| `KeyMaterial.ImportStores` | crates/virtual-yubihsm-core/src/device.rs:2764-2793 | it stores the very record that the plaintext encodes, marked as imported |
| `KeyImporting.KeyImportSucceedsExactly` | crates/virtual-yubihsm-core/src/device.rs:2921-3009 | an RSA-wrapped key comes in exactly when type, algorithm, key bytes and wrap key suit and session and wrap key allow it |
| `KeyMaterial.KeyImportStores` | crates/virtual-yubihsm-core/src/device.rs:2921-3009 | it stores the unwrapped key under the metadata at its place in the request |
| `KeyImporting.ChangeSucceedsExactly` | crates/virtual-yubihsm-core/src/device.rs:3347-3371 | an authentication key changes exactly to an enabled algorithm and a key of it |
| `KeyMaterial.ChangedKeyIsSent` | crates/virtual-yubihsm-core/src/device.rs:3347-3371 | and then the key sent is stored, under unchanged identifier, domains, capabilities, delegated set and label |
| `Authorization.CreationAttenuates` | crates/virtual-yubihsm-core/src/authorization.rs:49-67 | what bounds a session's delegation bounds everything it may create |
| `Authorization.BoundedLacks` | crates/virtual-yubihsm-core/src/authorization.rs:13-19 | a bounded session lacks every capability that the bound lacks |
| `Capabilities.SubsetMeaning` | crates/virtual-yubihsm-core/src/capability.rs:122-131 | the byte-wise subset test is inclusion of the sets of capabilities |
| `Capabilities.InsertMeaning` | crates/virtual-yubihsm-core/src/capability.rs:133-136 | insertion adds exactly one member |
| `Capabilities.RemoveMeaning` | crates/virtual-yubihsm-core/src/capability.rs:138-141 | removal drops exactly one member |
| `Capabilities.IntersectionMeaning` | crates/virtual-yubihsm-core/src/capability.rs:159-167 | intersection keeps exactly the common members |
| `Capabilities.RetainMeaning` | crates/virtual-yubihsm-core/src/capability.rs:143-157 | retaining firmware capabilities drops exactly the unsupported ones |
| `Capabilities.RetainLoop` | crates/virtual-yubihsm-core/src/capability.rs:143-157 | the loop that removes one capability after another computes that set |
| `Capabilities.FromCapabilities` | crates/virtual-yubihsm-core/src/capability.rs:109-115 | the loop over a list of capabilities builds the set of its members |
| `Discipline.CommandDiscipline` | crates/virtual-yubihsm-core/src/device.rs:863-1038 | whichever command ran: it writes only valid, settled objects, new ones attenuated by the session and replaced ones with unchanged powers; removes only visible deletable ones; latches options; resets only with the capability; stays within session-object limits |
| `Discipline.RegistryAgrees` | crates/virtual-yubihsm-core/src/protocol.rs:213-270 | the capability that the registry demands first is the one that the command's own authorization asks of the session |
| `Discipline.CreateDiscipline` | crates/virtual-yubihsm-core/src/device.rs:1719-1810 | key-creating commands write one new, sound object attenuated by the session |
| `Discipline.WriteOpaqueDiscipline` | crates/virtual-yubihsm-core/src/device.rs:1662-1717 | putting an opaque object makes an attenuated one or keeps the powers of the one replaced |
| `Discipline.ImportDiscipline` | crates/virtual-yubihsm-core/src/device.rs:2764-2793 | a wrapped import writes one new, sound object attenuated by the session |
| `Discipline.ImportKeyDiscipline` | crates/virtual-yubihsm-core/src/device.rs:2921-3009 | an RSA-wrapped key import writes one new, sound object attenuated by the session |
| `Discipline.ChangeKeyDiscipline` | crates/virtual-yubihsm-core/src/device.rs:3347-3371 | changing an authentication key keeps its powers |
| `Discipline.VolatileDiscipline` | crates/virtual-yubihsm-core/src/device.rs:2211-2382 | session-object commands touch session objects only, under fresh nonzero handles and the limit of objects |
| `Hidden.HiddenErasable` | crates/virtual-yubihsm-core/src/device.rs:1040-1371 | for reading, listing, deleting, key use, rewrapping, session-object and similar commands, response, session objects and visible state are as if every object sharing no domain with the session were absent |
| `Hidden.HiddenInConversations` | crates/virtual-yubihsm-core/src/device.rs:1040-1371 | the same over any number of such commands: the list of responses does not depend on hidden objects |
| `Hidden.EffectCommutes` | crates/virtual-yubihsm-core/src/device.rs:1003-1013 | erasing hidden objects commutes with the change a covered command makes, and hidden objects stay as they are |
| `Hidden.ListAlike` | crates/virtual-yubihsm-core/src/device.rs:1644-1660 | listing gives the same bytes with and without hidden objects, at every position of the key order |
| `Hidden.CreationRevealsExactly` | crates/virtual-yubihsm-core/src/device.rs:3373-3391 | outside the covered commands: asking for an identifier reveals a hidden object exactly when one has that key |
| `Hidden.ExportRevealsExactly` | crates/virtual-yubihsm-core/src/device.rs:1373-1392 | outside the covered commands: wrapped export tells a hidden target from a missing one exactly when the session sees the wrap key but may not export with it |
| `Listing.ListExactly` | crates/virtual-yubihsm-core/src/device.rs:1644-1660 | a listing names exactly the visible objects that match the filters, each once, by identifier, type and sequence, in ascending key order |
| `Listing.WalkExactly` | crates/virtual-yubihsm-core/src/device.rs:746-752 | walking the store visits every object exactly once, in key order |
| `Commands.ListLoop` | crates/virtual-yubihsm-core/src/device.rs:1644-1660 | the loop over the store appends exactly the entries of visible matching objects, in order |
| `Answers.InfoAnswers` | crates/virtual-yubihsm-core/src/object.rs:94-107 | object information is the 66 bytes that describe the very object named, field by field at its offset |
| `Answers.DeviceInfoAnswers` | crates/virtual-yubihsm-core/src/device.rs:1394-1409 | device information names version, serial number, log size and use, and exactly the enabled algorithms |
| `Answers.EnabledExactly` | crates/virtual-yubihsm-core/src/device.rs:1552-1572 | an algorithm is enabled exactly when firmware and configuration know it, it is not toggled off, and FIPS mode does not forbid it |
| `Answers.DeleteAnswers` | crates/virtual-yubihsm-core/src/device.rs:1003-1013 | deletion removes the very object named and nothing else |
| `Answers.StorageAnswers` | crates/virtual-yubihsm-core/src/device.rs:881-889 | storage information gives all and free records of 256, all and free pages of 1024, and the page size |
| `DeviceRuns.ReachableRestores` | crates/virtual-yubihsm-core/src/device.rs:746-843 | every state reachable from factory default saves to an image that restores under the same configuration to that state, less sessions and the pending flag |
| `DeviceRuns.ReachableBytesRestore` | crates/virtual-yubihsm-core/src/device.rs:746-843 | the same of the bytes it saves, for a serialization that reads back that image |
| `Persistence.StateBytesRestore` | crates/virtual-yubihsm-core/src/device.rs:746-843 | for a serialization that reads back the image, saved bytes restore exactly under the same serial number and room for the log, and with a single byte after them they are refused |
| `Persistence.SaveRestore` | crates/virtual-yubihsm-core/src/device.rs:746-843 | a saved image restores exactly under configurations with the same serial number and room for the log, and then to the same device |
| `Persistence.RestartedAnswersAlike` | crates/virtual-yubihsm-core/src/device.rs:658-705 | a restarted device answers every inner command identically and makes the same durable change |
| `Persistence.OlderImagesRestore` | crates/virtual-yubihsm-core/src/device.rs:806-826 | for every sound store whose HMAC keys have 1 to 128 bytes, images whose lengths follow the rule of version 1 or 2 restore to the same device |
| `Migration.ReachableOlderImages` | crates/virtual-yubihsm-core/src/device.rs:806-826 | every state reachable from factory default, written with the lengths of version 1 or 2, restores to itself, less sessions and the pending flag |
| `Persistence.SoundIsExpressible` | crates/virtual-yubihsm-core/src/device.rs:3499-3515 | every sound object has older lengths that fit the 16-bit field |
| `Persistence.DowngradedRestores` | crates/virtual-yubihsm-core/src/device.rs:3499-3515 | a record stored with its older length migrates back to itself |
| `Persistence.RestoredIsSound` | crates/virtual-yubihsm-core/src/device.rs:777-843 | any accepted image, not only a saved one, gives a device that satisfies the run invariant, with one object for each record |
| `Persistence.AcceptedImageIs` | crates/virtual-yubihsm-core/src/device.rs:777-843 | an accepted image is of this schema, of version 1 to 3, for this serial number, with room for its log and valid options; the device restored has exactly its options, log, generations, epoch and parsed device key |
| `Persistence.RestoreLoop` | crates/virtual-yubihsm-core/src/device.rs:804-826 | the loop fills the map and stops at the first bad or repeated record |
| `LiveDevice.RestoreDevice` | crates/virtual-yubihsm-core/src/device.rs:777-843 | reading, trailing bytes, header checks, device key, history and objects in order; the object built is the restored state |
| `Objects.StoredRoundTrip` | crates/virtual-yubihsm-core/src/object.rs:264-337 | storing and restoring a settled record gives it back |
| `Objects.FromStoredSettles` | crates/virtual-yubihsm-core/src/object.rs:311-337 | private keys of any image come out parsed |
| `Objects.NormalizeThenValidate` | crates/virtual-yubihsm-core/src/object.rs:352-403 | normalizing makes the length the one validation expects |
| `Objects.NormalizeRestores` | crates/virtual-yubihsm-core/src/object.rs:377-383 | a valid record whose length alone was changed normalizes back to itself |
| `WrappedObjects.CodecExact` | crates/virtual-yubihsm-core/src/device.rs:4154-4336 | bytes decode if and only if they are the encoding of a valid wrappable record |
| `WrappedObjects.DecodeEncode` | crates/virtual-yubihsm-core/src/device.rs:4154-4336 | decoding an encoding gives the record with sequence 0 and the low origin nibble |
| `WrappedObjects.DecodedIsEncoding` | crates/virtual-yubihsm-core/src/device.rs:4266-4336 | whatever is accepted re-encodes to the same bytes, although the CBOR reader is lenient |
| `WrappedObjects.EncodingInjective` | crates/virtual-yubihsm-core/src/device.rs:4154-4175 | records with equal encodings are equal up to sequence and origin |
| `WrappedObjects.MaterialsTold` | crates/virtual-yubihsm-core/src/device.rs:4176-4265 | which number tells which kind of material, and the byte strings after it |
| `WrappedObjects.LenientReaderQualifies` | crates/virtual-yubihsm-core/src/device.rs:4266-4280 | the modelled lenient reader meets the hypothesis on the reader |
| `Cbor.ReaderInvertsWriter` | crates/virtual-yubihsm-core/src/device.rs:4154-4175 | the lenient reader reads back every canonical encoding (RFC 8949, section 4.2.1) |
| `Cbor.ReaderIsLenient` | crates/virtual-yubihsm-core/src/device.rs:4266-4280 | it also accepts a longer-than-shortest form, so exactness is not the reader's doing |
| `Accounting.AuditChainOverRuns` | crates/virtual-yubihsm-core/src/device.rs:1593-1632 | over every run from factory default, for the entries that the run appended since the last reset (read off the logs between inputs by `Appended`): survivors are a subsequence of them, each digest is the truncated hash of its own first 16 bytes and the digest appended before, and before numbers wrap they increase and survivors are a suffix |
| `Accounting.StepKeepsChronicle` | crates/virtual-yubihsm-core/src/device.rs:1593-1632 | one input keeps log and appended entries consistent; it appends at most one entry, and a reset starts anew |
| `Audit.RequestHistory` | crates/virtual-yubihsm-core/src/device.rs:1593-1632 | what one request appends is the last entry exactly when the next number moved, and after a wipe what the log then holds |
| `Accounting.ForcedAuditAccounting` | crates/virtual-yubihsm-core/src/device.rs:658-705 | with force-audit on, an audited command is denied for its capability without a trace, refused with LogFull and no change, or runs and adds exactly one entry with its result code |
| `Accounting.ForcedAudit` | crates/virtual-yubihsm-core/src/device.rs:658-705 | of the command as the device runs it: LogFull and nothing changed, or one entry more, with the command and the code of its answer, after the old entries or after a reset as the only one; the entry tells the request as `FactTells` says |
| `Accounting.FactTells` | crates/virtual-yubihsm-core/src/device.rs:1593-1632 | an entry has the command, the capped length of the request, the session's key, the objects that the request's own bytes name (target before wrap key), and the result code |
| `Accounting.CreateTells` | crates/virtual-yubihsm-core/src/device.rs:452-540 | an audited CreateSession with room in the log adds such an entry under the key it names, with the code of the answer that is sent, whatever its outcome |
| `Accounting.AuthenticateTells` | crates/virtual-yubihsm-core/src/device.rs:542-583 | an audited AuthenticateSession with room in the log adds one that names the session's own key as target |
| `Accounting.FullLogRefuses` | crates/virtual-yubihsm-core/src/device.rs:658-678 | with force-audit on and a full log, every supported command but nine is refused with LogFull and does nothing, audited or not |
| `Audit.EntryLayout` | crates/virtual-yubihsm-core/src/device.rs:115-137 | where each field of an entry stands in its 32 bytes |
| `Accounting.LogAnswerLayout` | crates/virtual-yubihsm-core/src/device.rs:1411-1421 | the answer begins with unlogged boots, unlogged authentications and the number of entries; entry i stands at 5 + 32 i |
| `Audit.DigestCovers` | crates/virtual-yubihsm-core/src/device.rs:1593-1632 | the digest is the beginning of the hash of the entry's first 16 bytes followed by the digest before |
| `Accounting.AuthenticateRequestAccounting` | crates/virtual-yubihsm-core/src/device.rs:542-583 | with force-audit on, an encoded AuthenticateSession that is audited and answered with success adds exactly one entry or, exactly when the log is full, one to the saturating counter |
| `Accounting.CreateRequestAccounting` | crates/virtual-yubihsm-core/src/device.rs:452-540 | the same of an encoded CreateSession that names a key for an asymmetric handshake, whose session is authenticated at once |
| `Accounting.FixLatchOverRuns` | crates/virtual-yubihsm-core/src/device.rs:1472-1538 | along any run without a reset no option leaves FIX |
| `Accounting.LogReopens` | crates/virtual-yubihsm-core/src/device.rs:1423-1427 | SetLogIndex 65535 reopens the log if and only if capacity is at least 2, or 1 with that command unaudited |
| `Audit.RunConsistent` | crates/virtual-yubihsm-core/src/device.rs:1593-1632 | any mix of appends, trims, missed authentications and resets keeps the log consistent with its history |
| `Audit.SurvivorsVerify` | crates/virtual-yubihsm-core/src/device.rs:115-137 | before numbers wrap, surviving entries link up to the previous digest |
| `Audit.PrefixExactly` | crates/virtual-yubihsm-core/src/device.rs:1423-1427 | what SetLogIndex leaves is a suffix of the log, for every index, if and only if the numbers ascend |
| `Audit.WrapKeepsOlderEntry` | crates/virtual-yubihsm-core/src/device.rs:1423-1427 | from the empty log and capacity 2, appends and trims reach a log with numbers 65535 and 1, where index 1 drops the newer entry and keeps the older, which is no suffix |
| `Audit.RetainLoop` | crates/virtual-yubihsm-core/src/device.rs:1423-1427 | the filtering loop keeps exactly the entries above the index, in order |
| `Options.PairsApplyWhole` | crates/virtual-yubihsm-core/src/device.rs:1484-1526 | an accepted list gives every key its last listed value and leaves the others |
| `Options.SetPairsLoop` | crates/virtual-yubihsm-core/src/device.rs:1484-1526 | the loop on a copy: the whole list or the first error |
| `Options.SetOptionLatches` | crates/virtual-yubihsm-core/src/device.rs:4501-4514 | an accepted request keeps every FIX and every value valid |
| `Options.PairsAcceptedExactly` | crates/virtual-yubihsm-core/src/device.rs:1484-1526 | a list of pairs is accepted exactly when it is whole, names keys that can be set to values that are valid, and asks for no change of a key that is fixed, by itself or by an earlier pair |
| `Options.SetOptionExactly` | crates/virtual-yubihsm-core/src/device.rs:1472-1538 | an option request gives new options exactly when it is one of those accepted, and then they are what its bytes spell and everything else is kept |
| `OptionCommands.SetOptionCommand` | crates/virtual-yubihsm-core/src/device.rs:1472-1538 | the same of the command: algorithms are toggled and FIPS mode changed only on a device with the factory key alone |
| `OptionCommands.SetOptionReadsBack` | crates/virtual-yubihsm-core/src/device.rs:1429-1538 | GetOption after an accepted SetOption reads back what was set: the byte, or for every key listed its last value |
| `Epochs.FramesMark` | crates/virtual-yubihsm-core/src/device.rs:658-705 | every frame that changes objects, generations, options, log or device key leaves the flag set |
| `Epochs.MarksExactly` | crates/virtual-yubihsm-core/src/device.rs:679-705 | a command that is not held back sets the flag exactly when it is one of the changing ones and succeeded, or when its audit entry found room |
| `Epochs.AnswerExactly` | crates/virtual-yubihsm-core/src/device.rs:679-687 | what the handler said is answered, and WrongLength for more than 8172 bytes |
| `Epochs.EpochSound` | crates/virtual-yubihsm-core/src/persistent_runtime.rs:92-118 | along a run whose commits succeed epochs never fall, across resets too, and equal epochs mean equal durable state |
| `Epochs.EpochSoundEarly` | crates/virtual-yubihsm-core/src/persistent_runtime.rs:92-118 | the same for every run shorter than the epochs that are left, with no assumption on commits |
| `Epochs.StaleEpochHappens` | crates/virtual-yubihsm-core/src/device.rs:846-856 | at the largest epoch an audited CreateSession with room in the log changes durable state under the old epoch |
| `Epochs.StaleEpochWitness` | crates/virtual-yubihsm-core/src/device.rs:846-856 | a concrete sound device, restored from its own image, where that happens |
| `Epochs.StaleEpochExactly` | crates/virtual-yubihsm-core/src/device.rs:846-856 | a request leaves changed state under an unchanged epoch exactly when the epoch was already the largest |
| `Epochs.CommitExactly` | crates/virtual-yubihsm-core/src/device.rs:846-856 | the change is committed exactly when there is room; otherwise it stays pending |
| `Epochs.CommandsAreAtomic` | crates/virtual-yubihsm-core/src/device.rs:679-705 | a command answered with an error changed no object, generation, option, device key, session or session object |
| `Epochs.ErrorsChangeNothing` | crates/virtual-yubihsm-core/src/device.rs:658-705 | the same of every command as the device runs it |
| `Epochs.EffectsFit` | crates/virtual-yubihsm-core/src/device.rs:679-687 | a command that changes state always passes the late size check and is marked as changing |
| `Epochs.StepEffect` | crates/virtual-yubihsm-core/src/device.rs:863-1038 | besides the log, durable state changes by the one effect of the request |
| `DeviceRuns.FactoryRun` | crates/virtual-yubihsm-core/src/device.rs:279-304 | every state reachable from factory default is sound |
| `DeviceRuns.StepKeepsInv` | crates/virtual-yubihsm-core/src/device.rs:361-387 | every request, restart and loss of sessions keeps the store sound |
| `Generations.GenerationsCountWrites` | crates/virtual-yubihsm-core/src/device.rs:3405-3496 | over every run from factory default, across deletions, resets and restarts: an identifier's generation is one less than the writes to it since the last reset, modulo 2^64, and each object is the last one written under its key with the low byte of that generation |
| `Generations.WriteAgrees` | crates/virtual-yubihsm-core/src/device.rs:3463-3471 | a write advances the generation of its identifier, over all object types, and stamps the object |
| `Store.ResolvedIsNew` | crates/virtual-yubihsm-core/src/device.rs:3373-3403 | a resolved identifier is valid and names no object of that type |
| `Store.SampleId` | crates/virtual-yubihsm-core/src/device.rs:3393-3403 | the sampling loop returns the first drawn identifier that is free over all types |
| `Store.CheckWriteKeeps` | crates/virtual-yubihsm-core/src/device.rs:3436-3462 | what passes the checks of the one writing function is sound and keeps its metadata |
| `Store.CheckImportKeeps` | crates/virtual-yubihsm-core/src/device.rs:3413-3434 | likewise for imports, after validation of RSA private keys |
| `RoundTrips.CreatedAsRequested` | crates/virtual-yubihsm-core/src/device.rs:1719-1810 | a created object carries exactly the metadata in the request's own bytes, under the requested or a free identifier, which is the answer |
| `RoundTrips.CreatorReadsInfo` | crates/virtual-yubihsm-core/src/device.rs:1719-1810 | its creator sees it, and object information shows that metadata |
| `RoundTrips.OpaqueReadsBack` | crates/virtual-yubihsm-core/src/device.rs:1662-1717 | an opaque object, new or replaced, reads back as the bytes put |
| `RoundTrips.RequestExactly` | crates/virtual-yubihsm-core/src/request.rs:309-419 | creation requests decode exactly from their field-by-field encoding |
| `RoundTrips.FiltersRoundTrip` | crates/virtual-yubihsm-core/src/request.rs:120-142 | every combination of list filters decodes to itself |
| `Requests.DecodeFiltersLoop` | crates/virtual-yubihsm-core/src/request.rs:120-142 | the loop over the reader computes the filters and consumes everything |
| `Requests.TrimLabel` | crates/virtual-yubihsm-core/src/request.rs:165-172 | the longest zero-free prefix |
| `Wire.Reader.ReadSlice` | crates/virtual-yubihsm-core/src/wire.rs:62-69 | takes exactly the first bytes or fails without moving |
| `Volatile.ExtractIsCyclicWindow` | crates/virtual-yubihsm-core/src/device.rs:2314-2338 | output bit k is base bit (offset + k) modulo the bit length, byte crossing and wrap-around included |
| `Volatile.ExtractLoop` | crates/virtual-yubihsm-core/src/device.rs:2314-2338 | the byte loop with its two shifts and both error cases computes that window |
| `SessionCommands.JoinsInOrder` | crates/virtual-yubihsm-core/src/device.rs:2283-2298 | joining succeeds exactly with two objects that may be derived from, and gives the first bytes of the first value named followed by the second |
| `SessionCommands.AppendsExactly` | crates/virtual-yubihsm-core/src/device.rs:2299-2313 | appending succeeds exactly with one that may be derived from, and gives the first bytes of its value followed by the rest of the request |
| `SessionCommands.ExtractsExactly` | crates/virtual-yubihsm-core/src/device.rs:2314-2338 | extraction gives the cyclic window from the bit that the request names, exactly when bit and length lie within the value |
| `SessionCommands.HashesExactly` | crates/virtual-yubihsm-core/src/device.rs:2339-2351 | hashing gives the first bytes, at most 32, of the hash of the object named |
| `SessionCommands.AgreementNeeds` | crates/virtual-yubihsm-core/src/device.rs:2251-2276 | a secret is agreed exactly with a stored key that is enabled and that session and key may agree with, or with a session object that is a private key and may be derived from |
| `SessionCommands.AgreementTakesTheEnd` | crates/virtual-yubihsm-core/src/device.rs:2251-2282 | key agreement stores the last bytes of the agreed secret |
| `SessionCommands.AgreementSucceeds` | crates/virtual-yubihsm-core/src/device.rs:2251-2282 | and succeeds whenever there is such a secret, long enough |
| `SessionCommands.KdfDerives` | crates/virtual-yubihsm-core/src/device.rs:2352-2376 | a counter KDF uses a stored AES key that session and key may encrypt with, or a session object that may be derived from, over everything after the source |
| `SessionCommands.StoresExactly` | crates/virtual-yubihsm-core/src/session_object.rs:113-126 | a derived value is stored exactly when it suits its kind and there is room and a handle |
| `SessionCommands.DerivedReadsBack` | crates/virtual-yubihsm-core/src/device.rs:2378-2396 | what was derived with the readable flag reads back under the handle given |
| `SessionCommands.ReadExactly` | crates/virtual-yubihsm-core/src/device.rs:2384-2396 | reading gives the value exactly of an object with the readable flag that is no private key |
| `SessionCommands.VerifiesExactly` | crates/virtual-yubihsm-core/src/device.rs:2398-2414 | verifying answers exactly for an AES object with the verify flag and a signature of 1 to 16 bytes, and tells whether it begins the CMAC |
| `Volatile.SessionObjects.Insert` | crates/virtual-yubihsm-core/src/session_object.rs:113-126 | inserts under a fresh handle, or leaves the collection alone |
| `Volatile.SessionObjects.Remove` | crates/virtual-yubihsm-core/src/session_object.rs:128-130 | removes the handle and says whether it was there |
| `Volatile.SampleHandle` | crates/virtual-yubihsm-core/src/session_object.rs:113-126 | a handle is nonzero, unused and drawn, and only below the limit of objects |
| `Crc.ResidueCharacterizes` | crates/virtual-yubihsm-core/src/device.rs:3914-3927 | the CRC of a message and two bytes is 0xf0b8 if and only if they are the little-endian complement of its CRC |
| `Crc.CheckValue` | crates/virtual-yubihsm-core/src/device.rs:3914-3927 | the check value of the CRC: the digits one to nine give 0x6f91 |
| `Crc.YubicoCrc16` | crates/virtual-yubihsm-core/src/device.rs:3914-3927 | the bit loop computes the CRC |
| `UsbFraming.FramingRoundTrip` | src/functionfs.rs:692-724 | for every list of responses, empty ones too, splitting into 64-byte packets with the terminator and reassembling on short packets gives the list back |
| `UsbFraming.TerminatorNeededExactly` | src/functionfs.rs:699-707 | without the zero-length packet the host has the response if and only if the code would not have written one |
| `UsbFraming.ServedExactly` | src/functionfs.rs:692-724 | for non-empty responses and no failing write, only interrupted and swallowed ones: the host gets exactly the responses whose data was accepted if and only if every lost terminator is made up for by a stray one before anything else is sent |
| `UsbFraming.ServedBeforeFailure` | src/functionfs.rs:692-724 | when a write fails, the host has the accepted responses before it, if their terminators balance, and of the failing one at most a beginning |
| `UsbFraming.LostTerminatorMerges` | src/functionfs.rs:699-728 | an endpoint that goes away between a full packet and its terminator makes the host read two responses as one |
| `UsbFraming.UndisturbedIsStream` | src/functionfs.rs:709-724 | with interruptions only, what is served is the stream of the round trip |
| `UsbFraming.Endpoint.Send` | src/functionfs.rs:709-724 | a loop of 64-byte pieces puts exactly the packets of the transfer on the bus |
| `UsbFraming.Endpoint.WriteTransfer` | src/functionfs.rs:709-724 | repeats interrupted writes, swallows those of an unavailable endpoint, and fails on short and broken ones |
| `UsbFraming.Endpoint.WriteResponse` | src/functionfs.rs:699-707 | writes a response and, when it needs one, its terminator, even after a swallowed transfer |
| `UsbFraming.Endpoint.ServeResponses` | src/functionfs.rs:692-697 | serves the responses in order and stops at the first failure |
| `Buttons.Convergence` | src/buttons.rs:133-189 | under every interleaving, dropped notifications included: when everything is drained and idle and no eject is pending, published presence is the negation of the button |
| `Buttons.InvStep` | src/functionfs.rs:365-378 | every step of either thread keeps the protocol invariant |
| `Buttons.NoDeadlock` | src/functionfs.rs:435-445 | while something is left to do, one of the threads or the supervisor can move |
| `Buttons.EverySettlingRunIsBounded` | src/buttons.rs:60-78 | once the button rests, every schedule halts within a bound, and where it halts presence is the negation of the button |
| `Buttons.Line.DrainReconnectEvents` | src/buttons.rs:133-189 | reads every edge, publishes the level after a transition and queues a notification unless the queue is full |
| `Buttons.DrainIsARun` | src/buttons.rs:133-189 | that effect is a run of the interleaved state machine |
| `Buttons.Line.TakeReconnectState` | src/buttons.rs:60-78 | drains the queue and returns the latest published level |
| `LiveDevice.Device.AppendAuditEntry` | crates/virtual-yubihsm-core/src/device.rs:1593-1632 | appends in place unless the log is full; digest, number and tick as specified |
| `LiveDevice.Device.RecordUnloggedAuthenticationIfFull` | crates/virtual-yubihsm-core/src/device.rs:1634-1642 | counts, saturating, exactly when forced and full |
| `LiveDevice.Device.WriteObject` | crates/virtual-yubihsm-core/src/device.rs:3436-3472 | promotion, validation and public-key check before any change, with their errors; then generation, sequence and store together |
| `LiveDevice.Device.WriteImportedObject` | crates/virtual-yubihsm-core/src/device.rs:3413-3434 | validates a private RSA key before any change, then writes |
| `LiveDevice.Device.CreateObject` | crates/virtual-yubihsm-core/src/device.rs:1719-1810 | decodes, plans, resolves, authorizes and writes in place; after any error the device is as it was |
| `LiveDevice.Device.PutOpaque` | crates/virtual-yubihsm-core/src/device.rs:1662-1717 | creates or replaces in place; after any error the device is as it was |
| `LiveDevice.Device.ChangeAuthenticationKey` | crates/virtual-yubihsm-core/src/device.rs:3347-3371 | replaces the key in place; after any error the device is as it was |
| `LiveDevice.Device.ImportWrapped` | crates/virtual-yubihsm-core/src/device.rs:2764-2793 | unwraps, authorizes and writes in place; after any error the device is as it was |
| `LiveDevice.Device.PutRsaWrappedKey` | crates/virtual-yubihsm-core/src/device.rs:2921-3009 | unwraps, authorizes and writes in place; after any error the device is as it was |
| `LiveDevice.Device.SessionObjectCommand` | crates/virtual-yubihsm-core/src/device.rs:2211-2422 | derives, inserts and removes session objects in place; the device stays as it was, and after any error the session objects too |
| `LiveDevice.Device.RenewDevice` | crates/virtual-yubihsm-core/src/device.rs:1014-1030 | draws the new device key before anything is cleared |
| `LiveDevice.Device.SetOption` | crates/virtual-yubihsm-core/src/device.rs:1472-1538 | all four options in place, with every error case, whole or not at all |
| `LiveDevice.Device.SetLogIndex` | crates/virtual-yubihsm-core/src/device.rs:1423-1427 | filters the entries in place and nothing else |
| `LiveDevice.Device.ResetDevice` | crates/virtual-yubihsm-core/src/device.rs:1014-1030 | clears everything, renews the device key and reinstalls the factory key |
| `LiveDevice.Device.ExecuteInnerResult` | crates/virtual-yubihsm-core/src/device.rs:863-1038 | firmware support, authorization, then the handler that changes the state in place; after any error the device is as it was |
| `LiveDevice.Device.ExecuteInnerWithSession` | crates/virtual-yubihsm-core/src/device.rs:658-705 | gate, handler, size check, audit and mark in that order |
| `LiveDevice.Device.FirstFreeSid` | crates/virtual-yubihsm-core/src/device.rs:462-465 | the lowest free number, or none |
| `LiveDevice.Device.CreateSession` | crates/virtual-yubihsm-core/src/device.rs:452-540 | both kinds of handshake, with audit in all outcomes |
| `LiveDevice.Device.AuthenticateSession` | crates/virtual-yubihsm-core/src/device.rs:542-583 | removes the entry and puts it back only when admitted |
| `LiveDevice.Device.SessionMessage` | crates/virtual-yubihsm-core/src/device.rs:585-637 | removes the entry, decrypts, runs, encrypts and puts it back unless closed |
| `LiveDevice.Device.HandleFrame` | crates/virtual-yubihsm-core/src/device.rs:361-387 | expires sessions, then dispatches |
| `LiveDevice.Device.HandleEncoded` | crates/virtual-yubihsm-core/src/device.rs:307-313 | a malformed frame is answered without touching the device |
| `LiveDevice.Device.TakePersistentChange` | crates/virtual-yubihsm-core/src/device.rs:846-856 | advances the epoch over one pending change or fails and keeps it |
| `LiveDevice.Device.ExecuteObserving` | crates/virtual-yubihsm-core/src/persistent_runtime.rs:92-118 | the frame, then the epoch; a failed commit turns the answer into an error |

## Left out

- The cryptography, key validation and encodings of `software-key-core`: parameters with the laws above.
- Attestation certificates, X.509 and SPKI: a parameter that sees the looked-up records; its authorization and lookup are modelled.
- Individual sign, decrypt, derive, KEM and OTP handlers beyond decoding, early refusals, lookup and authorization: `Foreign.useKey` answers.
- The key-data wrapping and unwrapping ciphers around the wrapped-object codec: parameters; the codec itself is modelled byte by byte.
- The layout of the saved image's bytes: a parameter (`ImageCodec`); theorems ask that it reads back the image at hand and says how far it read.
- Persistence.OlderImagesRestore: asks that HMAC keys have 1 to 128 bytes, which restoring does not check; it holds of every state reachable from factory default.
- Files, locking, atomic replacement and the batching thread behind the persistent runtime; `execute_observing` is modelled up to the epoch.
- Commands.HandleStorage: the subtraction `1024 - used` is modelled modulo 2^16; with more than 1024 objects a checked build would panic instead.
- LiveDevice.Device.ExecuteObserving: the health check before, and recording the mutation and waiting for it after, belong to the storage thread and are not modelled.
- Buttons.Line.DrainReconnectEvents: events that are no edge, and errors of reading events, reading the level and sending, which end the thread, are not modelled.
- Buttons.Line.TakeReconnectState: malformed packets and errors of receiving, which end the control loop, are not modelled.
- Hooks that bypass the state machine (`handle_encoded_with`, observers) and `provision_object`.
- The client's asymmetric handshake and its closing call: the credential provider is foreign; from equal keys the lockstep theorem applies as it is.
- Termination of random sampling of identifiers and handles: a draw list that runs out is answered with StorageFailed.
- Zeroization and constant-time comparison: comparison is equality.
- Display, LED, USB descriptors, I2C, connector HTTP transport, qualification scenarios and scripts.
